/** Compiled patterns as a stream of bytes, and back. */
module Serialize {
  import opened Folding
  import opened CodeBlocks
  import opened Opcodes

  const SERIALIZED_DATA_MAGIC := 0x50523253
  const SERIALIZED_DATA_VERSION := 10 + 40 * 0x10000
  const SERIALIZED_DATA_CONFIG := 1 + 8 * 0x100 + 8 * 0x10000
  const HEADER_SIZE := 16
  const MAX_NAME_ENTRY_SIZE := 35
  const MAX_NAME_COUNT := 10000

  const ERROR_BADDATA := -29
  const ERROR_MIXEDTABLES := -30
  const ERROR_BADMAGIC := -31
  const ERROR_BADMODE := -32
  const ERROR_BADSERIALIZEDDATA := -62

  // --- what the stream looks like -----------------------------------------------------------

  function Zeros(n: nat): (s: seq<int>)
    ensures |s| == n
  {
    seq(n, i => 0)
  }

  /** A block with its pointer fields, the first 40 bytes, set to zero. */
  function Scrub(image: seq<int>): (r: seq<int>)
    ensures |image| > SIZEOF_CODE ==> |r| == |image|
  {
    if |image| > SIZEOF_CODE then Zeros(OFF_START_BITMAP) + image[OFF_START_BITMAP..] else image
  }

  function Little(v: int): seq<int> { [v % 256, v / 0x100 % 256, v / 0x10000 % 256, v / 0x1000000 % 256] }

  function Header(n: int): seq<int> {
    Little(SERIALIZED_DATA_MAGIC) + Little(SERIALIZED_DATA_VERSION) + Little(SERIALIZED_DATA_CONFIG) + Little(n)
  }

  /** The blocks of the patterns, one after the other. */
  function Blocks(images: seq<seq<int>>): seq<int> {
    if images == [] then [] else Scrub(images[0]) + Blocks(images[1..])
  }

  function Stream(tables: seq<int>, images: seq<seq<int>>): seq<int> { Header(|images|) + tables + Blocks(images) }

  ghost function Images(mem: map<Address, Block>, codes: seq<Address>): (r: seq<seq<int>>)
    requires Listed(mem, codes)
    ensures |r| == |codes| && forall i :: 0 <= i < |codes| ==> r[i] == mem[codes[i]].image
  {
    seq(|codes|, i requires 0 <= i < |codes| => mem[codes[i]].image)
  }

  // --- encoding --------------------------------------------------------------------------------

  ghost predicate SameTables(mem: map<Address, Block>, codes: seq<Address>)
    requires Listed(mem, codes)
  {
    forall i {:trigger codes[i]} :: 0 <= i < |codes| ==> UsesTables(mem, codes, i, mem[codes[0]].tables)
  }

  ghost predicate UsesTables(mem: map<Address, Block>, codes: seq<Address>, i: nat, t: Address)
    requires Listed(mem, codes) && i < |codes|
  {
    mem[codes[i]].tables == t
  }

  /** Copies bytes into the stream. */
  method CopyIn(bytes: array<int>, dst: nat, src: seq<int>)
    requires dst + |src| <= bytes.Length
    modifies bytes
    ensures bytes[..dst + |src|] == old(bytes[..dst]) + src
  {
    forall i | 0 <= i < |src| { bytes[dst + i] := src[i]; }
    assert bytes[..dst + |src|][..dst] == old(bytes[..dst]);
  }

  /** The stream as far as the first i blocks. */
  function Part(tables: seq<int>, images: seq<seq<int>>, i: nat): seq<int>
    requires i <= |images|
  {
    Header(|images|) + tables + Blocks(images[..i])
  }

  lemma {:induction false} BlocksStep(images: seq<seq<int>>, i: nat)
    requires i < |images|
    ensures Blocks(images[..i + 1]) == Blocks(images[..i]) + Scrub(images[i])
    decreases i
  {
    if i > 0 {
      BlocksStep(images[1..], i - 1);
      assert images[..i + 1][1..] == images[1..][..i] && images[..i][1..] == images[1..][..i - 1]
             && images[1..][i - 1] == images[i];
      assert Blocks(images[..i + 1]) == Scrub(images[0]) + (Blocks(images[..i][1..]) + Scrub(images[i]));
    } else {
      assert images[..1] == [images[0]] && images[..1][1..] == [] && images[..0] == [];
    }
  }

  lemma BlocksAll(images: seq<seq<int>>)
    ensures Blocks(images[..|images|]) == Blocks(images)
  {
    assert images[..|images|] == images;
  }

  lemma PartStep(tables: seq<int>, images: seq<seq<int>>, i: nat)
    requires i < |images|
    ensures Part(tables, images, i + 1) == Part(tables, images, i) + Scrub(images[i])
  {
    BlocksStep(images, i);
  }

  lemma PartAll(tables: seq<int>, images: seq<seq<int>>)
    ensures Part(tables, images, |images|) == Stream(tables, images)
  {
    BlocksAll(images);
  }

  lemma {:induction false} PartFits(tables: seq<int>, images: seq<seq<int>>, i: nat)
    requires i <= |images|
    ensures |Part(tables, images, i)| <= |Stream(tables, images)|
    decreases |images| - i
  {
    if i < |images| {
      PartStep(tables, images, i);
      PartFits(tables, images, i + 1);
    } else {
      PartAll(tables, images);
    }
  }

  /** The size of the stream as far as the first i blocks. */
  ghost predicate SizeIs(images: seq<seq<int>>, i: int, size: int) {
    forall k: int {:trigger Look(k)} :: Look(k) ==>
      0 <= i <= |images| && size == HEADER_SIZE + TABLES_LENGTH + |Blocks(images[..i])|
  }

  lemma SizeStart(images: seq<seq<int>>)
    ensures SizeIs(images, 0, HEADER_SIZE + TABLES_LENGTH)
  {
  }

  lemma SizeStep(images: seq<seq<int>>, i: int, size: int, d: int)
    requires SizeIs(images, i, size) && 0 <= i < |images| && d == |Scrub(images[i])|
    ensures SizeIs(images, i + 1, size + d)
  {
    assert Look(0);
    BlocksStep(images, i);
  }

  lemma SizeAll(images: seq<seq<int>>, size: int)
    requires SizeIs(images, |images|, size)
    ensures size == HEADER_SIZE + TABLES_LENGTH + |Blocks(images)|
  {
    assert Look(0);
    BlocksAll(images);
  }

  /** What has been written is the stream as far as the first i blocks. */
  ghost predicate Written(done: seq<int>, tables: seq<int>, images: seq<seq<int>>, i: int) {
    forall k: int {:trigger Look(k)} :: Look(k) ==> 0 <= i <= |images| && done == Part(tables, images, i)
  }

  lemma WrittenStart(done: seq<int>, tables: seq<int>, images: seq<seq<int>>)
    requires done == Header(|images|) + tables
    ensures Written(done, tables, images, 0)
  {
    assert done == Part(tables, images, 0);
  }

  lemma WrittenStep(done: seq<int>, tables: seq<int>, images: seq<seq<int>>, i: int)
    requires Written(done, tables, images, i) && 0 <= i < |images|
    ensures Written(done + Scrub(images[i]), tables, images, i + 1)
    ensures |done| + |Scrub(images[i])| <= |Stream(tables, images)|
  {
    assert Look(0);
    PartStep(tables, images, i);
    PartFits(tables, images, i + 1);
  }

  lemma WrittenAll(done: seq<int>, tables: seq<int>, images: seq<seq<int>>)
    requires Written(done, tables, images, |images|)
    ensures done == Stream(tables, images)
  {
    assert Look(0);
    PartAll(tables, images);
  }

  /** The magic number and the blocksize field of a pattern. */
  method ReadSize(b: Block) returns (magic: bool, size: nat)
    requires Formed(b)
    ensures magic && size == |b.image| == |Scrub(b.image)| && size > SIZEOF_CODE
  {
    Unfolded(b);
    magic := Number(b.image, OFF_MAGIC, 4) == MAGIC_NUMBER;
    size := Number(b.image, OFF_BLOCKSIZE, 8);
  }

  /** Every pattern of the list is there and well formed. */
  ghost predicate Listed(mem: map<Address, Block>, codes: seq<Address>) {
    forall i {:trigger codes[i]} :: 0 <= i < |codes| ==> codes[i] in mem && Formed(mem[codes[i]])
  }

  /** The size of the stream, unless the patterns cannot go into one. */
  method TotalSize(mem: map<Address, Block>, codes: seq<Address>) returns (rc: int, size: nat)
    requires Listed(mem, codes)
    ensures rc == 0 || rc == ERROR_MIXEDTABLES
    ensures rc == 0 <==> SameTables(mem, codes)
    ensures rc == 0 ==> size == HEADER_SIZE + TABLES_LENGTH + |Blocks(Images(mem, codes))|
  {
    rc, size := 0, HEADER_SIZE + TABLES_LENGTH;
    ghost var images := Images(mem, codes);
    SizeStart(images);
    var i, tables := 0, if |codes| > 0 then mem[codes[0]].tables else 0;
    while i < |codes|
      invariant 0 <= i <= |codes| && SizeIs(images, i, size)
      invariant forall k: nat {:trigger UsesTables(mem, codes, k, tables)} :: k < i ==>
                  UsesTables(mem, codes, k, tables)
    {
      var blocksize;
      rc, blocksize := CheckOne(mem[codes[i]], tables);
      if rc != 0 {
        assert !UsesTables(mem, codes, i, tables);
        return;
      }
      SizeStep(images, i, size, blocksize);
      size := size + blocksize;
      i := i + 1;
    }
    SizeAll(images, size);
  }

  /** The checks of one pattern against the tables of the first one. */
  method CheckOne(re: Block, tables: Address) returns (rc: int, blocksize: nat)
    requires Formed(re)
    ensures rc == 0 || rc == ERROR_MIXEDTABLES
    ensures (rc == 0 <==> re.tables == tables) && blocksize == |Scrub(re.image)|
  {
    var magic;
    magic, blocksize := ReadSize(re);
    rc := if !magic then ERROR_BADMAGIC else if re.tables != tables then ERROR_MIXEDTABLES else 0;
  }

  /** pcre2_serialize_encode */
  method Encode(mem: Memory, codes: seq<Address>) returns (rc: int, bytes: array<int>)
    requires mem.Valid() && Listed(mem.codes, codes)
    ensures fresh(bytes) && (rc == |codes| > 0 || rc == ERROR_BADDATA || rc == ERROR_MIXEDTABLES)
    ensures rc == ERROR_BADDATA <==> |codes| == 0
    ensures rc == ERROR_MIXEDTABLES <==> |codes| > 0 && !SameTables(mem.codes, codes)
    ensures rc > 0 ==> bytes[..] == Stream(BytesOf(mem.tables, mem.fixed, mem.codes[codes[0]].tables),
                                           Images(mem.codes, codes))
  {
    bytes := new int[0];
    if |codes| <= 0 { return ERROR_BADDATA, bytes; }
    var size;
    rc, size := TotalSize(mem.codes, codes);
    if rc != 0 { return; }
    TablesThere(mem.codes, mem.tables, mem.fixed, mem.next, mem.released, codes[0]);
    var tables := BytesOf(mem.tables, mem.fixed, mem.codes[codes[0]].tables);
    bytes := new int[size];
    WriteStream(bytes, mem.codes, codes, tables);
    rc := |codes|;
  }

  method WriteStream(bytes: array<int>, mem: map<Address, Block>, codes: seq<Address>, tables: seq<int>)
    requires Listed(mem, codes) && |tables| == TABLES_LENGTH
    requires bytes.Length == HEADER_SIZE + TABLES_LENGTH + |Blocks(Images(mem, codes))|
    modifies bytes
    ensures bytes[..] == Stream(tables, Images(mem, codes))
  {
    ghost var images := Images(mem, codes);
    HeaderSize(|codes|);
    CopyIn(bytes, 0, Header(|codes|));
    CopyIn(bytes, HEADER_SIZE, tables);
    var i, dst := 0, HEADER_SIZE + TABLES_LENGTH;
    WrittenStart(bytes[..dst], tables, images);
    while i < |codes|
      invariant 0 <= i <= |codes| && 0 <= dst <= bytes.Length && Written(bytes[..dst], tables, images, i)
    {
      var re := mem[codes[i]];
      WrittenStep(bytes[..dst], tables, images, i);
      StreamSize(tables, images);
      var magic, blocksize := ReadSize(re);
      CopyBlock(bytes, dst, re.image);
      dst := dst + blocksize;
      i := i + 1;
    }
    WrittenAll(bytes[..dst], tables, images);
    StreamSize(tables, images);
    assert bytes[..dst] == bytes[..];
  }

  lemma HeaderSize(n: int)
    ensures |Header(n)| == HEADER_SIZE
  {
  }

  lemma StreamSize(tables: seq<int>, images: seq<seq<int>>)
    ensures |Stream(tables, images)| == HEADER_SIZE + |tables| + |Blocks(images)|
  {
    HeaderSize(|images|);
  }

  /** One block is copied, and then its pointer fields are cleared. */
  method CopyBlock(bytes: array<int>, dst: nat, image: seq<int>)
    requires |image| > SIZEOF_CODE && dst + |image| <= bytes.Length
    modifies bytes
    ensures bytes[..dst + |image|] == old(bytes[..dst]) + Scrub(image)
  {
    CopyIn(bytes, dst, image);
    forall i | dst <= i < dst + SIZEOF_MEMCTL { bytes[i] := 0; }
    forall i | dst + OFF_TABLES <= i < dst + OFF_TABLES + 8 { bytes[i] := 0; }
    forall i | dst + OFF_JIT <= i < dst + OFF_JIT + 8 { bytes[i] := 0; }
    ghost var now := bytes[..dst + |image|];
    forall i | 0 <= i < dst + |image| ensures now[i] == (old(bytes[..dst]) + Scrub(image))[i] { }
  }

  // --- decoding ---------------------------------------------------------------------------------

  /** The stream is long enough for the blocks that its size fields announce. */
  predicate Whole(bytes: seq<int>, p: nat, n: nat)
    decreases n
  {
    n == 0 ||
    (p + SIZEOF_CODE <= |bytes| &&
     var size := Number(bytes, p + OFF_BLOCKSIZE, 8);
     size > SIZEOF_CODE ==> p + size <= |bytes| && Whole(bytes, p + size, n - 1))
  }

  /** The checks on one block. */
  predicate Passes(bytes: seq<int>, p: nat)
    requires p + SIZEOF_CODE <= |bytes|
  {
    && Number(bytes, p + OFF_BLOCKSIZE, 8) > SIZEOF_CODE
    && Number(bytes, p + OFF_MAGIC, 4) == MAGIC_NUMBER
    && Number(bytes, p + OFF_NAME_ENTRY_SIZE, 2) <= MAX_NAME_ENTRY_SIZE
    && Number(bytes, p + OFF_NAME_COUNT, 2) <= MAX_NAME_COUNT
  }

  /** The first n blocks from p on, as far as they pass the checks. */
  function Sources(bytes: seq<int>, p: nat, n: nat): (r: seq<seq<int>>)
    requires Whole(bytes, p, n)
    ensures |r| <= n
    decreases n
  {
    if n == 0 || !Passes(bytes, p) then []
    else
      var size := Number(bytes, p + OFF_BLOCKSIZE, 8);
      [bytes[p..p + size]] + Sources(bytes, p + size, n - 1)
  }

  /** Blocks are being decoded: i patterns own the tables t so far, whose count has been set already. */
  ghost predicate Filling(codes: map<Address, Block>, tables: map<Address, Tables>, fixed: map<Address, seq<int>>,
                          next: Address,
                          released: set<Address>, t: Address, i: nat) {
    forall k: int {:trigger Look(k)} :: Look(k) ==>
      && GivenOut(codes, tables, fixed, next, released) && Linked(codes, tables, fixed)
      && t in tables && |Owners(codes, t)| == i
      && Counted(codes, tables - {t})
  }

  lemma FillStart(codes: map<Address, Block>, tables: map<Address, Tables>, fixed: map<Address, seq<int>>, t: Address,
                  released: set<Address>, u: Tables)
    requires Kept(codes, tables, fixed, t, released) && |u.bytes| == TABLES_LENGTH
    ensures t !in tables && t !in codes && Filling(codes, tables[t := u], fixed, t + 1, released, t, 0)
  {
    assert Look(0);
    forall a | a in codes ensures !Owns(codes[a], t) { assert a in codes; }
    assert Owners(codes, t) == {};
    assert tables[t := u] - {t} == tables;
  }

  lemma FillStep(codes: map<Address, Block>, tables: map<Address, Tables>, fixed: map<Address, seq<int>>, r: Address,
                 released: set<Address>,
                 t: Address, i: nat, b: Block)
    requires Filling(codes, tables, fixed, r, released, t, i) && Formed(b) && Shares(b) && b.tables == t
    ensures r !in codes && Filling(codes[r := b], tables, fixed, r + 1, released, t, i + 1)
  {
    assert Look(0);
    OwnersAdd(codes, r, b, t);
    forall u | u in tables - {t} ensures |Owners(codes[r := b], u)| == |Owners(codes, u)| { OwnersAdd(codes, r, b, u); }
    CopyLinked(codes, tables, fixed, r, b);
  }

  lemma FillEnd(codes: map<Address, Block>, tables: map<Address, Tables>, fixed: map<Address, seq<int>>, next: Address,
                released: set<Address>, t: Address, i: nat)
    requires Filling(codes, tables, fixed, next, released, t, i) && i > 0 && t in tables && tables[t].refCount == i
    ensures Kept(codes, tables, fixed, next, released)
  {
    assert Look(0);
    forall u | u in tables ensures tables[u].refCount == |Owners(codes, u)| > 0 {
      if u != t { assert u in tables - {t}; }
    }
  }

  /** A block that has passed the checks. */
  lemma DecodedFormed(bytes: seq<int>, p: nat, size: nat, b: Block)
    requires p + SIZEOF_CODE < p + size <= |bytes| && Passes(bytes, p) && size == Number(bytes, p + OFF_BLOCKSIZE, 8)
    requires b.image == WithDeref(bytes[p..p + size])
    ensures Formed(b) && Shares(b)
  {
    SliceNumber(bytes, p, size, OFF_BLOCKSIZE, 8);
    SliceNumber(bytes, p, size, OFF_MAGIC, 4);
    ImageFormed(bytes[p..p + size], b);
  }

  lemma SliceNumber(bytes: seq<int>, p: nat, size: nat, off: nat, n: nat)
    requires p + size <= |bytes| && off + n <= size
    ensures Number(bytes[p..p + size], off, n) == Number(bytes, p + off, n)
  {
    var a, b := bytes[p..p + size][off..off + n], bytes[p + off..p + off + n];
    assert |a| == |b| && forall i :: 0 <= i < n ==> a[i] == b[i];
    assert a == b;
    SameNumber(bytes[p..p + size], bytes, off, p + off, n);
  }

  /** There are m blocks to come, from p on; `done` have been decoded out of `all` that pass the checks. */
  ghost predicate Left(bytes: seq<int>, p: nat, m: nat, done: seq<seq<int>>, all: seq<seq<int>>) {
    forall k: int {:trigger Look(k)} :: Look(k) ==> Whole(bytes, p, m) && all == done + Sources(bytes, p, m)
  }

  lemma LeftNone(bytes: seq<int>, p: nat, done: seq<seq<int>>, all: seq<seq<int>>)
    requires Left(bytes, p, 0, done, all)
    ensures all == done
  {
    assert Look(0);
  }

  lemma LeftNext(bytes: seq<int>, p: nat, m: nat, done: seq<seq<int>>, all: seq<seq<int>>, size: int, source: seq<int>)
    requires m > 0 && Left(bytes, p, m, done, all) && p + SIZEOF_CODE <= |bytes| && Passes(bytes, p)
    requires size == Number(bytes, p + OFF_BLOCKSIZE, 8) && p + size <= |bytes| && source == bytes[p..p + size]
    ensures Left(bytes, p + size, m - 1, done + [source], all)
  {
    assert Look(0);
    assert done + ([source] + Sources(bytes, p + size, m - 1)) == (done + [source]) + Sources(bytes, p + size, m - 1);
  }

  /** One block of the stream: its bytes, unless it fails the checks. */
  method DecodeOne(bytes: seq<int>, p: nat, t: Address, memctl: int, ghost m: nat, ghost done: seq<seq<int>>,
                   ghost all: seq<seq<int>>)
      returns (ok: bool, b: Block, size: int, ghost source: seq<int>)
    requires m > 0 && Left(bytes, p, m, done, all)
    ensures !ok ==> |all| < |done| + m
    ensures ok ==> size > 0 && Left(bytes, p + size, m - 1, done + [source], all)
    ensures ok ==> b == Block(WithDeref(source), memctl, t, 0) && Formed(b) && Shares(b)
  {
    assert Look(0);
    size := Number(bytes, p + OFF_BLOCKSIZE, 8);
    ok := Passes(bytes, p);
    b, source := Block([], memctl, t, 0), [];
    if ok {
      source := bytes[p..p + size];
      b := b.(image := WithDeref(bytes[p..p + size]));
      DecodedFormed(bytes, p, size, b);
      LeftNext(bytes, p, m, done, all, size, source);
    }
  }

  /** The patterns that have been decoded are at the addresses after that of their tables. */
  ghost predicate Decoded(codes: map<Address, Block>, before: map<Address, Block>, sources: seq<seq<int>>, t: Address,
                          memctl: int) {
    && (forall a :: a in codes <==> a in before || t < a <= t + |sources|)
    && (forall a :: a in before && a in codes ==> codes[a] == before[a])
    && forall i {:trigger sources[i]} :: 0 <= i < |sources| ==>
         t + 1 + i in codes && codes[t + 1 + i] == Block(WithDeref(sources[i]), memctl, t, 0)
  }

  ghost predicate SoFar(codes: map<Address, Block>, before: map<Address, Block>, sources: seq<seq<int>>, t: Address,
                        memctl: int) {
    forall k: int {:trigger Look(k)} :: Look(k) ==> Decoded(codes, before, sources, t, memctl)
  }

  lemma SoFarNone(codes: map<Address, Block>, t: Address, memctl: int)
    ensures SoFar(codes, codes, [], t, memctl)
  {
  }

  lemma SoFarStep(codes: map<Address, Block>, before: map<Address, Block>, sources: seq<seq<int>>, t: Address,
                  memctl: int, r: Address, source: seq<int>)
    requires SoFar(codes, before, sources, t, memctl) && r == t + 1 + |sources| && r !in codes
    ensures SoFar(codes[r := Block(WithDeref(source), memctl, t, 0)], before, sources + [source], t, memctl)
  {
    assert Look(0);
  }

  lemma SoFarAll(codes: map<Address, Block>, before: map<Address, Block>, sources: seq<seq<int>>, t: Address,
                 memctl: int)
    requires SoFar(codes, before, sources, t, memctl)
    ensures Decoded(codes, before, sources, t, memctl)
  {
    assert Look(0);
  }

  predicate HeaderOk(bytes: seq<int>) {
    && |bytes| >= HEADER_SIZE + TABLES_LENGTH
    && Number(bytes, 12, 4) > 0 && Number(bytes, 0, 4) == SERIALIZED_DATA_MAGIC
    && Number(bytes, 4, 4) == SERIALIZED_DATA_VERSION && Number(bytes, 8, 4) == SERIALIZED_DATA_CONFIG
  }

  /** How many patterns are decoded. */
  function Wanted(bytes: seq<int>, number: int): int
    requires |bytes| >= HEADER_SIZE
  {
    if number > Number(bytes, 12, 4) then Number(bytes, 12, 4) else number
  }

  const FIRST_BLOCK := HEADER_SIZE + TABLES_LENGTH

  /** pcre2_serialize_decode: the patterns are put at the addresses after t, that of the tables they share. */
  method Decode(mem: Memory, number: int, bytes: seq<int>, memctl: int) returns (rc: int, t: Address)
    requires mem.Valid() && |bytes| >= FIRST_BLOCK
             && (number > 0 && HeaderOk(bytes) ==> Whole(bytes, FIRST_BLOCK, Wanted(bytes, number)))
    modifies mem
    ensures rc == ERROR_BADDATA <==> number <= 0
    ensures rc == ERROR_BADMAGIC || rc == ERROR_BADMODE ==> !HeaderOk(bytes)
    ensures number > 0 && HeaderOk(bytes) ==>
              var n := Wanted(bytes, number);
              rc == if |Sources(bytes, FIRST_BLOCK, n)| == n then n else ERROR_BADSERIALIZEDDATA
    ensures t == old(mem.next)
    ensures rc > 0 ==>
              && number > 0 && HeaderOk(bytes) && mem.Valid() && mem.released == old(mem.released)
              && mem.tables == old(mem.tables)[t := Tables(bytes[HEADER_SIZE..FIRST_BLOCK], rc)]
              && Decoded(mem.codes, old(mem.codes), Sources(bytes, FIRST_BLOCK, rc), t, memctl)
  {
    t := mem.next;
    if number <= 0 { return ERROR_BADDATA, t; }
    if Number(bytes, 12, 4) <= 0 { return ERROR_BADSERIALIZEDDATA, t; }
    if Number(bytes, 0, 4) != SERIALIZED_DATA_MAGIC { return ERROR_BADMAGIC, t; }
    if Number(bytes, 4, 4) != SERIALIZED_DATA_VERSION { return ERROR_BADMODE, t; }
    if Number(bytes, 8, 4) != SERIALIZED_DATA_CONFIG { return ERROR_BADMODE, t; }
    rc := DecodeBlocks(mem, Wanted(bytes, number), bytes, memctl);
  }

  /** One more pattern in memory. */
  method PutBlock(mem: Memory, b: Block, ghost source: seq<int>, ghost t: Address, ghost i: nat,
                  ghost sources: seq<seq<int>>,
                  ghost before: map<Address, Block>, ghost memctl: int)
    requires Filling(mem.codes, mem.tables, mem.fixed, mem.next, mem.released, t, i)
             && SoFar(mem.codes, before, sources, t, memctl)
    requires Formed(b) && Shares(b) && b == Block(WithDeref(source), memctl, t, 0) && mem.next == t + 1 + |sources|
    modifies mem`codes, mem`next
    ensures mem.next == old(mem.next) + 1
    ensures Filling(mem.codes, mem.tables, mem.fixed, mem.next, mem.released, t, i + 1)
    ensures SoFar(mem.codes, before, sources + [source], t, memctl)
  {
    FillStep(mem.codes, mem.tables, mem.fixed, mem.next, mem.released, t, i, b);
    SoFarStep(mem.codes, before, sources, t, memctl, mem.next, source);
    mem.codes := mem.codes[mem.next := b];
    mem.next := mem.next + 1;
  }

  /** The block at p. */
  method DecodeNext(mem: Memory, bytes: seq<int>, p: nat, t: Address, memctl: int, ghost m: nat,
                    ghost sources: seq<seq<int>>, ghost before: map<Address, Block>, ghost all: seq<seq<int>>)
      returns (ok: bool, size: int, ghost sources': seq<seq<int>>)
    requires m > 0 && Left(bytes, p, m, sources, all) && mem.next == t + 1 + |sources|
    requires Filling(mem.codes, mem.tables, mem.fixed, mem.next, mem.released, t, |sources|)
    requires SoFar(mem.codes, before, sources, t, memctl)
    modifies mem`codes, mem`next
    ensures if ok then size > 0 else |all| < |sources| + m
    ensures ok ==> |sources'| == |sources| + 1 && Left(bytes, p + size, m - 1, sources', all)
    ensures ok ==> mem.next == t + 1 + |sources'| && SoFar(mem.codes, before, sources', t, memctl)
    ensures ok ==> Filling(mem.codes, mem.tables, mem.fixed, mem.next, mem.released, t, |sources'|)
  {
    var b;
    ghost var source;
    ok, b, size, source := DecodeOne(bytes, p, t, memctl, m, sources, all);
    sources' := sources;
    if ok {
      PutBlock(mem, b, source, t, |sources|, sources, before, memctl);
      sources' := sources + [source];
    }
  }

  /** The tables get an address, and the patterns that are to share them will follow. */
  method PutTables(mem: Memory, u: Tables, ghost memctl: int) returns (t: Address)
    requires mem.Valid() && |u.bytes| == TABLES_LENGTH
    modifies mem`tables, mem`next
    ensures t == old(mem.next) && mem.next == t + 1 && mem.tables == old(mem.tables)[t := u]
    ensures Filling(mem.codes, mem.tables, mem.fixed, mem.next, mem.released, t, 0)
    ensures SoFar(mem.codes, mem.codes, [], t, memctl)
  {
    t := mem.next;
    FillStart(mem.codes, mem.tables, mem.fixed, t, mem.released, u);
    mem.tables, mem.next := mem.tables[t := u], t + 1;
    SoFarNone(mem.codes, t, memctl);
  }

  /** The tables and the blocks. */
  method DecodeBlocks(mem: Memory, n: nat, bytes: seq<int>, memctl: int) returns (rc: int)
    requires mem.Valid() && n > 0 && |bytes| >= FIRST_BLOCK && Whole(bytes, FIRST_BLOCK, n)
    modifies mem
    ensures rc == if |Sources(bytes, FIRST_BLOCK, n)| == n then n else ERROR_BADSERIALIZEDDATA
    ensures rc > 0 ==>
              var t := old(mem.next);
              && mem.Valid() && mem.released == old(mem.released)
              && mem.tables == old(mem.tables)[t := Tables(bytes[HEADER_SIZE..FIRST_BLOCK], n)]
              && Decoded(mem.codes, old(mem.codes), Sources(bytes, FIRST_BLOCK, n), t, memctl)
  {
    ghost var all, before := Sources(bytes, FIRST_BLOCK, n), mem.codes;
    var t := PutTables(mem, Tables(bytes[HEADER_SIZE..FIRST_BLOCK], n), memctl);
    var ok := DecodeAll(mem, n, bytes, t, memctl, before, all);
    if !ok { return ERROR_BADSERIALIZEDDATA; }
    SoFarAll(mem.codes, before, all, t, memctl);
    FillEnd(mem.codes, mem.tables, mem.fixed, mem.next, mem.released, t, n);
    rc := n;
  }

  method DecodeAll(mem: Memory, n: nat, bytes: seq<int>, t: Address, memctl: int, ghost before: map<Address, Block>,
                   ghost all: seq<seq<int>>)
      returns (ok: bool)
    requires |bytes| >= FIRST_BLOCK && Left(bytes, FIRST_BLOCK, n, [], all) && mem.next == t + 1
    requires Filling(mem.codes, mem.tables, mem.fixed, mem.next, mem.released, t, 0)
    requires SoFar(mem.codes, before, [], t, memctl)
    modifies mem`codes, mem`next
    ensures !ok ==> |all| < n
    ensures ok ==> |all| == n && mem.next == t + 1 + n && SoFar(mem.codes, before, all, t, memctl)
    ensures ok ==> Filling(mem.codes, mem.tables, mem.fixed, mem.next, mem.released, t, n)
  {
    var i: nat, p: nat := 0, FIRST_BLOCK;
    ghost var m: nat, sources: seq<seq<int>> := n, [];
    ok := true;
    while i < n
      invariant i + m == n && |sources| == i && Left(bytes, p, m, sources, all) && ok
      invariant mem.next == t + 1 + i && SoFar(mem.codes, before, sources, t, memctl)
      invariant Filling(mem.codes, mem.tables, mem.fixed, mem.next, mem.released, t, i)
    {
      var size;
      ok, size, sources := DecodeNext(mem, bytes, p, t, memctl, m, sources, before, all);
      if !ok { return; }
      i, p, m := i + 1, p + size, m - 1;
    }
    LeftNone(bytes, p, sources, all);
  }

  // --- decoding what has been encoded -------------------------------------------------------------

  lemma LittleNumber(v: int)
    requires 0 <= v < 0x1_0000_0000
    ensures Number(Little(v), 0, 4) == v
  {
    var a, b, c := v / 0x100, v / 0x10000, v / 0x1000000;
    assert v == 256 * a + v % 256 && a == 256 * b + a % 256 && b == 256 * c + b % 256 && c % 256 == c;
    var s := Little(v);
    assert Number(s, 4, 0) == 0;
    assert Number(s, 3, 1) == s[3];
    assert Number(s, 2, 2) == s[2] + 256 * s[3];
    assert Number(s, 1, 3) == s[1] + 256 * (s[2] + 256 * s[3]);
  }

  lemma HeaderNumber(tables: seq<int>, images: seq<seq<int>>, off: nat, v: int)
    requires 0 <= v < 0x1_0000_0000 && off <= 12 && Header(|images|)[off..off + 4] == Little(v)
    ensures Number(Stream(tables, images), off, 4) == v
  {
    var s := Stream(tables, images);
    assert s[off..off + 4] == Header(|images|)[off..off + 4];
    assert Little(v)[0..4] == Little(v);
    SameNumber(s, Little(v), off, 0, 4);
    LittleNumber(v);
  }

  lemma StreamHeader(tables: seq<int>, images: seq<seq<int>>)
    requires |tables| == TABLES_LENGTH && 0 < |images| < 0x8000_0000
    ensures HeaderOk(Stream(tables, images)) && Number(Stream(tables, images), 12, 4) == |images|
  {
    StreamSize(tables, images);
    HeaderNumber(tables, images, 0, SERIALIZED_DATA_MAGIC);
    HeaderNumber(tables, images, 4, SERIALIZED_DATA_VERSION);
    HeaderNumber(tables, images, 8, SERIALIZED_DATA_CONFIG);
    HeaderNumber(tables, images, 12, |images|);
  }

  /** The bytes of a pattern that can be encoded and decoded. */
  predicate Encodable(image: seq<int>) {
    && |image| > SIZEOF_CODE && Number(image, OFF_BLOCKSIZE, 8) == |image|
       && Number(image, OFF_MAGIC, 4) == MAGIC_NUMBER
    && Number(image, OFF_NAME_ENTRY_SIZE, 2) <= MAX_NAME_ENTRY_SIZE
       && Number(image, OFF_NAME_COUNT, 2) <= MAX_NAME_COUNT
  }

  lemma ScrubNumber(bytes: seq<int>, p: nat, image: seq<int>, off: nat, n: nat)
    requires |image| > SIZEOF_CODE && p + |image| <= |bytes| && bytes[p..p + |image|] == Scrub(image)
    requires OFF_START_BITMAP <= off && off + n <= SIZEOF_CODE
    ensures Number(bytes, p + off, n) == Number(image, off, n)
  {
    SliceNumber(bytes, p, |image|, off, n);
    assert Scrub(image)[off..off + n] == image[off..off + n];
    SameNumber(Scrub(image), image, off, off, n);
  }

  ghost predicate Can(image: seq<int>) { forall k: int {:trigger Look(k)} :: Look(k) ==> Encodable(image) }

  ghost predicate AllCan(images: seq<seq<int>>) {
    forall i {:trigger images[i]} :: 0 <= i < |images| ==> Can(images[i])
  }

  /** The blocks of the images are at p. */
  ghost predicate BlocksAt(bytes: seq<int>, p: nat, images: seq<seq<int>>) {
    forall k: int {:trigger Look(k)} :: Look(k) ==> p <= |bytes| && bytes[p..] == Blocks(images) && AllCan(images)
  }

  lemma SplitFront(bytes: seq<int>, p: nat, images: seq<seq<int>>) returns (next: nat)
    requires BlocksAt(bytes, p, images) && images != []
    ensures Can(images[0]) && next == p + |images[0]| <= |bytes| && bytes[p..next] == Scrub(images[0])
            && BlocksAt(bytes, next, images[1..])
  {
    assert Look(0);
    var image := images[0];
    next := p + |image|;
    assert bytes[p..][..|image|] == Scrub(image) && bytes[p..][|image|..] == Blocks(images[1..]);
  }

  /** The source blocks are those of the first n images. */
  ghost predicate Back(sources: seq<seq<int>>, images: seq<seq<int>>, n: nat) {
    |sources| == n <= |images| && forall i {:trigger sources[i]} :: 0 <= i < n ==> sources[i] == Scrub(images[i])
  }

  lemma BackCons(source: seq<int>, sources: seq<seq<int>>, images: seq<seq<int>>, n: nat)
    requires images != [] && source == Scrub(images[0]) && Back(sources, images[1..], n)
    ensures Back([source] + sources, images, n + 1)
  {
  }

  ghost predicate SourcesAre(bytes: seq<int>, p: nat, n: nat, images: seq<seq<int>>) {
    forall k: int {:trigger Look(k)} :: Look(k) ==> Whole(bytes, p, n) && Back(Sources(bytes, p, n), images, n)
  }

  lemma SourcesStep(bytes: seq<int>, p: nat, next: nat, n: nat, m: nat, images: seq<seq<int>>)
    requires m == n + 1 && images != [] && Can(images[0]) && next == p + |images[0]| <= |bytes|
             && bytes[p..next] == Scrub(images[0])
    requires SourcesAre(bytes, next, n, images[1..])
    ensures SourcesAre(bytes, p, m, images)
  {
    assert Look(0);
    BlockPasses(bytes, p, images[0]);
    SourcesCons(bytes, p, images[0], m);
    BackCons(bytes[p..next], Sources(bytes, next, n), images, n);
  }

  lemma {:induction false} SourcesBack(bytes: seq<int>, p: nat, images: seq<seq<int>>, n: nat)
    requires BlocksAt(bytes, p, images) && n <= |images|
    ensures SourcesAre(bytes, p, n, images)
    decreases n
  {
    if n == 0 {
      SourcesNone(bytes, p, images);
    } else {
      var next := SplitFront(bytes, p, images);
      SourcesBack(bytes, next, images[1..], n - 1);
      SourcesStep(bytes, p, next, n - 1, n, images);
    }
  }

  lemma SourcesNone(bytes: seq<int>, p: nat, images: seq<seq<int>>)
    ensures SourcesAre(bytes, p, 0, images)
  {
    assert Whole(bytes, p, 0) && Sources(bytes, p, 0) == [];
  }

  lemma BlockPasses(bytes: seq<int>, p: nat, image: seq<int>)
    requires Can(image) && p + |image| <= |bytes| && bytes[p..p + |image|] == Scrub(image)
    ensures |image| > SIZEOF_CODE && Passes(bytes, p) && Number(bytes, p + OFF_BLOCKSIZE, 8) == |image|
  {
    assert Look(0);
    ScrubNumber(bytes, p, image, OFF_BLOCKSIZE, 8);
    ScrubNumber(bytes, p, image, OFF_MAGIC, 4);
    ScrubNumber(bytes, p, image, OFF_NAME_ENTRY_SIZE, 2);
    ScrubNumber(bytes, p, image, OFF_NAME_COUNT, 2);
  }

  lemma SourcesCons(bytes: seq<int>, p: nat, image: seq<int>, n: nat)
    requires n > 0 && |image| > SIZEOF_CODE && p + |image| <= |bytes| && Passes(bytes, p)
             && Number(bytes, p + OFF_BLOCKSIZE, 8) == |image|
    requires Whole(bytes, p + |image|, n - 1)
    ensures Whole(bytes, p, n) && Sources(bytes, p, n) == [bytes[p..p + |image|]] + Sources(bytes, p + |image|, n - 1)
  {
  }

  /** The bytes of a pattern after encoding and decoding: all but the pointer fields are the same, and the flag is set
      that says that the pattern owns its tables. */
  ghost predicate Restored(image: seq<int>, back: seq<int>) {
    && |back| == |image| > SIZEOF_CODE
    && (forall i {:trigger back[i]} {:trigger image[i]} :: OFF_START_BITMAP <= i < |image| && i != DEREF_BYTE ==>
          back[i] == image[i])
    && forall k :: 0 <= k < 8 ==> BitOf(back[DEREF_BYTE], k) == (BitOf(image[DEREF_BYTE], k) || k == 2)
  }

  lemma ScrubRestored(image: seq<int>)
    requires |image| > SIZEOF_CODE
    ensures Restored(image, WithDeref(Scrub(image)))
  {
    forall k | 0 <= k < 8 ensures BitOf(SetBit2(image[DEREF_BYTE]), k) == (BitOf(image[DEREF_BYTE], k) || k == 2) {
      DerefSet(image[DEREF_BYTE], k);
    }
  }

  /** Each copy is the pattern it was made from. */
  ghost predicate AllRestored(codes: map<Address, Block>, before: map<Address, Block>, list: seq<Address>, n: nat,
                              t: Address, memctl: int) {
    forall i: nat {:trigger list[i]} :: i < n && i < |list| && list[i] in before ==>
      && t + 1 + i in codes && t + 1 + i !in before
      && var c := codes[t + 1 + i];
         Restored(before[list[i]].image, c.image) && c.memctl == memctl && c.tables == t && c.jit == 0
  }

  lemma BackRestored(codes: map<Address, Block>, before: map<Address, Block>, list: seq<Address>, n: nat, t: Address,
                     memctl: int, sources: seq<seq<int>>, next: Address)
    requires Listed(before, list) && Back(sources, Images(before, list), n)
             && Decoded(codes, before, sources, t, memctl)
    requires forall a :: a in before ==> a < t
    ensures AllRestored(codes, before, list, n, t, memctl)
  {
    forall i: nat | i < n && i < |list| && list[i] in before
      ensures t + 1 + i in codes && Restored(before[list[i]].image, codes[t + 1 + i].image)
              && codes[t + 1 + i].memctl == memctl
              && codes[t + 1 + i].tables == t && codes[t + 1 + i].jit == 0
    {
      assert sources[i] == Scrub(before[list[i]].image);
      Unfolded(before[list[i]]);
      ScrubRestored(before[list[i]].image);
    }
  }

  lemma StreamSources(tables: seq<int>, images: seq<seq<int>>, n: nat)
    requires |tables| == TABLES_LENGTH && n <= |images| && AllCan(images)
    ensures var s := Stream(tables, images);
            && |s| >= FIRST_BLOCK && s[HEADER_SIZE..FIRST_BLOCK] == tables && SourcesAre(s, FIRST_BLOCK, n, images)
  {
    var s := Stream(tables, images);
    StreamSize(tables, images);
    assert s[HEADER_SIZE..FIRST_BLOCK] == tables;
    assert s[FIRST_BLOCK..] == Blocks(images);
    SourcesBack(s, FIRST_BLOCK, images, n);
  }

  /** What decoding has to be given, and what it gives, for a stream that has been encoded. */
  lemma StreamDecodes(tables: seq<int>, images: seq<seq<int>>, number: int)
    requires |tables| == TABLES_LENGTH && AllCan(images) && 0 < |images| < 0x8000_0000 && number > 0
    ensures var s := Stream(tables, images); var n := if number > |images| then |images| else number;
            && |s| >= FIRST_BLOCK && HeaderOk(s) && Wanted(s, number) == n && s[HEADER_SIZE..FIRST_BLOCK] == tables
            && Whole(s, FIRST_BLOCK, n) && Back(Sources(s, FIRST_BLOCK, n), images, n)
  {
    StreamHeader(tables, images);
    StreamSources(tables, images, if number > |images| then |images| else number);
    assert Look(0);
  }

  /** Encodes patterns that share their tables and decodes the stream. */
  method RoundTrip(mem: Memory, codes: seq<Address>, number: int, memctl: int) returns (rc: int, t: Address)
    requires mem.Valid() && Listed(mem.codes, codes) && 0 < |codes| < 0x8000_0000 && SameTables(mem.codes, codes)
             && number > 0
    requires AllCan(Images(mem.codes, codes))
    modifies mem
    ensures rc == (if number > |codes| then |codes| else number) && mem.Valid()
    ensures AllRestored(mem.codes, old(mem.codes), codes, rc, t, memctl)
    ensures forall a :: a in old(mem.codes) ==> a in mem.codes && mem.codes[a] == old(mem.codes)[a]
    ensures mem.tables == old(mem.tables)[t := Tables(BytesOf(old(mem.tables), mem.fixed,
                                                              old(mem.codes)[codes[0]].tables), rc)]
  {
    ghost var before, images := mem.codes, Images(mem.codes, codes);
    TablesThere(mem.codes, mem.tables, mem.fixed, mem.next, mem.released, codes[0]);
    ghost var tables := BytesOf(mem.tables, mem.fixed, mem.codes[codes[0]].tables);
    ghost var next := mem.next;
    GivenBefore(mem.codes, mem.tables, mem.fixed, mem.next, mem.released);
    var bytes;
    rc, bytes := Encode(mem, codes);
    StreamDecodes(tables, images, number);
    rc, t := Decode(mem, number, bytes[..], memctl);
    BackRestored(mem.codes, before, codes, rc, t, memctl, Sources(bytes[..], FIRST_BLOCK, rc), next);
  }

  lemma GivenBefore(codes: map<Address, Block>, tables: map<Address, Tables>, fixed: map<Address, seq<int>>,
                    next: Address, released: set<Address>)
    requires Kept(codes, tables, fixed, next, released)
    ensures forall a :: a in codes ==> a < next
  {
    assert Look(0);
  }
}
