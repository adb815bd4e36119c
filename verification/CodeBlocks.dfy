/** Compiled patterns in memory: copying and freeing them, and the reference counts of the character tables that several
    of them share. */
module CodeBlocks {
  import opened Folding
  import opened Opcodes
  import opened Regex
  import opened Bits

  // Offsets of the fields of a compiled pattern, where a pointer and a size take up eight bytes.
  const SIZEOF_MEMCTL := 24
  const OFF_TABLES := 24
  const OFF_JIT := 32
  const OFF_START_BITMAP := 40
  const OFF_BLOCKSIZE := 72
  const OFF_MAGIC := 80
  const OFF_FLAGS := 96
  const OFF_NAME_ENTRY_SIZE := 132
  const OFF_NAME_COUNT := 134
  const SIZEOF_CODE := 136
  const TABLES_LENGTH := 1088
  const MAGIC_NUMBER := 0x50435245

  /** PCRE2_DEREF_TABLES is bit 2 of the third byte of the flags. */
  const DEREF_BYTE := OFF_FLAGS + 2
  const DEREF_BIT := 4

  type Address = int

  /** A compiled pattern: its bytes, and beside them what its pointer fields hold. */
  datatype Block = Block(image: seq<int>, memctl: int, tables: Address, jit: int)

  /** Character tables on the heap, followed by their reference count. */
  datatype Tables = Tables(bytes: seq<int>, refCount: int)

  /** A number of n bytes at offset p, the lowest byte first. */
  function Number(s: seq<int>, p: nat, n: nat): int
    requires p + n <= |s|
    decreases |s| - p
  {
    if n == 0 then 0 else s[p] + 256 * Number(s, p + 1, n - 1)
  }

  predicate WellFormed(b: Block) {
    && |b.image| > SIZEOF_CODE && Number(b.image, OFF_BLOCKSIZE, 8) == |b.image|
    && Number(b.image, OFF_MAGIC, 4) == MAGIC_NUMBER
  }

  /** The pattern shares in the ownership of its tables. */
  predicate Deref(b: Block)
    requires |b.image| > SIZEOF_CODE
  {
    BitOf(b.image[DEREF_BYTE], 2)
  }

  /** The image with the flag set that says so. */
  function WithDeref(image: seq<int>): (r: seq<int>)
    ensures |r| == |image| && forall i :: 0 <= i < |image| && i != DEREF_BYTE ==> r[i] == image[i]
  {
    if |image| > SIZEOF_CODE then image[DEREF_BYTE := SetBit2(image[DEREF_BYTE])] else image
  }

  /** The byte with bit 2 set. */
  function SetBit2(x: int): int { if BitOf(x, 2) then x else x + DEREF_BIT }

  lemma LastBit(q: int)
    ensures q % 2 == 0 ==> (q + 1) % 2 == 1 && (q + 1) / 2 == q / 2
  {
  }

  /** Only bit 2 changes. */
  lemma DerefSet(x: int, k: int)
    requires 0 <= k < 8
    ensures BitOf(SetBit2(x), k) == (BitOf(x, k) || k == 2)
  {
    if !BitOf(x, 2) {
      var y := x + DEREF_BIT;
      Quotients(x);
      Quotients(y);
      assert y / 2 == x / 2 + 2 && y / 4 == x / 4 + 1;
      LastBit(x / 4);
    }
  }

  lemma SameNumber(s: seq<int>, r: seq<int>, p: nat, q: nat, n: nat)
    requires p + n <= |s| && q + n <= |r| && s[p..p + n] == r[q..q + n]
    ensures Number(s, p, n) == Number(r, q, n)
    decreases n
  {
    if n > 0 {
      assert s[p] == s[p..p + n][0] == r[q..q + n][0] == r[q];
      assert s[p + 1..p + n] == s[p..p + n][1..] == r[q..q + n][1..] == r[q + 1..q + n];
      SameNumber(s, r, p + 1, q + 1, n - 1);
    }
  }

  // --- who owns the tables ----------------------------------------------------------------

  /** WellFormed and Deref, folded: proofs about ownership do not look into the bytes. */
  ghost predicate Formed(b: Block) { forall k: int {:trigger Look(k)} :: Look(k) ==> WellFormed(b) }

  ghost predicate Shares(b: Block) {
    forall k: int {:trigger Look(k)} :: Look(k) ==> |b.image| > SIZEOF_CODE && Deref(b)
  }

  lemma Unfolded(b: Block)
    requires Formed(b)
    ensures WellFormed(b) && (Shares(b) <==> Deref(b))
  {
    assert Look(0);
  }

  lemma SharesIs(b: Block)
    requires Formed(b)
    ensures |b.image| > SIZEOF_CODE && (Shares(b) <==> Deref(b))
  {
    Unfolded(b);
  }

  lemma FormedCopy(b: Block, c: Block)
    requires Formed(b) && c.image == b.image
    ensures Formed(c) && (Shares(c) <==> Shares(b))
  {
    Unfolded(b);
  }

  ghost predicate Owns(b: Block, t: Address) { Shares(b) && b.tables == t }

  ghost function Owners(codes: map<Address, Block>, t: Address): set<Address> {
    set a | a in codes && Owns(codes[a], t)
  }

  lemma OwnersAdd(codes: map<Address, Block>, n: Address, b: Block, t: Address)
    requires n !in codes
    ensures Owners(codes[n := b], t) == Owners(codes, t) + (if Owns(b, t) then {n} else {})
    ensures |Owners(codes[n := b], t)| == |Owners(codes, t)| + if Owns(b, t) then 1 else 0
  {
    var o := Owners(codes[n := b], t);
    assert forall a :: a in o <==> a in Owners(codes, t) || (a == n && Owns(b, t));
    assert o == Owners(codes, t) + (if Owns(b, t) then {n} else {});
  }

  lemma OwnersRemove(codes: map<Address, Block>, n: Address, t: Address)
    requires n in codes
    ensures Owners(codes - {n}, t) == Owners(codes, t) - {n}
    ensures |Owners(codes - {n}, t)| == |Owners(codes, t)| - if Owns(codes[n], t) then 1 else 0
  {
    var o := Owners(codes - {n}, t);
    assert forall a :: a in o <==> a in Owners(codes, t) && a != n;
    assert o == Owners(codes, t) - {n};
  }

  /** The count of every set of tables is the number of live patterns that own it. */
  ghost predicate Counted(codes: map<Address, Block>, tables: map<Address, Tables>) {
    forall t {:trigger tables[t]} {:trigger t in tables} :: t in tables ==> tables[t].refCount == |Owners(codes, t)| > 0
  }

  /** Live patterns refer to tables that are there. */
  ghost predicate Linked(codes: map<Address, Block>, tables: map<Address, Tables>, fixed: map<Address, seq<int>>) {
    forall a {:trigger codes[a]} {:trigger a in codes} :: a in codes ==>
      && Formed(codes[a])
      && if Shares(codes[a]) then codes[a].tables in tables else codes[a].tables in fixed
  }

  /** The addresses that are in use, or have been released, have been given out. */
  ghost predicate GivenOut(codes: map<Address, Block>, tables: map<Address, Tables>, fixed: map<Address, seq<int>>,
                           next: Address, released: set<Address>) {
    && 0 <= next && (forall a :: a in codes ==> 0 <= a < next)
    && (forall a :: a in tables ==> 0 <= a < next && |tables[a].bytes| == TABLES_LENGTH)
    && (forall a :: a in fixed ==> 0 <= a < next && |fixed[a]| == TABLES_LENGTH && a !in tables)
    && (forall t :: t in released ==> 0 <= t < next && t !in tables && t !in fixed)
  }

  ghost predicate Sound(codes: map<Address, Block>, tables: map<Address, Tables>, fixed: map<Address, seq<int>>,
                        next: Address, released: set<Address>) {
    GivenOut(codes, tables, fixed, next, released) && Linked(codes, tables, fixed) && Counted(codes, tables)
  }

  lemma TablesThere(codes: map<Address, Block>, tables: map<Address, Tables>, fixed: map<Address, seq<int>>,
                    next: Address, released: set<Address>, a: Address)
    requires Kept(codes, tables, fixed, next, released) && a in codes
    ensures Formed(codes[a]) && |codes[a].image| > SIZEOF_CODE
    ensures var t := codes[a].tables;
            if Deref(codes[a]) then t in tables && |tables[t].bytes| == TABLES_LENGTH
            else t in fixed && t !in tables && |fixed[t]| == TABLES_LENGTH
  {
    assert Look(0);
    Unfolded(codes[a]);
  }

  /** Sound, folded. */
  ghost predicate Kept(codes: map<Address, Block>, tables: map<Address, Tables>, fixed: map<Address, seq<int>>,
                       next: Address, released: set<Address>) {
    forall k: int {:trigger Look(k)} :: Look(k) ==> Sound(codes, tables, fixed, next, released)
  }

  /** The bytes of the tables at t. */
  function BytesOf(tables: map<Address, Tables>, fixed: map<Address, seq<int>>, t: Address): seq<int> {
    if t in tables then tables[t].bytes else if t in fixed then fixed[t] else []
  }

  /** The tables with one more owner. */
  function Shared(tables: map<Address, Tables>, t: Address): map<Address, Tables>
    requires t in tables
  {
    tables[t := tables[t].(refCount := tables[t].refCount + 1)]
  }

  lemma CopyGiven(codes: map<Address, Block>, tables: map<Address, Tables>, fixed: map<Address, seq<int>>, r: Address,
                  released: set<Address>, b: Block)
    requires GivenOut(codes, tables, fixed, r, released) && (Shares(b) ==> b.tables in tables)
    ensures r !in codes && GivenOut(codes[r := b], if Shares(b) then Shared(tables, b.tables) else tables, fixed, r + 1,
                                    released)
  {
  }

  lemma CopyLinked(codes: map<Address, Block>, tables: map<Address, Tables>, fixed: map<Address, seq<int>>, r: Address,
                   b: Block)
    requires Linked(codes, tables, fixed) && Formed(b) && if Shares(b) then b.tables in tables else b.tables in fixed
    ensures Linked(codes[r := b], if Shares(b) then Shared(tables, b.tables) else tables, fixed)
  {
  }

  lemma CopySound(codes: map<Address, Block>, tables: map<Address, Tables>, fixed: map<Address, seq<int>>, r: Address,
                  released: set<Address>, b: Block)
    requires Kept(codes, tables, fixed, r, released) && Formed(b)
             && if Shares(b) then b.tables in tables else b.tables in fixed
    ensures r !in codes && Kept(codes[r := b], if Shares(b) then Shared(tables, b.tables) else tables, fixed, r + 1,
                                released)
  {
    assert Look(0);
    CopyGiven(codes, tables, fixed, r, released, b);
    CopyLinked(codes, tables, fixed, r, b);
    AddOwner(codes, tables, r, b);
  }

  lemma FreshGiven(codes: map<Address, Block>, tables: map<Address, Tables>, fixed: map<Address, seq<int>>, r: Address,
                   released: set<Address>, b: Block, u: Tables)
    requires GivenOut(codes, tables, fixed, r, released) && |u.bytes| == TABLES_LENGTH
    ensures r !in codes && r + 1 !in tables && GivenOut(codes[r := b], tables[r + 1 := u], fixed, r + 2, released)
  {
  }

  lemma FreshLinked(codes: map<Address, Block>, tables: map<Address, Tables>, fixed: map<Address, seq<int>>, r: Address,
                    b: Block, u: Tables)
    requires Linked(codes, tables, fixed) && Formed(b) && Shares(b)
    ensures Linked(codes[r := b], tables[b.tables := u], fixed)
  {
  }

  lemma FreshSound(codes: map<Address, Block>, tables: map<Address, Tables>, fixed: map<Address, seq<int>>, r: Address,
                   released: set<Address>, b: Block, u: Tables)
    requires Kept(codes, tables, fixed, r, released) && Formed(b) && Shares(b) && b.tables == r + 1
             && |u.bytes| == TABLES_LENGTH && u.refCount == 1
    ensures r !in codes && r + 1 !in tables && Kept(codes[r := b], tables[r + 1 := u], fixed, r + 2, released)
  {
    assert Look(0);
    FreshGiven(codes, tables, fixed, r, released, b, u);
    FreshLinked(codes, tables, fixed, r, b, u);
    AddFresh(codes, tables, fixed, r, b, u);
  }

  lemma AddOwner(codes: map<Address, Block>, tables: map<Address, Tables>, r: Address, b: Block)
    requires Counted(codes, tables) && r !in codes && (Shares(b) ==> b.tables in tables)
    ensures Counted(codes[r := b], if Shares(b) then Shared(tables, b.tables) else tables)
  {
    forall t | t in tables ensures |Owners(codes[r := b], t)| == |Owners(codes, t)| + if Owns(b, t) then 1 else 0 {
      OwnersAdd(codes, r, b, t);
    }
  }

  lemma AddFresh(codes: map<Address, Block>, tables: map<Address, Tables>, fixed: map<Address, seq<int>>, r: Address,
                 b: Block, u: Tables)
    requires Counted(codes, tables) && Linked(codes, tables, fixed) && r !in codes && Owns(b, b.tables)
             && b.tables !in tables && u.refCount == 1
    ensures Counted(codes[r := b], tables[b.tables := u])
  {
    forall a | a in codes ensures !Owns(codes[a], b.tables) { assert a in codes; }
    assert Owners(codes, b.tables) == {};
    forall t ensures |Owners(codes[r := b], t)| == |Owners(codes, t)| + if Owns(b, t) then 1 else 0 {
      OwnersAdd(codes, r, b, t);
    }
  }

  /** The tables after one of their owners has gone. */
  function Dropped(tables: map<Address, Tables>, t: Address): map<Address, Tables>
    requires t in tables && tables[t].refCount > 0
  {
    if tables[t].refCount == 1 then tables - {t} else tables[t := tables[t].(refCount := tables[t].refCount - 1)]
  }

  lemma DropCounted(codes: map<Address, Block>, tables: map<Address, Tables>, r: Address, u: Address)
    requires Counted(codes, tables) && r in codes && Owns(codes[r], u) && u in tables
    ensures tables[u].refCount > 0 && Counted(codes - {r}, Dropped(tables, u))
  {
    var left := Dropped(tables, u);
    forall t | t in left ensures left[t].refCount == |Owners(codes - {r}, t)| > 0 {
      OwnersRemove(codes, r, t);
    }
  }

  lemma DropLinked(codes: map<Address, Block>, tables: map<Address, Tables>, fixed: map<Address, seq<int>>, r: Address,
                   u: Address)
    requires Counted(codes, tables) && Linked(codes, tables, fixed) && r in codes && Owns(codes[r], u) && u in tables
             && tables[u].refCount > 0
    ensures Linked(codes - {r}, Dropped(tables, u), fixed)
    ensures u !in Dropped(tables, u) ==> Owners(codes - {r}, u) == {}
  {
    var left := Dropped(tables, u);
    OwnersRemove(codes, r, u);
    if u !in left {
      forall a | a in codes && a != r ensures !Owns(codes[a], u) {
        assert a in Owners(codes - {r}, u) <==> Owns(codes[a], u);
      }
    }
  }

  lemma DropOwner(codes: map<Address, Block>, tables: map<Address, Tables>, fixed: map<Address, seq<int>>, r: Address)
    requires Counted(codes, tables) && Linked(codes, tables, fixed) && r in codes && Shares(codes[r])
    ensures var u := codes[r].tables;
            && u in tables && tables[u].refCount > 0
            && var left := Dropped(tables, u);
               && Counted(codes - {r}, left) && Linked(codes - {r}, left, fixed)
               && forall t :: t in left <==> t in tables && Owners(codes - {r}, t) != {}
  {
    var u := codes[r].tables;
    DropCounted(codes, tables, r, u);
    DropLinked(codes, tables, fixed, r, u);
    var left := Dropped(tables, u);
    forall t | t in left ensures Owners(codes - {r}, t) != {} { }
  }

  lemma DropSound(codes: map<Address, Block>, tables: map<Address, Tables>, fixed: map<Address, seq<int>>,
                  next: Address, released: set<Address>, r: Address)
    requires Kept(codes, tables, fixed, next, released) && r in codes && Shares(codes[r])
    ensures var t := codes[r].tables;
            && t in tables && tables[t].refCount > 0 && t !in released
            && var left := Dropped(tables, t);
               && Kept(codes - {r}, left, fixed, next, released + (tables.Keys - left.Keys))
               && forall t :: t in left <==> t in tables && Owners(codes - {r}, t) != {}
  {
    assert Look(0);
    DropOwner(codes, tables, fixed, r);
    DropGiven(codes, tables, fixed, next, released, r, codes[r].tables);
  }

  lemma PlainSound(codes: map<Address, Block>, tables: map<Address, Tables>, fixed: map<Address, seq<int>>,
                   next: Address, released: set<Address>, r: Address)
    requires Kept(codes, tables, fixed, next, released) && r in codes && !Shares(codes[r])
    ensures Kept(codes - {r}, tables, fixed, next, released)
    ensures forall t :: t in tables ==> Owners(codes - {r}, t) != {}
  {
    assert Look(0);
    DropPlain(codes, tables, fixed, r);
    assert GivenOut(codes - {r}, tables, fixed, next, released);
  }

  lemma DropGiven(codes: map<Address, Block>, tables: map<Address, Tables>, fixed: map<Address, seq<int>>,
                  next: Address, released: set<Address>, r: Address, t: Address)
    requires GivenOut(codes, tables, fixed, next, released) && t in tables && tables[t].refCount > 0
    ensures t !in released
    ensures GivenOut(codes - {r}, Dropped(tables, t), fixed, next, released + (tables.Keys - Dropped(tables, t).Keys))
  {
  }

  lemma DropPlain(codes: map<Address, Block>, tables: map<Address, Tables>, fixed: map<Address, seq<int>>, r: Address)
    requires Counted(codes, tables) && Linked(codes, tables, fixed) && r in codes && !Shares(codes[r])
    ensures Counted(codes - {r}, tables) && Linked(codes - {r}, tables, fixed)
    ensures forall t :: t in tables ==> Owners(codes - {r}, t) != {}
  {
    forall t | t in tables ensures |Owners(codes - {r}, t)| == |Owners(codes, t)| > 0 { OwnersRemove(codes, r, t); }
  }

  lemma BitTwo(x: int)
    ensures BitOf(SetBit2(x), 2)
  {
    var q := x / 4;
    if !BitOf(x, 2) {
      assert q % 2 == 0;
      assert (x + 4) / 4 == q + 1;
    }
  }

  lemma DerefNumber(image: seq<int>, off: nat, n: nat)
    requires off + n <= |image| && off + n <= DEREF_BYTE
    ensures Number(WithDeref(image), off, n) == Number(image, off, n)
  {
    assert image[off..off + n] == WithDeref(image)[off..off + n];
    SameNumber(image, WithDeref(image), off, off, n);
  }

  /** A block whose flags say that it owns its tables. */
  lemma ImageFormed(source: seq<int>, b: Block)
    requires |source| > SIZEOF_CODE && b.image == WithDeref(source)
    requires Number(source, OFF_BLOCKSIZE, 8) == |source| && Number(source, OFF_MAGIC, 4) == MAGIC_NUMBER
    ensures Formed(b) && Shares(b)
  {
    DerefNumber(source, OFF_BLOCKSIZE, 8);
    DerefNumber(source, OFF_MAGIC, 4);
    BitTwo(source[DEREF_BYTE]);
  }

  lemma DerefFormed(b: Block, c: Block)
    requires Formed(b) && |b.image| > SIZEOF_CODE && c.image == WithDeref(b.image)
    ensures Formed(c) && Shares(c)
  {
    Unfolded(b);
    ImageFormed(b.image, c);
  }

  class Memory {
    var codes: map<Address, Block>
    var tables: map<Address, Tables>
    const fixed: map<Address, seq<int>>
    var next: Address
    ghost var released: set<Address>

    /** Live patterns refer to live tables, and the count of shared tables is the number of live patterns that own
        them. */
    ghost predicate Valid()
      reads this
    {
      Kept(codes, tables, fixed, next, released)
    }

    /** The library starts with the tables that it does not own. */
    constructor (fixed: map<Address, seq<int>>, next: Address)
      requires 0 <= next && forall a :: a in fixed ==> 0 <= a < next && |fixed[a]| == TABLES_LENGTH
      ensures Valid() && codes == map[] && tables == map[] && released == {} && this.fixed == fixed
    {
      codes, tables, this.fixed, this.next, released := map[], map[], fixed, next, {};
    }

    /** pcre2_code_copy: a copy that shares the tables. */
    method Copy(code: Address) returns (r: Address)
      requires Valid() && code in codes
      modifies this
      ensures Valid() && r !in old(codes)
      ensures codes == old(codes)[r := old(codes[code]).(jit := 0)]
      ensures tables.Keys == old(tables).Keys && released == old(released)
      ensures forall t :: t in tables ==> tables[t].bytes == old(tables)[t].bytes
    {
      var b := codes[code].(jit := 0);
      TablesThere(codes, tables, fixed, next, released, code);
      SharesIs(codes[code]);
      FormedCopy(codes[code], b);
      r := next;
      CopySound(codes, tables, fixed, r, released, b);
      next := next + 1;
      codes := codes[r := b];
      if Deref(b) { tables := Shared(tables, b.tables); }
    }

    /** pcre2_code_copy_with_tables: a copy that has tables of its own. */
    method CopyWithTables(code: Address) returns (r: Address, t: Address)
      requires Valid() && code in codes
      modifies this
      ensures Valid() && r !in old(codes) && t !in old(tables) && released == old(released)
      ensures codes == old(codes)[r := Block(WithDeref(old(codes)[code].image), old(codes)[code].memctl, t, 0)]
      ensures tables == old(tables)[t := Tables(BytesOf(old(tables), fixed, old(codes)[code].tables), 1)]
    {
      TablesThere(codes, tables, fixed, next, released, code);
      r, t := next, next + 1;
      var b := codes[code];
      var c := Block(WithDeref(b.image), b.memctl, t, 0);
      var u := Tables(BytesOf(tables, fixed, b.tables), 1);
      DerefFormed(b, c);
      FreshSound(codes, tables, fixed, r, released, c, u);
      next := next + 2;
      tables := tables[t := u];
      codes := codes[r := c];
    }

    /** Memory is given back once only. */
    method FreeTables(t: Address)
      requires t in tables && t !in released
      modifies this`tables, this`released
      ensures tables == old(tables) - {t} && released == old(released) + {t}
    {
      tables := tables - {t};
      released := released + {t};
    }

    /** pcre2_code_free: tables go with their last owner. */
    method Free(code: Address)
      requires Valid() && code in codes
      modifies this
      ensures Valid() && codes == old(codes) - {code}
      ensures forall t :: t in tables <==> t in old(tables) && Owners(codes, t) != {}
      ensures forall t :: t in tables ==> tables[t].bytes == old(tables)[t].bytes
      ensures released == old(released) + (old(tables).Keys - tables.Keys)
    {
      TablesThere(codes, tables, fixed, next, released, code);
      SharesIs(codes[code]);
      if Deref(codes[code]) {
        DropSound(codes, tables, fixed, next, released, code);
        DropTables(codes[code].tables);
      } else {
        PlainSound(codes, tables, fixed, next, released, code);
      }
      codes := codes - {code};
    }

    /** One owner less. */
    method DropTables(t: Address)
      requires t in tables && tables[t].refCount > 0 && t !in released
      modifies this`tables, this`released
      ensures tables == Dropped(old(tables), t) && released == old(released) + (old(tables).Keys - tables.Keys)
    {
      if tables[t].refCount > 0 {
        ghost var left := Dropped(tables, t);
        tables := tables[t := tables[t].(refCount := tables[t].refCount - 1)];
        if tables[t].refCount == 0 { FreeTables(t); }
        assert tables == left;
      }
    }
  }
}
