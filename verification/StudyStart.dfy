/** The set of code units that a match can start with, found by scanning the code of each group. */
module StudyStart {
  import opened Folding
  import opened Opcodes
  import opened Bits
  import opened Regex
  import opened Language
  import opened Layout
  import opened BracketCount

  /** What a scan has found: nothing usable, units that every match starts with, or units that a match starts with
      unless it goes on to what follows; or there were too many groups. */
  datatype Found = Fail | Done | Continue | TooDeep

  // --- what the bits say ----------------------------------------------------------------

  /** The code unit at offset i is in the map. */
  predicate Hit(m: Bitmap, e: Env, i: nat) { i < |e.s| && Bit(m, e.s[i]) }

  ghost predicate Within(m: Bitmap, m': Bitmap) { forall c: Unit :: Bit(m, c) ==> Bit(m', c) }

  /** Every slice of the node starts with a unit of the map, or is empty where that is allowed. */
  ghost predicate NodeStarts(m: Bitmap, n: Node, empty: bool) {
    forall e: Env, i: nat, j: nat {:trigger InNode(n, e, i, j)} ::
      i <= |e.s| && InNode(n, e, i, j) ==> (i < j && Hit(m, e, i)) || (empty && i == j)
  }

  ghost predicate AltsStarts(m: Bitmap, a: Alts, empty: bool) {
    forall e: Env, i: nat, j: nat {:trigger InAlts(a, e, i, j)} ::
      i <= |e.s| && InAlts(a, e, i, j) ==> (i < j && Hit(m, e, i)) || (empty && i == j)
  }

  ghost predicate BranchStarts(m: Bitmap, b: Branch, empty: bool) {
    forall e: Env, i: nat, j: nat {:trigger InBranch(b, e, i, j)} ::
      i <= |e.s| && InBranch(b, e, i, j) ==> (i < j && Hit(m, e, i)) || (empty && i == j)
  }

  /** A slice of branch b starts with a unit of the map, or is one of what is left of it. */
  ghost predicate Passed(m: Bitmap, b: Branch, q: Branch) {
    forall e: Env, i: nat, j: nat {:trigger InBranch(b, e, i, j)} ::
      i <= |e.s| && InBranch(b, e, i, j) ==> (i < j && Hit(m, e, i)) || InBranch(q, e, i, j)
  }

  /** And the same for some alternatives of which `cur` are left. */
  ghost predicate Covered(m: Bitmap, a: Alts, cur: Alts, empty: bool) {
    forall e: Env, i: nat, j: nat {:trigger InAlts(a, e, i, j)} ::
      i <= |e.s| && InAlts(a, e, i, j) ==> (i < j && Hit(m, e, i)) || (empty && i == j) || InAlts(cur, e, i, j)
  }

  lemma Kept(m: Bitmap, m': Bitmap, e: Env, i: nat)
    requires Within(m, m') && Hit(m, e, i)
    ensures Hit(m', e, i)
  {
  }

  lemma FirstRound(n: Node, e: Env, i: nat, j: nat) returns (x: nat)
    requires n.Group? && InNode(n, e, i, j) && !InAlts(n.alts, e, i, j)
    ensures i < x <= |e.s| && InAlts(n.alts, e, i, x) && InNode(n, e, x, j)
  {
    x :| i < x <= |e.s| && InAlts(n.alts, e, i, x) && InNode(n, e, x, j);
  }

  lemma PassItem(m: Bitmap, m': Bitmap, b: Branch, q: Branch, empty: bool)
    requires q.Cons? && Passed(m, b, q) && Within(m, m') && NodeStarts(m', q.head, empty)
    ensures if empty then Passed(m', b, q.tail) else BranchStarts(m', b, false)
  {
    forall e: Env, i: nat, j: nat | i <= |e.s| && InBranch(b, e, i, j)
      ensures (i < j && Hit(m', e, i)) || (empty && InBranch(q.tail, e, i, j))
    {
      if i < j && Hit(m, e, i) {
        Kept(m, m', e, i);
      } else {
        var x := HeadSlice(q, e, i, j);
        BranchSpan(q.tail, e, x, j);
      }
    }
  }

  lemma GroupStarts(m: Bitmap, n: Node, empty: bool)
    requires n.Group? && AltsStarts(m, n.alts, empty)
    ensures NodeStarts(m, n, empty)
  {
    forall e: Env, i: nat, j: nat | i <= |e.s| && InNode(n, e, i, j)
      ensures (i < j && Hit(m, e, i)) || (empty && i == j) {
      if !InAlts(n.alts, e, i, j) {
        var x := FirstRound(n, e, i, j);
        NodeSpan(n, e, x, j);
      }
    }
  }

  lemma OptionalStarts(m: Bitmap, n: Node, empty: bool)
    requires n.Optional? && (n.op == OP_SKIPZERO || NodeStarts(m, n.group, empty))
    ensures NodeStarts(m, n, true)
  {
  }

  /** One branch has been scanned. */
  lemma CoverBranch(m: Bitmap, m': Bitmap, a: Alts, cur: Alts, empty: bool, empty': bool)
    requires Covered(m, a, cur, empty) && Within(m, m') && BranchStarts(m', cur.branch, empty') && (empty ==> empty')
    ensures if cur.Or? then Covered(m', a, cur.more, empty') else AltsStarts(m', a, empty')
  {
    forall e: Env, i: nat, j: nat | i <= |e.s| && InAlts(a, e, i, j)
      ensures (i < j && Hit(m', e, i)) || (empty' && i == j) || (cur.Or? && InAlts(cur.more, e, i, j))
    {
      if i < j && Hit(m, e, i) { Kept(m, m', e, i); }
      assert (i < j && Hit(m', e, i)) || (empty' && i == j) || InAlts(cur, e, i, j);
      if InAlts(cur, e, i, j) && InBranch(cur.branch, e, i, j) { }
    }
  }

  // --- what the scan finds, by structure ----------------------------------------------------

  function ItemStart(it: Item, empty: bool): Found {
    if (it.Lit? && it.op != OP_CHAR && it.op != OP_CHARI) || (it.Type? && it.op >= OP_ANY) then Fail
    else if empty then Continue
    else Done
  }

  /** Whether the first units of a node can be seen, and whether what follows it matters as well. */
  function StartOf(n: Node): (v: Found)
    ensures !v.TooDeep?
  {
    match n
    case Single(it) => ItemStart(it, false)
    case Repeat(it, r) => ItemStart(it, Lo(r) == 0)
    case Assert(op) => if op == OP_CIRC || op == OP_WORD_BOUNDARY || op == OP_NOT_WORD_BOUNDARY then Continue else Fail
    case Optional(op, g) => if op == OP_SKIPZERO || !StartOf(g).Fail? then Continue else Fail
    case Group(_, _, alts, _) => StartOfAlts(alts)
  }

  function StartOfBranch(b: Branch): (v: Found)
    ensures !v.TooDeep?
  {
    if b.Nil? then Continue else if StartOf(b.head).Continue? then StartOfBranch(b.tail) else StartOf(b.head)
  }

  function Both(v: Found, w: Found): Found {
    if v.Fail? || w.Fail? then Fail else if v.Continue? || w.Continue? then Continue else Done
  }

  function StartOfAlts(a: Alts): (v: Found)
    ensures !v.TooDeep?
  {
    if a.Last? then StartOfBranch(a.branch) else Both(StartOfBranch(a.branch), StartOfAlts(a.more))
  }

  /** d is one of these units. */
  predicate Starts(n: Node, d: Unit) {
    match n
    case Single(it) => Matches(it, 0, d)
    case Repeat(it, _) => Matches(it, 0, d)
    case Assert(_) => false
    case Optional(op, g) => op != OP_SKIPZERO && Starts(g, d)
    case Group(_, _, alts, _) => StartsAlts(alts, d)
  }

  predicate StartsBranch(b: Branch, d: Unit) {
    b.Cons? && (Starts(b.head, d) || (StartOf(b.head).Continue? && StartsBranch(b.tail, d)))
  }

  predicate StartsAlts(a: Alts, d: Unit) { StartsBranch(a.branch, d) || (a.Or? && StartsAlts(a.more, d)) }

  /** The map has got just the units of the node. */
  ghost predicate Adds(m0: Bitmap, m: Bitmap, n: Node) { forall d: Unit :: Bit(m, d) <==> Bit(m0, d) || Starts(n, d) }

  ghost predicate AddsBranch(m0: Bitmap, m: Bitmap, b: Branch) {
    forall d: Unit :: Bit(m, d) <==> Bit(m0, d) || StartsBranch(b, d)
  }

  ghost predicate AddsAlts(m0: Bitmap, m: Bitmap, a: Alts) {
    forall d: Unit :: Bit(m, d) <==> Bit(m0, d) || StartsAlts(a, d)
  }

  /** Of branch b, q is left to be scanned. */
  ghost predicate LeftBranch(m0: Bitmap, m: Bitmap, b: Branch, q: Branch) {
    && StartOfBranch(q) == StartOfBranch(b)
    && forall d: Unit {:trigger Bit(m, d)} :: Bit(m, d) || StartsBranch(q, d) <==> Bit(m0, d) || StartsBranch(b, d)
  }

  lemma LeftItem(m0: Bitmap, m: Bitmap, m': Bitmap, b: Branch, q: Branch)
    requires q.Cons? && LeftBranch(m0, m, b, q) && (StartOf(q.head).Fail? || Adds(m, m', q.head))
    ensures StartOf(q.head).Continue? ==> LeftBranch(m0, m', b, q.tail)
    ensures !StartOf(q.head).Continue? ==> StartOfBranch(b) == StartOf(q.head)
    ensures StartOf(q.head).Done? ==> AddsBranch(m0, m', b)
  {
    if !StartOf(q.head).Fail? {
      forall d: Unit
        ensures Bit(m', d) || (StartOf(q.head).Continue? && StartsBranch(q.tail, d)) <==>
                  Bit(m0, d) || StartsBranch(b, d)
      {
        assert Bit(m, d) || StartsBranch(q, d) <==> Bit(m0, d) || StartsBranch(b, d);
      }
    }
  }

  /** Of the alternatives a, those from `cur` on are left. */
  ghost predicate LeftAlts(m0: Bitmap, m: Bitmap, a: Alts, cur: Alts, v: Found) {
    forall k: int {:trigger Look(k)} :: Look(k) ==>
      && Both(v, StartOfAlts(cur)) == StartOfAlts(a)
      && forall d: Unit {:trigger Bit(m, d)} :: Bit(m, d) || StartsAlts(cur, d) <==> Bit(m0, d) || StartsAlts(a, d)
  }

  lemma LeftAll(m: Bitmap, a: Alts)
    ensures LeftAlts(m, m, a, a, Done)
  {
  }

  lemma LeftOne(m0: Bitmap, m: Bitmap, m': Bitmap, a: Alts, cur: Alts, v: Found, w: Found)
    requires LeftAlts(m0, m, a, cur, v) && (v.Done? || v.Continue?) && w == StartOfBranch(cur.branch)
    requires w.Fail? || AddsBranch(m, m', cur.branch)
    ensures w.Fail? ==> StartOfAlts(a).Fail?
    ensures !w.Fail? && cur.Or? ==> LeftAlts(m0, m', a, cur.more, Both(v, w))
    ensures !w.Fail? && cur.Last? ==> AddsAlts(m0, m', a) && StartOfAlts(a) == Both(v, w)
  {
    assert Look(0);
    if !w.Fail? {
      forall d: Unit
        ensures Bit(m', d) || (cur.Or? && StartsAlts(cur.more, d)) <==> Bit(m0, d) || StartsAlts(a, d)
      {
        assert Bit(m, d) || StartsAlts(cur, d) <==> Bit(m0, d) || StartsAlts(a, d);
      }
    }
  }

  // --- setting bits ---------------------------------------------------------------------

  predicate IsMap(bits: array<Unit>) { bits.Length == CLASS_SIZE }

  function MapIn(bits: array<Unit>): Bitmap
    requires IsMap(bits)
    reads bits
  {
    bits[..]
  }

  /** Puts one character into the map. */
  method SetBit(bits: array<Unit>, c: Unit)
    requires IsMap(bits)
    modifies bits
    ensures forall d: Unit :: Bit(MapIn(bits), d) == (Bit(old(MapIn(bits)), d) || d == c)
  {
    ghost var was := bits[c / 8];
    bits[c / 8] := Ior(bits[c / 8], OfBits(k => k == c % 8));
    forall d: Unit ensures Bit(MapIn(bits), d) == (Bit(old(MapIn(bits)), d) || d == c) {
      if d / 8 == c / 8 {
        BitOfByte(k => k == c % 8, d % 8);
        IorBit(was, OfBits(k => k == c % 8), d % 8);
      }
    }
  }

  /** A literal, perhaps in either case. */
  method SetTableBit(bits: array<Unit>, c: Unit, caseless: bool)
    requires IsMap(bits)
    modifies bits
    ensures forall d: Unit :: Bit(MapIn(bits), d) == (Bit(old(MapIn(bits)), d) || d == c || (caseless && d == Flip(c)))
  {
    SetBit(bits, c);
    if caseless { SetBit(bits, Flip(c)); }
  }

  /** Every byte is combined with the byte of a table, or with its complement. */
  method SetMapBits(bits: array<Unit>, table: Bitmap, invert: bool)
    requires IsMap(bits)
    modifies bits
    ensures forall d: Unit :: Bit(MapIn(bits), d) == (Bit(old(MapIn(bits)), d) || Bit(table, d) != invert)
  {
    var c := 0;
    while c < CLASS_SIZE
      invariant 0 <= c <= CLASS_SIZE
      invariant forall d: Unit :: d / 8 < c ==> Bit(MapIn(bits), d) ==
                                                  (Bit(old(MapIn(bits)), d) || Bit(table, d) != invert)
      invariant forall k :: c <= k < CLASS_SIZE ==> bits[k] == old(bits[k])
    {
      ghost var before := MapIn(bits);
      var t := table[c];
      bits[c] := Ior(bits[c], if invert then Not(t) else t);
      forall d: Unit | d / 8 == c ensures Bit(MapIn(bits), d) == (Bit(before, d) || Bit(table, d) != invert) {
        NotBit(t, d % 8);
        IorBit(before[c], if invert then Not(t) else t, d % 8);
      }
      c := c + 1;
    }
  }

  /** set_type_bits and set_nottype_bits. */
  method SetTypeBits(bits: array<Unit>, op: int)
    requires IsMap(bits) && IsType(op) && op != OP_ANY && op != OP_ALLANY
    modifies bits
    ensures forall d: Unit :: Bit(MapIn(bits), d) == (Bit(old(MapIn(bits)), d) || MatchesType(op, 0, d))
  {
    SetMapBits(bits, TypeMap(op), op == OP_NOT_DIGIT || op == OP_NOT_WHITESPACE || op == OP_NOT_WORDCHAR);
    forall d: Unit ensures Bit(TypeMap(op), d) == (if op == OP_DIGIT || op == OP_NOT_DIGIT then IsDigit(d)
      else if op == OP_WHITESPACE || op == OP_NOT_WHITESPACE then IsSpace(d) else IsWord(d)) {
      MapBit(IsDigit, d);
      MapBit(IsSpace, d);
      MapBit(IsWord, d);
    }
  }

  // --- single items ---------------------------------------------------------------------

  /** Everything the item matches is in the map. */
  ghost predicate Accepts(m: Bitmap, it: Item) {
    forall nl: Unit, d: Unit {:trigger Matches(it, nl, d)} :: Matches(it, nl, d) ==> Bit(m, d)
  }

  lemma ItemStarts(m: Bitmap, n: Node, it: Item, empty: bool)
    requires n == Single(it) || (n.Repeat? && n.item == it && (Lo(n.rep) == 0 ==> empty))
    requires Accepts(m, it)
    ensures NodeStarts(m, n, empty)
  {
    forall e: Env, i: nat, j: nat | i <= |e.s| && InNode(n, e, i, j)
      ensures (i < j && Hit(m, e, i)) || (empty && i == j) {
      NodeSpan(n, e, i, j);
      if i != j || Lo(n.rep) > 0 { assert MatchesAt(it, e, i); }
    }
  }

  predicate IsNegated(op: int) { op == OP_NOT || op == OP_NOTI || OP_NOTSTAR <= op < OP_TYPESTAR }

  /** A repeat that can match nothing: *, ? or {0,n}, in any mode. */
  predicate MayBeEmpty(k: int) {
    k != OP_PLUS && k != OP_MINPLUS && k != OP_POSPLUS && k != OP_EXACT
  }

  lemma RepeatLo(it: Item, r: Rep)
    requires OkItem(it) && OkRep(it, r) && !it.Set?
    ensures MayBeEmpty(r.op) <==> Lo(r) == 0
  {
  }

  /** A literal, or a repeat of one. */
  method StartLiteral(u: Cell, bits: array<Unit>, ghost n: Node) returns (rc: Found)
    requires IsMap(bits) && OkNode(n)
    requires n.Single? || n.Repeat?
    requires n.item.Lit? && u == (if n.Single? then ItemCell(n.item) else RepeatCell(n.item, n.rep))
    modifies bits
    ensures Within(old(MapIn(bits)), MapIn(bits))
    ensures rc.Done? ==> NodeStarts(MapIn(bits), n, false)
    ensures rc.Continue? ==> NodeStarts(MapIn(bits), n, true) && n.Repeat?
    ensures rc == StartOf(n) && (!rc.Fail? ==> Adds(old(MapIn(bits)), MapIn(bits), n))
    ensures !rc.TooDeep?
  {
    var op := OpOf(u);
    if n.Repeat? { RepeatOpcode(n.item, n.rep); RepeatLo(n.item, n.rep); }
    if IsNegated(op) { return Fail; }
    SetTableBit(bits, u.arg, op == OP_CHARI || OP_STARI <= op < OP_NOTSTAR);
    rc := if IsRepeat(op) && MayBeEmpty(op - RepeatBase(op) + OP_STAR) then Continue else Done;
    ItemStarts(MapIn(bits), n, n.item, rc.Continue?);
  }

  /** A character type, or a repeat of one: after a repeat that needs at least one, the scan is started again at its
      operand. */
  method StartType(u: Cell, bits: array<Unit>, ghost n: Node) returns (rc: Found)
    requires IsMap(bits) && OkNode(n)
    requires n.Single? || n.Repeat?
    requires n.item.Type? && u == (if n.Single? then ItemCell(n.item) else RepeatCell(n.item, n.rep))
    modifies bits
    ensures Within(old(MapIn(bits)), MapIn(bits))
    ensures rc.Done? ==> NodeStarts(MapIn(bits), n, false)
    ensures rc.Continue? ==> NodeStarts(MapIn(bits), n, true) && n.Repeat?
    ensures rc == StartOf(n) && (!rc.Fail? ==> Adds(old(MapIn(bits)), MapIn(bits), n))
    ensures !rc.TooDeep?
  {
    var op := OpOf(u);
    if n.Repeat? { RepeatOpcode(n.item, n.rep); RepeatLo(n.item, n.rep); }
    var t := if IsRepeat(op) then u.arg else op;
    if t == OP_ANY || t == OP_ALLANY { return Fail; }
    SetTypeBits(bits, t);
    rc := if IsRepeat(op) && MayBeEmpty(op - RepeatBase(op) + OP_STAR) then Continue else Done;
    ItemStarts(MapIn(bits), n, n.item, rc.Continue?);
  }

  /** A class, and the repeat that may follow it. */
  method StartClass(code: seq<Cell>, tcode: nat, bits: array<Unit>, ghost q: Branch, ghost c: Ctx)
      returns (rc: Found, next: nat)
    requires IsMap(bits) && Here(code, tcode, q, c) && q.Cons? && (q.head.Single? || q.head.Repeat?) && q.head.item.Set?
    modifies bits
    ensures Within(old(MapIn(bits)), MapIn(bits))
    ensures rc.Done? ==> NodeStarts(MapIn(bits), q.head, false)
    ensures rc.Continue? ==> NodeStarts(MapIn(bits), q.head, true) && next == tcode + NodeSize(q.head)
    ensures rc.Done? || rc.Continue?
    ensures rc == StartOf(q.head) && Adds(old(MapIn(bits)), MapIn(bits), q.head)
  {
    Unfold(code, tcode, q, c);
    StandingTail(code, tcode, q, c);
    StandingHead(code, tcode + NodeSize(q.head), q.tail, c);
    SetMapBits(bits, code[tcode].bits, false);
    next := tcode + 1 + CLASS_SIZE;
    var r := code[next];
    rc := Done;
    if OpOf(r) == OP_CRSTAR || OpOf(r) == OP_CRMINSTAR || OpOf(r) == OP_CRQUERY || OpOf(r) == OP_CRMINQUERY
       || OpOf(r) == OP_CRPOSSTAR || OpOf(r) == OP_CRPOSQUERY {
      next := next + 1;
      rc := Continue;
    } else if IsRange(OpOf(r)) && r.m == 0 {
      next := next + 1 + 2 * IMM2_SIZE;
      rc := Continue;
    }
    ItemStarts(MapIn(bits), q.head, q.head.item, rc.Continue?);
  }

  /** A zero-width item: some can be ignored. */
  method StartAssert(op: int, bits: array<Unit>, ghost n: Node) returns (rc: Found)
    requires IsMap(bits) && n == Assert(op) && OkNode(n)
    ensures rc.Continue? ==> NodeStarts(MapIn(bits), n, true)
    ensures rc.Continue? || rc.Fail?
    ensures rc == StartOf(n)
  {
    rc := if op == OP_CIRC || op == OP_WORD_BOUNDARY || op == OP_NOT_WORD_BOUNDARY then Continue else Fail;
  }

  /** One item that is not a group. */
  method StartItem(code: seq<Cell>, tcode: nat, bits: array<Unit>, ghost q: Branch, ghost c: Ctx)
      returns (rc: Found, next: nat)
    requires IsMap(bits) && Here(code, tcode, q, c) && q.Cons? && !q.head.Group? && !q.head.Optional?
    modifies bits
    ensures Within(old(MapIn(bits)), MapIn(bits))
    ensures rc.Done? ==> NodeStarts(MapIn(bits), q.head, false)
    ensures rc.Continue? ==> NodeStarts(MapIn(bits), q.head, true) && next == tcode + NodeSize(q.head)
    ensures rc == StartOf(q.head) && (!rc.Fail? ==> Adds(old(MapIn(bits)), MapIn(bits), q.head))
    ensures !rc.TooDeep?
  {
    Unfold(code, tcode, q, c);
    StandingTail(code, tcode, q, c);
    NodeClass(code, tcode, q.head);
    if q.head.Repeat? && !q.head.item.Set? { RepeatOpcode(q.head.item, q.head.rep); }
    var u := code[tcode];
    var op := OpOf(u);
    next := tcode + OpLength(op);
    if IsAssertion(op) {
      rc := StartAssert(op, bits, q.head);
    } else if op == OP_CLASS || op == OP_NCLASS {
      rc, next := StartClass(code, tcode, bits, q, c);
    } else if IsType(op) || op >= OP_TYPESTAR {
      rc := StartType(u, bits, q.head);
    } else {
      rc := StartLiteral(u, bits, q.head);
    }
  }

  // --- groups ---------------------------------------------------------------------------

  /** A branch is being scanned: q is what is left of it, at tcode. */
  ghost predicate InScan(m: Bitmap, code: seq<Cell>, tcode: nat, b: Branch, q: Branch, c: Ctx) {
    Here(code, tcode, q, c) && Passed(m, b, q)
  }

  /** The item at tcode has been scanned. */
  lemma ScanNext(m: Bitmap, m': Bitmap, code: seq<Cell>, tcode: nat, b: Branch, q: Branch, c: Ctx)
    requires q.Cons? && InScan(m, code, tcode, b, q, c) && Within(m, m') && NodeStarts(m', q.head, true)
    ensures InScan(m', code, tcode + NodeSize(q.head), b, q.tail, c)
  {
    PassItem(m, m', b, q, true);
    ItemHere(code, tcode, q, c);
  }

  /** Scans one branch. Fail and TooDeep say that the scan has been given up. */
  method StartBranch(code: seq<Cell>, x: nat, bits: array<Unit>, depth0: nat, ghost b: Branch, ghost c: Ctx)
      returns (rc: Found, depth: nat)
    requires IsMap(bits) && Here(code, x, b, c) && c.In?
    modifies bits
    ensures Within(old(MapIn(bits)), MapIn(bits))
    ensures rc.Done? ==> BranchStarts(MapIn(bits), b, false)
    ensures rc.Continue? ==> BranchStarts(MapIn(bits), b, true)
    ensures depth0 <= depth <= depth0 + BracketsBranch(b) && (rc.TooDeep? ==> depth > 1000)
    ensures rc.TooDeep? || rc == StartOfBranch(b)
    ensures rc.Done? || rc.Continue? ==> AddsBranch(old(MapIn(bits)), MapIn(bits), b)
    decreases b
  {
    var tcode := x;
    depth := depth0;
    ghost var q, m0 := b, MapIn(bits);
    while true
      invariant Within(old(MapIn(bits)), MapIn(bits)) && depth0 <= depth
      invariant depth + BracketsBranch(q) <= depth0 + BracketsBranch(b)
      invariant InScan(MapIn(bits), code, tcode, b, q, c) && LeftBranch(m0, MapIn(bits), b, q)
      invariant q == b || q < b
      decreases q
    {
      ghost var m := MapIn(bits);
      OpcodeAt(code, tcode, q, c);
      var op := OpOf(code[tcode]);
      if op == OP_ALT || IsKet(op) { return Continue, depth; }
      var next: nat;
      if IsBracket(op) {
        rc, depth := SetStartBits(code, tcode, bits, depth, q.head, q.tail, c);
        if rc.TooDeep? { return; }
        LeftItem(m0, m, MapIn(bits), b, q);
        if rc.Done? { PassItem(m, MapIn(bits), b, q, false); }
        if !rc.Continue? { return; }
        next := PastGroup(code, tcode, q.head, q.tail, c);
      } else if IsZero(op) {
        rc, depth, next := StartOptional(code, tcode, bits, depth, q, c);
        if rc.TooDeep? { return; }
        LeftItem(m0, m, MapIn(bits), b, q);
        if rc.Fail? { return; }
      } else {
        rc, next := StartItem(code, tcode, bits, q, c);
        LeftItem(m0, m, MapIn(bits), b, q);
        if rc.Done? { PassItem(m, MapIn(bits), b, q, false); }
        if !rc.Continue? { return; }
      }
      ScanNext(m, MapIn(bits), code, tcode, b, q, c);
      tcode, q := next, q.tail;
    }
  }

  /** An optional group sets its bits, unless it is to be skipped, and the scan goes on after it. */
  method StartOptional(code: seq<Cell>, tcode: nat, bits: array<Unit>, depth0: nat, ghost q: Branch, ghost c: Ctx)
      returns (rc: Found, depth: nat, next: nat)
    requires IsMap(bits) && Here(code, tcode, q, c) && q.Cons? && q.head.Optional? && c.In?
    modifies bits
    ensures Within(old(MapIn(bits)), MapIn(bits))
    ensures rc.Done? || rc.Continue? ==> NodeStarts(MapIn(bits), q.head, true) && next == tcode + NodeSize(q.head)
    ensures depth0 <= depth <= depth0 + Brackets(q.head) && (rc.TooDeep? ==> depth > 1000)
    ensures !rc.TooDeep? ==> (rc.Fail? <==> StartOf(q.head).Fail?)
    ensures rc.Done? || rc.Continue? ==> Adds(old(MapIn(bits)), MapIn(bits), q.head)
    decreases q.head
  {
    rc, depth := Continue, depth0;
    OptionalHere(code, tcode, q, c);
    if OpOf(code[tcode]) != OP_SKIPZERO {
      rc, depth := SetStartBits(code, tcode + 1, bits, depth, q.head.group, q.tail, c);
      if rc.Fail? || rc.TooDeep? { return rc, depth, tcode; }
      OptionalStarts(MapIn(bits), q.head, !rc.Done?);
    }
    next := PastOptional(code, tcode, q, c);
  }

  /** Scans the group at x. When the result is Done, every match of the group starts with one of the bits set; when it
      is Continue, every match that is not empty does. `depth` is the number of groups that have been entered. */
  method SetStartBits(code: seq<Cell>, x: nat, bits: array<Unit>, depth0: nat, ghost n: Node, ghost t: Branch,
                      ghost c: Ctx)
      returns (rc: Found, depth: nat)
    requires IsMap(bits) && n.Group? && Here(code, x, Cons(n, t), c)
    modifies bits
    ensures Within(old(MapIn(bits)), MapIn(bits))
    ensures rc.Done? ==> NodeStarts(MapIn(bits), n, false)
    ensures rc.Continue? ==> NodeStarts(MapIn(bits), n, true)
    ensures depth0 <= depth <= depth0 + Brackets(n) && (rc.TooDeep? ==> depth > 1000)
    ensures rc.TooDeep? || rc == StartOf(n)
    ensures rc.Done? || rc.Continue? ==> Adds(old(MapIn(bits)), MapIn(bits), n)
    decreases n
  {
    depth := depth0 + 1;
    if depth > 1000 { return TooDeep, depth; }
    AltsStart(code, x, n, t, c);
    var result, at: nat, tcode: nat := Done, x, x + 1 + LINK_SIZE;
    if IsCapture(OpOf(code[x])) { tcode := tcode + IMM2_SIZE; }
    ghost var cur, m0 := n.alts, MapIn(bits);
    LeftAll(m0, n.alts);
    while true
      invariant AltsAt(code, at, tcode, cur, n, t, c)
      invariant Covered(MapIn(bits), n.alts, cur, result.Continue?) && (result.Continue? || result.Done?)
      invariant cur == n.alts || cur < n.alts
      invariant Within(old(MapIn(bits)), MapIn(bits)) && depth > depth0
      invariant depth + BracketsAlts(cur) <= depth0 + Brackets(n) && LeftAlts(m0, MapIn(bits), n.alts, cur, result)
      decreases cur
    {
      ghost var m := MapIn(bits);
      AltsBranch(code, at, tcode, cur, n, t, c);
      rc, depth := StartBranch(code, tcode, bits, depth, cur.branch, In(Later(cur), t, n, c));
      if rc.TooDeep? { return; }
      LeftOne(m0, m, MapIn(bits), n.alts, cur, result, rc);
      if rc.Fail? { return; }
      CoverBranch(m, MapIn(bits), n.alts, cur, result.Continue?, result.Continue? || rc.Continue?);
      if rc.Continue? { result := Continue; }
      ghost var end := AltsTurn(code, at, tcode, cur, n, t, c);
      at := at + Link(code[at]);
      if OpOf(code[at]) != OP_ALT { break; }
      tcode := at + 1 + LINK_SIZE;
      cur := cur.more;
    }
    rc := result;
    GroupStarts(MapIn(bits), n, rc.Continue?);
  }
}
