/** How far back a lookbehind starts: the lengths of its branches, which are written into the parsed pattern, with the
    cache of the lengths of groups. */
module Lookbehind {
  import opened Folding
  import opened Regex
  import opened ParsedPattern
  import opened ParsedLength

  const LOOKBEHIND_MAX := 65535
  const INT_MAX := 0x7fff_ffff
  const ERR15 := 115
  const ERR25 := 125
  const ERR35 := 135
  const ERR70 := 170
  const ERR87 := 187
  const ERR90 := 190

  /** A parsed pattern: its units, what they stand for, the number of groups, and whether a number is used twice. */
  datatype Parsed = Parsed(c: Code, g: Groups, count: nat, dup: bool)

  // --- where things are -----------------------------------------------------------------------------

  /** The branch that begins after each unit of a lookbehind. */
  predicate Fits(g: Groups, cell: nat, x: nat, a: PAlts)
    decreases a
  {
    && g.behind(cell) == a.branch
    && (a.POr? ==> Fits(g, x + BranchUnits(a.branch), x + BranchUnits(a.branch) + 1, a.more))
  }

  ghost predicate NumberedUnit(v: Parsed, open: int, x: nat, alts: PAlts) {
    forall k: int {:trigger Peek(k)} :: Peek(k) ==>
      (Meta(open) == META_CAPTURE ==>
         && 0 < Data(open) <= v.count
         && (!v.dup ==> alts == v.g.contents(Data(open)) && x == v.g.at(Data(open))))
  }

  /** Captured groups have numbers up to the count; where no number is used twice, their contents are those of the
      number. */
  ghost predicate NumberedAtom(v: Parsed, p: nat, a: PAtom)
    decreases a
  {
    match a
    case Simple(_) => true
    case Bracket(kind, open, head, alts) =>
      var x := p + head;
      && NumberedAlts(v, x, alts)
      && NumberedUnit(v, open, x, alts)
      && (kind.BehindKind? ==> v.g.looks(p) == alts && Fits(v.g, p, x, alts))
    case Reference(unit, _) =>
      forall k: int {:trigger Peek(k)} :: Peek(k) ==> 0 < Data(unit) <= v.count ==> Data(unit) in v.g.used
  }

  ghost predicate NumberedBranch(v: Parsed, p: nat, b: PBranch)
    decreases b
  {
    b.PCons? ==>
      NumberedAtom(v, p, b.atom) && NumberedBranch(v, p + AtomUnits(b.atom) + QuantUnits(b.quant), b.rest)
  }

  ghost predicate NumberedAlts(v: Parsed, p: nat, a: PAlts)
    decreases a
  {
    NumberedBranch(v, p, a.branch) && (a.POr? ==> NumberedAlts(v, p + BranchUnits(a.branch) + 1, a.more))
  }

  /** No lookbehind has more than one branch. */
  predicate SingleAtom(a: PAtom) {
    a.Bracket? ==> (a.kind.BehindKind? ==> a.alts.PLast?) && SingleAlts(a.alts)
  }

  predicate SingleBranch(b: PBranch) { b.PCons? ==> SingleAtom(b.atom) && SingleBranch(b.rest) }

  predicate SingleAlts(a: PAlts) { SingleBranch(a.branch) && (a.POr? ==> SingleAlts(a.more)) }

  /** The same, folded. */
  ghost predicate CalmAtom(a: PAtom) { forall k: int {:trigger Look(k)} :: Look(k) ==> SingleAtom(a) }

  ghost predicate CalmBranch(b: PBranch) { forall k: int {:trigger Look(k)} :: Look(k) ==> SingleBranch(b) }

  ghost predicate CalmAlts(a: PAlts) { forall k: int {:trigger Look(k)} :: Look(k) ==> SingleAlts(a) }

  /** A bracket has its contents at p. */
  ghost predicate Inside(v: Parsed, p: nat, a: PAlts) {
    forall k: int {:trigger Look(k)} :: Look(k) ==>
      && ProperAlts(a) && NumberedAlts(v, p, a) && AltsAt(v.c, p, a)
      && p + AltsUnits(a) < |v.c| && v.c[p + AltsUnits(a)] == META_KET
  }

  /** What the search finds for the number of a group that is referred to is that group, and no lookbehind in it has
      more than one branch. */
  ghost predicate GroupsFound(v: Parsed) {
    forall n: nat {:trigger v.g.contents(n)} :: n in v.g.used && 0 < n <= v.count ==>
      && Scan(v.c, 0, META_CAPTURE + n) + 1 == v.g.at(n) && Inside(v, v.g.at(n), v.g.contents(n))
      && CalmAlts(v.g.contents(n))
  }

  /** A branch at p, which ends at an ALT or a KET. */
  ghost predicate Ahead(v: Parsed, p: nat, b: PBranch) {
    forall k: int {:trigger Look(k)} :: Look(k) ==>
      && ProperBranch(b) && NumberedBranch(v, p, b) && BranchAt(v.c, p, b)
      && p + BranchUnits(b) < |v.c| && EndsBranch(v.c[p + BranchUnits(b)])
  }

  predicate EndsBranch(u: int) { u >= META_END && (Meta(u) == META_ALT || Meta(u) == META_KET) }

  lemma InsideOpen(v: Parsed, p: nat, a: PAlts)
    requires Inside(v, p, a)
    ensures ProperAlts(a) && NumberedAlts(v, p, a) && AltsAt(v.c, p, a)
    ensures p + AltsUnits(a) < |v.c| && v.c[p + AltsUnits(a)] == META_KET
  {
    assert Look(0);
  }

  lemma AheadFold(v: Parsed, p: nat, q: nat, b: PBranch)
    requires ProperBranch(b) && NumberedBranch(v, p, b) && BranchAt(v.c, p, b)
    requires q == p + BranchUnits(b) && q < |v.c| && EndsBranch(v.c[q])
    ensures Ahead(v, p, b)
  {
  }

  lemma InsideFold(v: Parsed, p: nat, q: nat, a: PAlts)
    requires ProperAlts(a) && NumberedAlts(v, p, a) && AltsAt(v.c, p, a)
    requires q == p + AltsUnits(a) && q < |v.c| && v.c[q] == META_KET
    ensures Inside(v, p, a)
  {
  }

  lemma BranchParts(c: Code, p: nat, a: PAlts) returns (q: nat)
    requires AltsAt(c, p, a) && p + AltsUnits(a) < |c| && c[p + AltsUnits(a)] == META_KET
    ensures q == p + BranchUnits(a.branch) && BranchAt(c, p, a.branch) && q < |c| && EndsBranch(c[q])
    ensures a.PLast? ==> q == p + AltsUnits(a) && c[q] == META_KET
    ensures a.POr? ==> c[q] == META_ALT && AltsAt(c, q + 1, a.more) && q + 1 + AltsUnits(a.more) == p + AltsUnits(a)
  {
    q := p + BranchUnits(a.branch);
  }

  lemma InsideBranch(v: Parsed, p: nat, a: PAlts) returns (q: nat)
    requires Inside(v, p, a)
    ensures q == p + BranchUnits(a.branch) && Ahead(v, p, a.branch)
    ensures q < |v.c| && (if a.POr? then v.c[q] == META_ALT else v.c[q] == META_KET && q == p + AltsUnits(a))
  {
    InsideOpen(v, p, a);
    q := BranchParts(v.c, p, a);
    AheadFold(v, p, q, a.branch);
  }

  lemma InsideMore(v: Parsed, p: nat, q: nat, a: PAlts)
    requires Inside(v, p, a) && a.POr? && q == p + BranchUnits(a.branch) + 1
    ensures Inside(v, q, a.more) && q + AltsUnits(a.more) == p + AltsUnits(a)
  {
    InsideOpen(v, p, a);
    var k := BranchParts(v.c, p, a);
    InsideFold(v, q, q + AltsUnits(a.more), a.more);
  }

  lemma InsideEnds(v: Parsed, p: nat, a: PAlts)
    requires Inside(v, p, a)
    ensures Skip(v.c, p, ToKet, 0) == Some(p + AltsUnits(a)) && p + AltsUnits(a) < |v.c|
  {
    InsideOpen(v, p, a);
    SkipsToKet(v.c, p, a);
  }

  lemma InsideBracket(v: Parsed, p: nat, a: PAtom)
    requires a.Bracket? && ProperAtom(a) && NumberedAtom(v, p, a) && AtomAt(v.c, p, a)
    ensures Inside(v, p + a.head, a.alts)
    ensures p + AtomUnits(a) == p + a.head + AltsUnits(a.alts) + 1
  {
  }

  // --- the lengths that are written -------------------------------------------------------------------

  /** The lengths that have been written: the lower halves of the units. */
  type Marks = seq<nat>

  /** n is the length of the branch of a lookbehind that begins after unit q. */
  ghost predicate MarkKnown(g: Groups, q: nat, n: int) { exists d: nat :: BranchLength(g, g.behind(q), d) == Some(n) }

  ghost predicate MarksRight(g: Groups, m: Marks) {
    forall q: nat {:trigger m[q]} :: q < |m| ==> m[q] == 0 || MarkKnown(g, q, m[q])
  }

  /** Only right lengths have been written. */
  ghost predicate Grows(g: Groups, m: Marks, m': Marks) {
    |m| == |m'| && forall q: nat {:trigger m'[q]} :: q < |m| ==> m'[q] == m[q] || MarkKnown(g, q, m'[q])
  }

  /** No ALT from x to y has been written to. */
  predicate Clear(c: Code, m: Marks, x: nat, y: nat) {
    |m| == |c| && forall q: nat {:trigger m[q]} :: x <= q < y && q < |m| && c[q] == META_ALT ==> m[q] == 0
  }

  /** Only ALTs from x to y have been written to. */
  predicate AltFrame(c: Code, m: Marks, m': Marks, x: nat, y: nat) {
    && |m| == |m'| == |c|
    && forall q: nat {:trigger m'[q]} :: q < |m| && c[q] == META_ALT && m'[q] != m[q] ==> x <= q < y
  }

  ghost predicate Moved(v: Parsed, m: Marks, m': Marks, x: nat, y: nat) {
    forall k: int {:trigger Look(k)} :: Look(k) ==> Grows(v.g, m, m') && AltFrame(v.c, m, m', x, y)
  }

  lemma MovedNot(v: Parsed, m: Marks, x: nat, y: nat)
    requires |m| == |v.c|
    ensures Moved(v, m, m, x, y)
  {
  }

  lemma MovedTwice(v: Parsed, m: Marks, m1: Marks, m2: Marks, x: nat, y: nat, x1: nat, y1: nat, x2: nat, y2: nat)
    requires Moved(v, m, m1, x1, y1) && Moved(v, m1, m2, x2, y2)
    requires (x <= x1 && y1 <= y) || y1 <= x1
    requires (x <= x2 && y2 <= y) || y2 <= x2
    ensures Moved(v, m, m2, x, y)
  {
    assert Look(0);
    forall q: nat | q < |m| ensures m2[q] == m[q] || MarkKnown(v.g, q, m2[q]) {
      assert m1[q] == m[q] || MarkKnown(v.g, q, m1[q]);
    }
    forall q: nat | q < |m| && v.c[q] == META_ALT && m2[q] != m[q] ensures x <= q < y {
      if m1[q] != m[q] { assert x1 <= q < y1; }
    }
  }

  /** What has not been reached is still clear. */
  lemma StillClear(v: Parsed, m: Marks, m': Marks, x: nat, y: nat, p: nat, q: nat)
    requires Moved(v, m, m', x, y) && Clear(v.c, m, p, q) && (y <= p || q <= x || y <= x)
    ensures Clear(v.c, m', p, q)
  {
    assert Look(0);
    forall r: nat | p <= r < q && r < |m'| && v.c[r] == META_ALT ensures m'[r] == 0 {
      assert m[r] == 0;
    }
  }

  lemma LessClear(c: Code, m: Marks, x: nat, y: nat, p: nat, q: nat)
    requires Clear(c, m, x, y) && x <= p && q <= y
    ensures Clear(c, m, p, q)
  {
  }

  lemma StillRight(v: Parsed, m: Marks, m': Marks, x: nat, y: nat)
    requires Moved(v, m, m', x, y) && MarksRight(v.g, m)
    ensures MarksRight(v.g, m')
  {
    assert Look(0);
    forall q: nat | q < |m'| ensures m'[q] == 0 || MarkKnown(v.g, q, m'[q]) {
      assert m[q] == 0 || MarkKnown(v.g, q, m[q]);
    }
  }

  // --- all the lengths of a part of the pattern have been written -----------------------------------------

  /** The lengths of the branches of a lookbehind, from the unit `cell` on. */
  ghost predicate CellsMarked(g: Groups, m: Marks, cell: nat, x: nat, a: PAlts)
    decreases a
  {
    && cell < |m| && MarkKnown(g, cell, m[cell])
    && (a.POr? ==> CellsMarked(g, m, x + BranchUnits(a.branch), x + BranchUnits(a.branch) + 1, a.more))
  }

  /** A definition is passed over. */
  ghost predicate AtomMarked(g: Groups, m: Marks, p: nat, a: PAtom)
    decreases a
  {
    a.Bracket? && !a.kind.DefinitionKind? ==>
      var x := p + a.head;
      AltsMarked(g, m, x, a.alts) && (a.kind.BehindKind? ==> CellsMarked(g, m, p, x, a.alts))
  }

  ghost predicate BranchMarked(g: Groups, m: Marks, p: nat, b: PBranch)
    decreases b
  {
    b.PCons? ==> AtomMarked(g, m, p, b.atom) && BranchMarked(g, m, p + AtomUnits(b.atom) + QuantUnits(b.quant), b.rest)
  }

  ghost predicate AltsMarked(g: Groups, m: Marks, p: nat, a: PAlts)
    decreases a
  {
    BranchMarked(g, m, p, a.branch) && (a.POr? ==> AltsMarked(g, m, p + BranchUnits(a.branch) + 1, a.more))
  }

  /** The same, folded. */
  ghost predicate BranchDone(g: Groups, m: Marks, p: nat, b: PBranch) {
    forall k: int {:trigger Look(k)} :: Look(k) ==> BranchMarked(g, m, p, b)
  }

  ghost predicate AltsDone(g: Groups, m: Marks, p: nat, a: PAlts) {
    forall k: int {:trigger Look(k)} :: Look(k) ==> AltsMarked(g, m, p, a)
  }

  lemma {:induction false} CellsKept(g: Groups, m: Marks, m': Marks, cell: nat, x: nat, a: PAlts)
    requires Grows(g, m, m') && CellsMarked(g, m, cell, x, a)
    ensures CellsMarked(g, m', cell, x, a)
    decreases a
  {
    assert m'[cell] == m[cell] || MarkKnown(g, cell, m'[cell]);
    if a.POr? { CellsKept(g, m, m', x + BranchUnits(a.branch), x + BranchUnits(a.branch) + 1, a.more); }
  }

  lemma {:induction false} AtomKept(g: Groups, m: Marks, m': Marks, p: nat, a: PAtom)
    requires Grows(g, m, m') && AtomMarked(g, m, p, a)
    ensures AtomMarked(g, m', p, a)
    decreases a
  {
    if a.Bracket? && !a.kind.DefinitionKind? {
      var x := p + a.head;
      AltsKept(g, m, m', x, a.alts);
      if a.kind.BehindKind? { CellsKept(g, m, m', p, x, a.alts); }
    }
  }

  lemma {:induction false} BranchKept(g: Groups, m: Marks, m': Marks, p: nat, b: PBranch)
    requires Grows(g, m, m') && BranchMarked(g, m, p, b)
    ensures BranchMarked(g, m', p, b)
    decreases b
  {
    if b.PCons? {
      AtomKept(g, m, m', p, b.atom);
      BranchKept(g, m, m', p + AtomUnits(b.atom) + QuantUnits(b.quant), b.rest);
    }
  }

  lemma {:induction false} AltsKept(g: Groups, m: Marks, m': Marks, p: nat, a: PAlts)
    requires Grows(g, m, m') && AltsMarked(g, m, p, a)
    ensures AltsMarked(g, m', p, a)
    decreases a
  {
    BranchKept(g, m, m', p, a.branch);
    if a.POr? { AltsKept(g, m, m', p + BranchUnits(a.branch) + 1, a.more); }
  }

  // --- numbers that are put together bit by bit --------------------------------------------------------

  function BitOr(a: nat, b: nat): nat {
    if a == 0 then b else if b == 0 then a else (if a % 2 == 1 || b % 2 == 1 then 1 else 0) + 2 * BitOr(a / 2, b / 2)
  }

  lemma {:induction false} BitOrSame(a: nat)
    ensures BitOr(a, a) == a
  {
    if a > 0 { BitOrSame(a / 2); }
  }

  lemma MarkOnce(g: Groups, q: nat, a: int, b: int)
    requires MarkKnown(g, q, a) && MarkKnown(g, q, b)
    ensures a == b
  {
    var d: nat :| BranchLength(g, g.behind(q), d) == Some(a);
    var d': nat :| BranchLength(g, g.behind(q), d') == Some(b);
    BranchStable(g, g.behind(q), d, if d < d' then d' else d);
    BranchStable(g, g.behind(q), d', if d < d' then d' else d);
  }

  /** A right length is written over nothing, or over itself. */
  lemma MarkSet(g: Groups, q: nat, old': nat, n: nat)
    requires (old' == 0 || MarkKnown(g, q, old')) && MarkKnown(g, q, n)
    ensures BitOr(old', n) == n
  {
    if old' != 0 {
      MarkOnce(g, q, old', n);
      BitOrSame(n);
    }
  }

  // --- the cache of group lengths -------------------------------------------------------------------

  /** What is known about the length of a group: the three parts of one word. */
  datatype GroupInfo = GroupInfo(isSet: bool, notFixed: bool, length: nat)

  /** The length is that of the group. */
  ghost predicate Known(g: Groups, n: nat, length: int) {
    exists d: nat :: AltsLength(g, g.contents(n), d) == Some(length)
  }

  lemma KnownOnce(g: Groups, n: nat, a: int, b: int)
    requires Known(g, n, a) && Known(g, n, b)
    ensures a == b
  {
    var d: nat :| AltsLength(g, g.contents(n), d) == Some(a);
    var d': nat :| AltsLength(g, g.contents(n), d') == Some(b);
    AltsStable(g, g.contents(n), d, if d < d' then d' else d);
    AltsStable(g, g.contents(n), d', if d < d' then d' else d);
  }

  /** The length in the cache is right, and the lengths in the group have been written. */
  ghost predicate EntryRight(g: Groups, m: Marks, n: nat, u: GroupInfo) {
    if u.isSet then Known(g, n, u.length) && AltsMarked(g, m, g.at(n), g.contents(n)) else u.length == 0
  }

  function WithLength(u: GroupInfo, length: nat): GroupInfo { GroupInfo(true, u.notFixed, BitOr(u.length, length)) }

  lemma EntrySet(g: Groups, m: Marks, n: nat, u: GroupInfo, length: nat)
    requires EntryRight(g, m, n, u) && Known(g, n, length) && AltsMarked(g, m, g.at(n), g.contents(n))
    ensures EntryRight(g, m, n, WithLength(u, length))
  {
    if u.isSet {
      KnownOnce(g, n, u.length, length);
      BitOrSame(length);
    }
  }

  /** The largest of the lengths, or 0. */
  predicate IsLargest(m: Marks, max: nat) {
    (forall q: nat {:trigger m[q]} :: q < |m| ==> m[q] <= max) && (max == 0 || max in m)
  }

  /** A length is written over nothing, or over itself. */
  lemma LargestSet(m: Marks, max: nat, q: nat, n: nat)
    requires IsLargest(m, max) && q < |m| && (m[q] == 0 || m[q] == n)
    ensures IsLargest(m[q := n], if n > max then n else max)
  {
    var m' := m[q := n];
    if n > max {
      assert m'[q] == n;
    } else if max > 0 {
      var r :| 0 <= r < |m| && m[r] == max;
      assert m'[r] == max;
    }
  }

  /** What the scan keeps: lengths written are right and at most the largest, and where no number is used twice the
      cache is right. */
  ghost predicate Keeps(v: Parsed, m: Marks, infos: seq<GroupInfo>, max: nat) {
    && |m| == |v.c| && |infos| == v.count + 1
    && forall k: int {:trigger Look(k)} :: Look(k) ==>
         && MarksRight(v.g, m) && IsLargest(m, max)
         && (!v.dup ==> forall n: nat {:trigger infos[n]} :: 0 < n <= v.count ==> EntryRight(v.g, m, n, infos[n]))
  }

  /** Writing a length. */
  lemma KeepsMark(v: Parsed, m: Marks, infos: seq<GroupInfo>, max: nat, q: nat, n: nat, m': Marks, max': nat)
    requires Keeps(v, m, infos, max) && q < |m| && MarkKnown(v.g, q, n)
    requires m' == m[q := BitOr(m[q], n)] && max' == if n > max then n else max
    ensures m' == m[q := n] && Moved(v, m, m', q, q + 1) && Keeps(v, m', infos, max')
  {
    assert Look(0);
    assert m[q] == 0 || MarkKnown(v.g, q, m[q]);
    MarkSet(v.g, q, m[q], n);
    if m[q] != 0 { MarkOnce(v.g, q, m[q], n); }
    LargestSet(m, max, q, n);
    assert Grows(v.g, m, m');
    StillRight(v, m, m', q, q + 1);
    if !v.dup {
      forall k: nat | 0 < k <= v.count ensures EntryRight(v.g, m', k, infos[k]) {
        assert EntryRight(v.g, m, k, infos[k]);
        if infos[k].isSet { AltsKept(v.g, m, m', v.g.at(k), v.g.contents(k)); }
      }
    }
  }

  /** What is written to a unit that is no ALT. */
  lemma MovedOpener(v: Parsed, m: Marks, m': Marks, q: nat, x: nat, y: nat)
    requires Moved(v, m, m', q, q + 1) && q < |v.c| && v.c[q] != META_ALT
    ensures Moved(v, m, m', x, y)
  {
    assert Look(0);
  }

  lemma KeepsEntry(v: Parsed, m: Marks, infos: seq<GroupInfo>, max: nat, n: nat, length: nat, infos': seq<GroupInfo>)
    requires Keeps(v, m, infos, max) && 0 < n <= v.count && infos' == infos[n := WithLength(infos[n], length)]
    requires !v.dup ==> Known(v.g, n, length) && AltsDone(v.g, m, v.g.at(n), v.g.contents(n))
    ensures Keeps(v, m, infos', max)
  {
    assert Look(0);
    if !v.dup {
      forall k: nat | 0 < k <= v.count ensures EntryRight(v.g, m, k, infos'[k]) {
        assert EntryRight(v.g, m, k, infos[k]);
        if k == n { EntrySet(v.g, m, n, infos[n], length); }
      }
    }
  }

  lemma KeepsFailed(v: Parsed, m: Marks, infos: seq<GroupInfo>, max: nat, n: nat, infos': seq<GroupInfo>)
    requires Keeps(v, m, infos, max) && 0 < n <= v.count && infos' == infos[n := infos[n].(notFixed := true)]
    ensures Keeps(v, m, infos', max)
  {
    assert Look(0);
    if !v.dup {
      forall k: nat | 0 < k <= v.count ensures EntryRight(v.g, m, k, infos'[k]) {
        assert EntryRight(v.g, m, k, infos[k]);
      }
    }
  }

  lemma KnownLength(v: Parsed, m: Marks, infos: seq<GroupInfo>, max: nat, n: nat) returns (d: nat)
    requires Keeps(v, m, infos, max) && !v.dup && 0 < n <= v.count && infos[n].isSet
    ensures forall d': nat :: d' >= d ==> AltsLength(v.g, v.g.contents(n), d') == Some(infos[n].length)
    ensures AltsDone(v.g, m, v.g.at(n), v.g.contents(n))
  {
    assert Look(0);
    assert EntryRight(v.g, m, n, infos[n]);
    d :| AltsLength(v.g, v.g.contents(n), d) == Some(infos[n].length);
    forall d': nat | d' >= d ensures AltsLength(v.g, v.g.contents(n), d') == Some(infos[n].length) {
      AltsStable(v.g, v.g.contents(n), d, d');
    }
  }

  lemma IsKnown(g: Groups, n: nat, length: int, d: nat)
    requires forall d': nat :: d' >= d ==> AltsLength(g, g.contents(n), d') == Some(length)
    ensures Known(g, n, length)
  {
    assert AltsLength(g, g.contents(n), d) == Some(length);
  }

  // --- reading a branch -------------------------------------------------------------------------------

  ghost predicate LongAtom(g: Groups, a: PAtom, d: nat, n: int) {
    forall d': nat :: d' >= d ==> AtomLength(g, a, d') == Some(n)
  }

  /** So much of branch b has been read that `rest` is left, with only the quantifier of its first item when `half`. */
  ghost predicate Reading(g: Groups, b: PBranch, rest: PBranch, half: bool, last: int, length: int, d: nat) {
    && (half ==> rest.PCons? && !rest.quant.NoQuant? && Counts(rest.atom))
    && 0 <= length && 0 <= last && (half ==> last <= length)
    && forall k: int {:trigger Look(k)} :: Look(k) ==>
         && (half ==> LongAtom(g, rest.atom, d, last))
         && forall d': nat :: d' >= d ==>
              BranchLength(g, b, d') == Plus(Some(if half then length - last else length), BranchLength(g, rest, d'))
  }

  /** The quantifier after it counts. */
  predicate Counts(a: PAtom) { !(a.Bracket? && a.kind.AheadKind?) }

  lemma ReadAtom(g: Groups, b: PBranch, rest: PBranch, last: int, length: int, d: nat, n: int, d1: nat)
    requires Reading(g, b, rest, false, last, length, d) && rest.PCons? && LongAtom(g, rest.atom, d1, n) && n >= 0
    requires Counts(rest.atom)
    ensures var d2 := if d < d1 then d1 else d;
            if rest.quant.NoQuant? then Reading(g, b, rest.rest, false, n, length + n, d2)
            else Reading(g, b, rest, true, n, length + n, d2)
  {
    assert Look(0);
    var d2 := if d < d1 then d1 else d;
    if rest.quant.NoQuant? {
      forall d': nat | d' >= d2
        ensures BranchLength(g, b, d') == Plus(Some(length + n), BranchLength(g, rest.rest, d'))
      {
        assert AtomLength(g, rest.atom, d') == Some(n);
      }
    }
  }

  lemma ReadLookahead(g: Groups, b: PBranch, rest: PBranch, last: int, length: int, d: nat)
    requires Reading(g, b, rest, false, last, length, d) && rest.PCons? && !Counts(rest.atom)
    ensures Reading(g, b, rest.rest, false, 0, length, d)
  {
    assert Look(0);
    forall d': nat | d' >= d ensures BranchLength(g, b, d') == Plus(Some(length), BranchLength(g, rest.rest, d')) {
    }
  }

  /** An exact repeat adds the length of the other copies; none at all takes back what has been added. */
  lemma ReadQuant(g: Groups, b: PBranch, rest: PBranch, last: int, length: int, d: nat, more: int, n: nat)
    requires Reading(g, b, rest, true, last, length, d) && rest.quant.Counted? && rest.quant.min == rest.quant.max
    requires rest.quant.max != UNLIMITED && more == (rest.quant.min - 1) * last
    ensures length + more >= 0
    ensures Reading(g, b, rest.rest, false, n, length + more, d)
  {
    assert Look(0);
    var min := rest.quant.min;
    assert min * last == more + last;
    forall d': nat | d' >= d
      ensures BranchLength(g, b, d') == Plus(Some(length + more), BranchLength(g, rest.rest, d'))
    {
      assert AtomLength(g, rest.atom, d') == Some(last);
    }
  }

  lemma ReadAll(g: Groups, b: PBranch, last: int, length: int, d: nat)
    requires Reading(g, b, PNil, false, last, length, d)
    ensures forall d': nat :: d' >= d ==> BranchLength(g, b, d') == Some(length)
  {
    assert Look(0);
  }

  /** Where the reading is: at the next item of `rest`, or at the quantifier of its first item; the branch ends at
      `end`. */
  ghost predicate Place(v: Parsed, p: nat, rest: PBranch, half: bool, end: nat) {
    && p < |v.c|
    && forall k: int {:trigger Look(k)} :: Look(k) ==>
         && end < |v.c| && EndsBranch(v.c[end])
         && if half then
              && rest.PCons? && ProperQuant(rest.quant) && QuantAt(v.c, p, rest.quant)
              && PlaceAt(v, p + QuantUnits(rest.quant), rest.rest, end)
            else PlaceAt(v, p, rest, end)
  }

  ghost predicate PlaceAt(v: Parsed, p: nat, b: PBranch, end: nat) {
    ProperBranch(b) && NumberedBranch(v, p, b) && BranchAt(v.c, p, b) && end == p + BranchUnits(b)
  }

  lemma PlaceStart(v: Parsed, p: nat, b: PBranch)
    requires Ahead(v, p, b)
    ensures Place(v, p, b, false, p + BranchUnits(b))
  {
    assert Look(0);
  }

  /** The first unit of an item. */
  lemma AtomUnit(c: Code, p: nat, a: PAtom)
    requires ProperAtom(a) && AtomAt(c, p, a)
    ensures p < |c| && !EndsBranch(c[p]) && !IsQuantifier(Meta(c[p])) && AtomUnits(a) > 0
    ensures c[p] == match a case Simple(units) => units[0] case Bracket(_, open, _, _) => open case Reference(unit,
                                                                                                              _) => unit
  {
    assert Peek(0);
    if a.Simple? { assert c[p] == c[p..p + |a.units|][0]; }
  }

  lemma PlaceEnd(v: Parsed, p: nat, end: nat)
    requires Place(v, p, PNil, false, end)
    ensures p == end && p < |v.c| && EndsBranch(v.c[p])
  {
    assert Look(0);
  }

  lemma ConsParts(v: Parsed, p: nat, b: PBranch, end: nat)
    requires PlaceAt(v, p, b, end) && b.PCons?
    ensures var q := p + AtomUnits(b.atom); var r := q + QuantUnits(b.quant);
            && AtomAt(v.c, p, b.atom) && ProperAtom(b.atom) && NumberedAtom(v, p, b.atom)
            && QuantAt(v.c, q, b.quant) && ProperQuant(b.quant) && PlaceAt(v, r, b.rest, end)
            && q <= r <= end
  {
  }

  /** An item at p. */
  ghost predicate ItemAt(v: Parsed, p: nat, a: PAtom) {
    forall k: int {:trigger Look(k)} :: Look(k) ==> ProperAtom(a) && NumberedAtom(v, p, a) && AtomAt(v.c, p, a)
  }

  lemma ItemKind(v: Parsed, p: nat, a: PAtom)
    requires ItemAt(v, p, a)
    ensures p < |v.c| && (a.Bracket? <==> IsOpening(v.c[p]))
    ensures a.Bracket? ==> v.c[p] == a.open
    ensures IsLookahead(v.c[p]) <==> !Counts(a)
    ensures a.Reference? <==> Meta(v.c[p]) == META_RECURSE || Meta(v.c[p]) == META_BACKREF
  {
    ItemOpen(v, p, a);
    AtomKind(v.c, p, a);
  }

  lemma ItemOpen(v: Parsed, p: nat, a: PAtom)
    requires ItemAt(v, p, a)
    ensures ProperAtom(a) && NumberedAtom(v, p, a) && AtomAt(v.c, p, a)
  {
    assert Look(0);
  }

  lemma PlaceAtom(v: Parsed, p: nat, rest: PBranch, end: nat)
    requires Place(v, p, rest, false, end) && rest.PCons?
    ensures p < |v.c| && !EndsBranch(v.c[p]) && !IsQuantifier(Meta(v.c[p])) && AtomUnits(rest.atom) > 0
    ensures ItemAt(v, p, rest.atom)
    ensures var q := p + AtomUnits(rest.atom);
            && q <= end < |v.c|
            && (if rest.quant.NoQuant? then Place(v, q, rest.rest, false, end) else Place(v, q, rest, true, end))
  {
    assert Look(0);
    ConsParts(v, p, rest, end);
    AtomUnit(v.c, p, rest.atom);
  }

  lemma PlaceQuant(v: Parsed, p: nat, rest: PBranch, end: nat)
    requires rest.PCons? && !rest.quant.NoQuant? && Place(v, p, rest, true, end)
    ensures p < |v.c| && !EndsBranch(v.c[p]) && IsQuantifier(Meta(v.c[p]))
    ensures META_MINMAX <= Meta(v.c[p]) <==> rest.quant.Counted?
    ensures rest.quant.Counted? ==>
              p + 2 < |v.c| && v.c[p + 1] == rest.quant.min < UNLIMITED && v.c[p + 2] == rest.quant.max
    ensures p + QuantUnits(rest.quant) <= end < |v.c| && Place(v, p + QuantUnits(rest.quant), rest.rest, false, end)
  {
    PlaceParts(v, p, rest, end);
    QuantUnit(v.c, p, rest.quant);
  }

  lemma PlaceParts(v: Parsed, p: nat, rest: PBranch, end: nat)
    requires rest.PCons? && Place(v, p, rest, true, end)
    ensures ProperQuant(rest.quant) && QuantAt(v.c, p, rest.quant) && p + QuantUnits(rest.quant) <= end < |v.c|
    ensures Place(v, p + QuantUnits(rest.quant), rest.rest, false, end)
  {
    assert Look(0);
  }

  lemma QuantUnit(c: Code, p: nat, q: PQuant)
    requires ProperQuant(q) && QuantAt(c, p, q) && !q.NoQuant?
    ensures p < |c| && !EndsBranch(c[p]) && IsQuantifier(Meta(c[p])) && (META_MINMAX <= Meta(c[p]) <==> q.Counted?)
    ensures q.Counted? ==> p + 2 < |c| && c[p + 1] == q.min < UNLIMITED && c[p + 2] == q.max
  {
    assert Peek(0);
  }

  lemma PlaceKind(v: Parsed, p: nat, rest: PBranch, half: bool, end: nat)
    requires Place(v, p, rest, half, end) && (half ==> rest.PCons? && !rest.quant.NoQuant?)
    ensures p < |v.c| && (EndsBranch(v.c[p]) <==> rest.PNil? && !half) && (IsQuantifier(Meta(v.c[p])) <==> half)
    ensures EndsBranch(v.c[p]) ==> p == end
    ensures p <= end < |v.c|
  {
    if half { PlaceQuant(v, p, rest, end); }
    else if rest.PNil? { PlaceEnd(v, p, end); }
    else { PlaceAtom(v, p, rest, end); }
  }

  lemma AtomKind(c: Code, p: nat, a: PAtom)
    requires ProperAtom(a) && AtomAt(c, p, a)
    ensures p < |c| && (a.Bracket? <==> IsOpening(c[p])) && (a.Bracket? ==> c[p] == a.open)
    ensures a.Reference? <==> Meta(c[p]) == META_RECURSE || Meta(c[p]) == META_BACKREF
    ensures IsLookahead(c[p]) <==> !Counts(a)
  {
    assert Peek(0);
    AtomUnit(c, p, a);
  }

  /** When the lengths in what is left have been written as well, those in the whole branch have. */
  ghost predicate Covered(g: Groups, m: Marks, p0: nat, b: PBranch, p: nat, rest: PBranch, half: bool) {
    && (half ==> rest.PCons?)
    && forall m': Marks {:trigger Grows(g, m, m')} :: Grows(g, m, m') && LeftMarked(g, m', p, rest, half) ==>
         BranchMarked(g, m', p0, b)
  }

  ghost predicate LeftMarked(g: Groups, m: Marks, p: nat, rest: PBranch, half: bool)
    requires half ==> rest.PCons?
  {
    if half then BranchMarked(g, m, p + QuantUnits(rest.quant), rest.rest) else BranchMarked(g, m, p, rest)
  }

  ghost predicate AtomDone(g: Groups, m: Marks, p: nat, a: PAtom) {
    forall k: int {:trigger Look(k)} :: Look(k) ==> AtomMarked(g, m, p, a)
  }

  lemma GrowsTwice(g: Groups, m: Marks, m1: Marks, m2: Marks)
    requires Grows(g, m, m1) && Grows(g, m1, m2)
    ensures Grows(g, m, m2)
  {
    forall q: nat | q < |m| ensures m2[q] == m[q] || MarkKnown(g, q, m2[q]) {
      assert m1[q] == m[q] || MarkKnown(g, q, m1[q]);
    }
  }

  lemma CoveredStart(g: Groups, m: Marks, p: nat, b: PBranch)
    ensures Covered(g, m, p, b, p, b, false)
  {
  }

  /** An item has been read, together with its quantifier when it does not count. */
  lemma CoveredAtom(g: Groups, m: Marks, m1: Marks, p0: nat, b: PBranch, p: nat, rest: PBranch, whole: bool)
    requires Covered(g, m, p0, b, p, rest, false) && Grows(g, m, m1) && rest.PCons? && AtomDone(g, m1, p, rest.atom)
    ensures var q := p + AtomUnits(rest.atom);
            if whole then Covered(g, m1, p0, b, q + QuantUnits(rest.quant), rest.rest, false)
            else Covered(g, m1, p0, b, q, rest, true)
  {
    assert Look(0);
    var q := p + AtomUnits(rest.atom);
    forall m': Marks | Grows(g, m1, m') && BranchMarked(g, m', q + QuantUnits(rest.quant), rest.rest)
      ensures BranchMarked(g, m', p0, b)
    {
      GrowsTwice(g, m, m1, m');
      AtomKept(g, m1, m', p, rest.atom);
      assert LeftMarked(g, m', p, rest, false);
    }
  }

  lemma CoveredQuant(g: Groups, m: Marks, p0: nat, b: PBranch, p: nat, rest: PBranch)
    requires Covered(g, m, p0, b, p, rest, true)
    ensures Covered(g, m, p0, b, p + QuantUnits(rest.quant), rest.rest, false)
  {
    forall m': Marks | Grows(g, m, m') && LeftMarked(g, m', p + QuantUnits(rest.quant), rest.rest, false)
      ensures BranchMarked(g, m', p0, b)
    {
      assert LeftMarked(g, m', p, rest, true);
    }
  }

  lemma CoveredAll(g: Groups, m: Marks, p0: nat, b: PBranch, p: nat)
    requires Covered(g, m, p0, b, p, PNil, false)
    ensures BranchMarked(g, m, p0, b)
  {
    assert Grows(g, m, m) && LeftMarked(g, m, p, PNil, false);
  }

  // --- the alternatives of a group ----------------------------------------------------------------------

  /** The alternatives before `rest` have the given length, if there are any. */
  ghost predicate Merging(g: Groups, alts: PAlts, rest: PAlts, length: int, d: nat) {
    forall k: int {:trigger Look(k)} :: Look(k) ==>
      forall d': nat :: d' >= d && AltsLength(g, rest, d').Some?
                        && (length == -1 || AltsLength(g, rest, d').value == length) ==>
        AltsLength(g, alts, d') == AltsLength(g, rest, d')
  }

  lemma Merge(g: Groups, alts: PAlts, rest: PAlts, length: int, d: nat, n: int, d1: nat)
    requires Merging(g, alts, rest, length, d) && (length == -1 || length == n) && n >= 0
    requires forall d': nat :: d' >= d1 ==> BranchLength(g, rest.branch, d') == Some(n)
    ensures var d2 := if d < d1 then d1 else d;
            && (rest.POr? ==> Merging(g, alts, rest.more, n, d2))
            && (rest.PLast? ==> forall d': nat :: d' >= d2 ==> AltsLength(g, alts, d') == Some(n))
  {
    assert Look(0);
    var d2 := if d < d1 then d1 else d;
    forall d': nat | d' >= d2
      ensures rest.PLast? || AltsLength(g, rest.more, d') == Some(n) ==> AltsLength(g, alts, d') == Some(n)
    {
      assert BranchLength(g, rest.branch, d') == Some(n);
    }
  }

  /** When the lengths in the alternatives that are left have been written as well, those in all of them have. */
  ghost predicate AltsCovered(g: Groups, m: Marks, p0: nat, alts: PAlts, p: nat, rest: PAlts) {
    forall m': Marks {:trigger Grows(g, m, m')} :: Grows(g, m, m') && AltsMarked(g, m', p, rest) ==>
      AltsMarked(g, m', p0, alts)
  }

  lemma AltsCoveredNext(g: Groups, m: Marks, m1: Marks, p0: nat, alts: PAlts, p: nat, k: nat, rest: PAlts)
    requires AltsCovered(g, m, p0, alts, p, rest) && Grows(g, m, m1) && BranchDone(g, m1, p, rest.branch)
    requires k == p + BranchUnits(rest.branch)
    ensures if rest.POr? then AltsCovered(g, m1, p0, alts, k + 1, rest.more)
            else AltsDone(g, m1, p0, alts)
  {
    assert Look(0);
    if rest.POr? {
      var q := k + 1;
      forall m': Marks | Grows(g, m1, m') && AltsMarked(g, m', q, rest.more) ensures AltsMarked(g, m', p0, alts) {
        GrowsTwice(g, m, m1, m');
        BranchKept(g, m1, m', p, rest.branch);
        assert AltsMarked(g, m', p, rest);
      }
    } else {
      assert AltsMarked(g, m1, p, rest);
    }
  }

  /** And the same for the units that the lengths of the branches of a lookbehind are written to. */
  ghost predicate CellsCovered(g: Groups, m: Marks, cell0: nat, x0: nat, alts: PAlts, cell: nat, x: nat, rest: PAlts) {
    forall m': Marks {:trigger Grows(g, m, m')} :: Grows(g, m, m') && CellsMarked(g, m', cell, x, rest) ==>
      CellsMarked(g, m', cell0, x0, alts)
  }

  lemma CellsCoveredNext(g: Groups, m: Marks, m1: Marks, cell0: nat, x0: nat, alts: PAlts, cell: nat, x: nat, q: nat,
                         rest: PAlts)
    requires CellsCovered(g, m, cell0, x0, alts, cell, x, rest) && Grows(g, m, m1)
    requires cell < |m1| && MarkKnown(g, cell, m1[cell]) && q == x + BranchUnits(rest.branch)
    ensures if rest.POr? then CellsCovered(g, m1, cell0, x0, alts, q, q + 1, rest.more)
            else CellsMarked(g, m1, cell0, x0, alts)
  {
    if rest.POr? {
      forall m': Marks | Grows(g, m1, m') && CellsMarked(g, m', q, q + 1, rest.more)
        ensures CellsMarked(g, m', cell0, x0, alts)
      {
        GrowsTwice(g, m, m1, m');
        assert m'[cell] == m1[cell] || MarkKnown(g, cell, m'[cell]);
        assert CellsMarked(g, m', cell, x, rest);
      }
    } else {
      assert CellsMarked(g, m1, cell, x, rest);
    }
  }

  lemma ReferenceLong(g: Groups, a: PAtom, d: nat, n: int)
    requires a.Reference? && forall d': nat :: d' >= d ==> AltsLength(g, g.contents(Data(a.unit)), d') == Some(n)
    ensures LongAtom(g, a, d + 1, n)
  {
    forall d': nat | d' >= d + 1 ensures AtomLength(g, a, d') == Some(n) {
      assert AltsLength(g, g.contents(Data(a.unit)), d' - 1) == Some(n);
    }
  }

  lemma NotNegative(a: int, b: int)
    requires a >= 0 && b >= 0
    ensures a * b >= 0
  {
  }

  /** The start of a class, and its end. */
  lemma SkipsClass(c: Code, p: nat, units: seq<int>)
    requires ProperSimple(units) && IsAt(c, p, units) && (units[0] == META_CLASS || units[0] == META_CLASS_NOT)
    ensures Skip(c, p, ToClassEnd, 0) == Some(p + |units| - 1)
  {
    assert c[p] == c[p..p + |units|][0];
    SkipClassStart(c, p, ToClassEnd, 0);
    SkipClass(c, p, 1, units, ToClassEnd, 0);
  }

  ghost predicate BothCovered(g: Groups, m: Marks, cell0: nat, x0: nat, alts: PAlts, cell: nat, x: nat, rest: PAlts) {
    forall k: int {:trigger Look(k)} :: Look(k) ==>
      AltsCovered(g, m, x0, alts, x, rest) && CellsCovered(g, m, cell0, x0, alts, cell, x, rest)
  }

  ghost predicate BothMarked(g: Groups, m: Marks, cell: nat, x: nat, alts: PAlts) {
    forall k: int {:trigger Look(k)} :: Look(k) ==> AltsMarked(g, m, x, alts) && CellsMarked(g, m, cell, x, alts)
  }

  lemma BothCoveredNext(g: Groups, m: Marks, m1: Marks, cell0: nat, x0: nat, alts: PAlts, cell: nat, x: nat, q: nat,
                        rest: PAlts)
    requires BothCovered(g, m, cell0, x0, alts, cell, x, rest) && Grows(g, m, m1)
    requires cell < |m1| && MarkKnown(g, cell, m1[cell]) && BranchDone(g, m1, x, rest.branch)
    requires q == x + BranchUnits(rest.branch)
    ensures if rest.POr? then BothCovered(g, m1, cell0, x0, alts, q, q + 1, rest.more)
            else BothMarked(g, m1, cell0, x0, alts)
  {
    assert Look(0);
    AltsCoveredNext(g, m, m1, x0, alts, x, q, rest);
    CellsCoveredNext(g, m, m1, cell0, x0, alts, cell, x, q, rest);
  }

  // --- going through a pattern for its lookbehinds --------------------------------------------------------

  /** A turn of the loop over the units: it stops, at a closing bracket if there is one; it comes to a lookbehind, which
      ends at `ket`; or it goes on. */
  datatype Step = Stop(end: Option<nat>) | Enter(ket: nat) | Go(p: nat, nest: nat)

  function StepSize(c: Code, p: nat): nat
    requires p < |c|
  {
    var u := c[p];
    ExtraLength(Meta(u)) + NameSize(c, p)
    + if Meta(u) == META_ESCAPE && (Data(u) == ESC_P || Data(u) == ESC_p) then 1 else 0
  }

  function StepAt(c: Code, p: nat, nest: nat): (r: Step)
    ensures r.Go? ==> r.p > p
    ensures r.Enter? ==> p < r.ket
  {
    if p >= |c| || c[p] == META_END then Stop(None)
    else if c[p] < META_END then Go(p + 1, nest)
    else if Meta(c[p]) == META_END || Meta(c[p]) > META_MINMAX_QUERY then Stop(None)
    else if Meta(c[p]) == META_KET && nest == 0 then Stop(Some(p))
    else if IsLookbehind(Meta(c[p])) then
      var k := Skip(c, p + 1 + SIZEOFFSET, ToKet, 0);
      Enter(if k.None? then p + 1 else k.value)
    else Go(p + 1 + StepSize(c, p), Nested(Meta(c[p]), nest))
  }

  /** Going on from p comes to the lookbehind that opens at q. */
  predicate Meets(c: Code, p: nat, nest: nat, q: nat)
    decreases |c| - p
  {
    p < |c| &&
    match StepAt(c, p, nest)
    case Stop(_) => false
    case Enter(k) => q == p || Meets(c, k + 1, nest, q)
    case Go(p', nest') => Meets(c, p', nest', q)
  }

  function WalkEnd(c: Code, p: nat, nest: nat): Option<nat>
    decreases |c| - p
  {
    if p >= |c| then None
    else
      match StepAt(c, p, nest)
      case Stop(end) => end
      case Enter(k) => WalkEnd(c, k + 1, nest)
      case Go(p', nest') => WalkEnd(c, p', nest')
  }

  /** From p and from p' the walk goes the same way, except that it comes to one more lookbehind, or to none. */
  ghost predicate Same(c: Code, p: nat, nest: nat, p': nat, nest': nat) {
    && WalkEnd(c, p, nest) == WalkEnd(c, p', nest')
    && forall q: nat {:trigger Meets(c, p', nest', q)} :: Meets(c, p, nest, q) <==> Meets(c, p', nest', q)
  }

  lemma SameGo(c: Code, p: nat, nest: nat, p': nat, nest': nat)
    requires p < |c| && StepAt(c, p, nest) == Go(p', nest')
    ensures Same(c, p, nest, p', nest')
  {
  }

  lemma SameTwice(c: Code, p: nat, n: nat, p1: nat, n1: nat, p2: nat, n2: nat)
    requires Same(c, p, n, p1, n1) && Same(c, p1, n1, p2, n2)
    ensures Same(c, p, n, p2, n2)
  {
    forall q: nat ensures Meets(c, p, n, q) <==> Meets(c, p2, n2, q) {
      assert Meets(c, p1, n1, q) <==> Meets(c, p2, n2, q);
    }
  }

  /** An item that is no bracket. */
  lemma StepOver(c: Code, p: nat, q: nat, nest: nat)
    requires p < |c| && DataSize(c[p]).Some? && q == p + 1 + DataSize(c[p]).value && !IsNamedVerb(Meta(c[p]))
    requires c[p] < META_END || (!Opens(Meta(c[p])) && Meta(c[p]) != META_KET && Meta(c[p]) != META_END)
    requires MoreData(c[p]) == 0 || (Meta(c[p]) == META_ESCAPE && Data(c[p]) < ESC_g)
    ensures Same(c, p, nest, q, nest)
  {
    assert StepAt(c, p, nest) == Go(q, nest);
    SameGo(c, p, nest, q, nest);
  }

  /** The start or the end of a class. */
  lemma StepClassUnit(c: Code, x: nat, nest: nat)
    requires x < |c| && (c[x] == META_CLASS || c[x] == META_CLASS_NOT || c[x] == META_CLASS_END)
    ensures Same(c, x, nest, x + 1, nest)
  {
    ClassEdge(c[x]);
    StepOver(c, x, x + 1, nest);
  }

  lemma ClassEdge(u: int)
    requires u == META_CLASS || u == META_CLASS_NOT || u == META_CLASS_END
    ensures DataSize(u) == Some(0) && MoreData(u) == 0 && !Opens(Meta(u)) && Meta(u) != META_KET && Meta(u) != META_END
    ensures !IsNamedVerb(Meta(u))
  {
  }

  lemma {:induction false} StepClass(c: Code, p: nat, i: nat, units: seq<int>, nest: nat)
    requires ClassBody(units, i) && IsAt(c, p, units)
    ensures Same(c, p + i, nest, p + |units|, nest)
    decreases |units| - i
  {
    var x := p + i;
    assert c[x] == c[p..p + |units|][i] == units[i];
    if units[i] == META_CLASS_END && i + 1 == |units| {
      StepClassUnit(c, x, nest);
    } else {
      var j := i + 1 + DataSize(units[i]).value;
      StepClass(c, p, j, units, nest);
      StepInClass(c, x, p + j, nest);
      SameTwice(c, x, nest, p + j, nest, p + |units|, nest);
    }
  }

  lemma StepInClass(c: Code, x: nat, y: nat, nest: nat)
    requires x < |c| && InClass(c[x]) && y == x + 1 + DataSize(c[x]).value
    ensures Same(c, x, nest, y, nest)
  {
    ClassUnit(c[x]);
    StepOver(c, x, y, nest);
  }

  // --- the lookbehinds in a part of the pattern -------------------------------------------------------------

  /** A lookbehind that is not inside another one opens at q. */
  predicate AtomHas(p: nat, a: PAtom, q: nat)
    decreases a
  {
    a.Bracket? && if a.kind.BehindKind? then q == p else AltsHas(p + a.head, a.alts, q)
  }

  predicate BranchHas(p: nat, b: PBranch, q: nat)
    decreases b
  {
    b.PCons? && (AtomHas(p, b.atom, q) || BranchHas(p + AtomUnits(b.atom) + QuantUnits(b.quant), b.rest, q))
  }

  predicate AltsHas(p: nat, a: PAlts, q: nat)
    decreases a
  {
    BranchHas(p, a.branch, q) || (a.POr? && AltsHas(p + BranchUnits(a.branch) + 1, a.more, q))
  }

  /** From p the walk comes to the lookbehinds of a part of the pattern, and then goes on as from y. */
  ghost predicate WalksAtom(c: Code, p: nat, y: nat, a: PAtom, nest: nat) {
    && WalkEnd(c, p, nest) == WalkEnd(c, y, nest)
    && forall q: nat {:trigger Meets(c, p, nest, q)} {:trigger AtomHas(p, a, q)} ::
         Meets(c, p, nest, q) <==> AtomHas(p, a, q) || Meets(c, y, nest, q)
  }

  ghost predicate WalksBranch(c: Code, p: nat, y: nat, b: PBranch, nest: nat) {
    && WalkEnd(c, p, nest) == WalkEnd(c, y, nest)
    && forall q: nat {:trigger Meets(c, p, nest, q)} {:trigger BranchHas(p, b, q)} ::
         Meets(c, p, nest, q) <==> BranchHas(p, b, q) || Meets(c, y, nest, q)
  }

  ghost predicate WalksAlts(c: Code, p: nat, y: nat, a: PAlts, nest: nat) {
    && WalkEnd(c, p, nest) == WalkEnd(c, y, nest)
    && forall q: nat {:trigger Meets(c, p, nest, q)} {:trigger AltsHas(p, a, q)} ::
         Meets(c, p, nest, q) <==> AltsHas(p, a, q) || Meets(c, y, nest, q)
  }

  lemma {:induction false} SmallUnits(c: Code, p: nat, y: nat, nest: nat)
    requires p <= y && SmallData(c, p, y)
    ensures Same(c, p, nest, y, nest)
    decreases y - p
  {
    if p < y {
      SameGo(c, p, nest, p + 1, nest);
      SmallUnits(c, p + 1, y, nest);
      SameTwice(c, p, nest, p + 1, nest, y, nest);
    }
  }

  lemma StepSimple(c: Code, p: nat, y: nat, units: seq<int>, nest: nat)
    requires ProperSimple(units) && IsAt(c, p, units) && y == p + |units|
    ensures Same(c, p, nest, y, nest)
  {
    assert c[p] == c[p..p + |units|][0] == units[0];
    if units[0] == META_CLASS || units[0] == META_CLASS_NOT {
      StepClass(c, p, 1, units, nest);
      StepClassUnit(c, p, nest);
      SameTwice(c, p, nest, p + 1, nest, y, nest);
    } else {
      StepOver(c, p, y, nest);
    }
  }

  lemma OffsetSmall(c: Code, p: nat, offset: seq<int>)
    requires IsAt(c, p, offset) && SmallData(offset, 0, |offset|)
    ensures SmallData(c, p, p + |offset|)
  {
    forall i | p <= i < p + |offset| ensures c[i] < META_END {
      assert c[i] == c[p..p + |offset|][i - p] == offset[i - p];
    }
  }

  lemma StepReference(c: Code, p: nat, y: nat, a: PAtom, nest: nat)
    requires a.Reference? && ProperUnit(a) && p < |c| && c[p] == a.unit && IsAt(c, p + 1, a.offset)
    requires y == p + 1 + |a.offset|
    ensures Same(c, p, nest, y, nest)
  {
    assert Peek(0);
    if Meta(a.unit) == META_RECURSE {
      StepOver(c, p, y, nest);
    } else {
      OffsetSmall(c, p + 1, a.offset);
      StepBackref(c, p, nest);
      SmallUnits(c, p + 1, y, nest);
      SameTwice(c, p, nest, p + 1, nest, y, nest);
    }
  }

  lemma StepBackref(c: Code, p: nat, nest: nat)
    requires p < |c| && Meta(c[p]) == META_BACKREF
    ensures Same(c, p, nest, p + 1, nest)
  {
    assert StepAt(c, p, nest) == Go(p + 1, nest);
    SameGo(c, p, nest, p + 1, nest);
  }

  lemma StepUnits(c: Code, p: nat, y: nat, a: PAtom, nest: nat)
    requires a.Simple? && ProperUnit(a) && IsAt(c, p, a.units) && y == p + |a.units|
    ensures Same(c, p, nest, y, nest)
  {
    assert Peek(0);
    StepSimple(c, p, y, a.units, nest);
  }

  /** The opening unit of a lookbehind. */
  lemma BehindUnit(a: PAtom)
    requires a.Bracket? && ProperUnit(a)
    ensures a.kind.BehindKind? <==> IsLookbehind(a.open)
    ensures a.kind.BehindKind? ==> a.head == 1 + SIZEOFFSET
    ensures a.kind.AheadKind? ==> a.head == 1
    ensures a.head > 0
  {
    assert Peek(0);
    HeadIs(a.open);
  }

  lemma OpeningMeta(open: int)
    requires IsOpening(open)
    ensures IsLookbehind(open) <==> IsLookbehind(Meta(open))
    ensures IsLookbehind(open) ==> HeadUnits(open) == 1 + SIZEOFFSET
  {
  }

  lemma StepOpening(c: Code, p: nat, x: nat, a: PAtom, nest: nat)
    requires a.Bracket? && ProperUnit(a) && p < |c| && c[p] == a.open && !a.kind.BehindKind? && x == p + a.head
    ensures Same(c, p, nest, x, nest + 1)
  {
    assert Peek(0);
    BehindUnit(a);
    OpeningUnit(a.open);
    OpeningMeta(a.open);
    StepOpens(c, p, x, nest);
  }

  lemma StepOpens(c: Code, p: nat, x: nat, nest: nat)
    requires p < |c| && IsOpening(c[p]) && !IsLookbehind(Meta(c[p])) && x == p + HeadUnits(c[p])
    ensures Same(c, p, nest, x, nest + 1)
  {
    OpeningUnit(c[p]);
    assert StepAt(c, p, nest) == Go(x, nest + 1);
    SameGo(c, p, nest, x, nest + 1);
  }

  lemma StepKet(c: Code, k: nat, nest: nat)
    requires k < |c| && c[k] == META_KET
    ensures Same(c, k, nest + 1, k + 1, nest)
  {
    assert StepAt(c, k, nest + 1) == Go(k + 1, nest);
    SameGo(c, k, nest + 1, k + 1, nest);
  }

  lemma StepAlt(c: Code, k: nat, nest: nat)
    requires k < |c| && c[k] == META_ALT
    ensures Same(c, k, nest, k + 1, nest)
  {
    assert StepAt(c, k, nest) == Go(k + 1, nest);
    SameGo(c, k, nest, k + 1, nest);
  }

  lemma StepLookbehind(c: Code, p: nat, x: nat, k: nat, a: PAtom, nest: nat)
    requires a.Bracket? && a.kind.BehindKind? && ProperUnit(a) && ProperAlts(a.alts) && p < |c| && c[p] == a.open
    requires x == p + a.head && AltsAt(c, x, a.alts) && k == x + AltsUnits(a.alts)
    requires k < |c| && c[k] == META_KET
    ensures WalksAtom(c, p, k + 1, a, nest)
  {
    BehindUnit(a);
    SkipsToKet(c, x, a.alts);
    EnterLookbehind(c, p, x, k, nest);
    EnterWalks(c, p, k, a, nest);
  }

  lemma EnterLookbehind(c: Code, p: nat, x: nat, k: nat, nest: nat)
    requires p < |c| && IsLookbehind(c[p]) && x == p + 1 + SIZEOFFSET && Skip(c, x, ToKet, 0) == Some(k)
    ensures StepAt(c, p, nest) == Enter(k)
  {
    OpeningMeta(c[p]);
  }

  lemma EnterWalks(c: Code, p: nat, k: nat, a: PAtom, nest: nat)
    requires p < |c| && StepAt(c, p, nest) == Enter(k) && a.Bracket? && a.kind.BehindKind?
    ensures WalksAtom(c, p, k + 1, a, nest)
  {
  }

  lemma {:induction false} WalkAtom(c: Code, p: nat, y: nat, a: PAtom, nest: nat)
    requires ProperAtom(a) && AtomAt(c, p, a) && y == p + AtomUnits(a)
    ensures WalksAtom(c, p, y, a, nest)
    decreases a, 1
  {
    match a
    case Simple(units) =>
      StepUnits(c, p, y, a, nest);
      WalkPlain(c, p, y, a, nest);
    case Reference(unit, offset) =>
      StepReference(c, p, y, a, nest);
      WalkPlain(c, p, y, a, nest);
    case Bracket(_, _, _, _) => WalkInside(c, p, y, a, nest);
  }

  lemma WalkPlain(c: Code, p: nat, y: nat, a: PAtom, nest: nat)
    requires !a.Bracket? && Same(c, p, nest, y, nest)
    ensures WalksAtom(c, p, y, a, nest)
  {
  }

  lemma {:induction false} WalkInside(c: Code, p: nat, y: nat, a: PAtom, nest: nat)
    requires a.Bracket? && ProperAtom(a) && AtomAt(c, p, a) && y == p + AtomUnits(a)
    ensures WalksAtom(c, p, y, a, nest)
    decreases a, 0
  {
    var x, k := BracketParts(c, p, y, a);
    if a.kind.BehindKind? {
      StepLookbehind(c, p, x, k, a, nest);
    } else {
      WalkAlts(c, x, k, a.alts, nest + 1);
      WalkBracket(c, p, x, k, a, nest);
    }
  }

  lemma WalkBracket(c: Code, p: nat, x: nat, k: nat, a: PAtom, nest: nat)
    requires a.Bracket? && !a.kind.BehindKind? && ProperUnit(a)
    requires p < |c| && c[p] == a.open && x == p + a.head && k < |c| && c[k] == META_KET
    requires WalksAlts(c, x, k, a.alts, nest + 1)
    ensures WalksAtom(c, p, k + 1, a, nest)
  {
    StepOpening(c, p, x, a, nest);
    StepKet(c, k, nest);
    forall q: nat ensures Meets(c, p, nest, q) <==> AtomHas(p, a, q) || Meets(c, k + 1, nest, q) {
      assert Meets(c, x, nest + 1, q) <==> AltsHas(x, a.alts, q) || Meets(c, k, nest + 1, q);
      assert Meets(c, k, nest + 1, q) <==> Meets(c, k + 1, nest, q);
    }
  }

  lemma WalkQuant(c: Code, p: nat, y: nat, quant: PQuant, nest: nat)
    requires ProperQuant(quant) && QuantAt(c, p, quant) && y == p + QuantUnits(quant)
    ensures Same(c, p, nest, y, nest)
  {
    assert Peek(0);
    if !quant.NoQuant? { StepOver(c, p, y, nest); }
  }

  lemma {:induction false} WalkBranch(c: Code, p: nat, y: nat, b: PBranch, nest: nat)
    requires ProperBranch(b) && BranchAt(c, p, b) && y == p + BranchUnits(b)
    ensures WalksBranch(c, p, y, b, nest)
    decreases b
  {
    if b.PCons? {
      var x := p + AtomUnits(b.atom);
      var z := x + QuantUnits(b.quant);
      WalkAtom(c, p, x, b.atom, nest);
      WalkQuant(c, x, z, b.quant, nest);
      WalkBranch(c, z, y, b.rest, nest);
      WalkCons(c, p, x, z, y, b, nest);
    }
  }

  lemma WalkCons(c: Code, p: nat, x: nat, z: nat, y: nat, b: PBranch, nest: nat)
    requires b.PCons? && x == p + AtomUnits(b.atom) && z == x + QuantUnits(b.quant)
    requires WalksAtom(c, p, x, b.atom, nest) && Same(c, x, nest, z, nest) && WalksBranch(c, z, y, b.rest, nest)
    ensures WalksBranch(c, p, y, b, nest)
  {
    forall q: nat ensures Meets(c, p, nest, q) <==> BranchHas(p, b, q) || Meets(c, y, nest, q) {
      assert Meets(c, p, nest, q) <==> AtomHas(p, b.atom, q) || Meets(c, x, nest, q);
      assert Meets(c, x, nest, q) <==> Meets(c, z, nest, q);
      assert Meets(c, z, nest, q) <==> BranchHas(z, b.rest, q) || Meets(c, y, nest, q);
    }
  }

  lemma {:induction false} WalkAlts(c: Code, p: nat, k: nat, a: PAlts, nest: nat)
    requires ProperAlts(a) && AltsAt(c, p, a) && k == p + AltsUnits(a)
    ensures WalksAlts(c, p, k, a, nest)
    decreases a
  {
    var q := p + BranchUnits(a.branch);
    WalkBranch(c, p, q, a.branch, nest);
    if a.POr? {
      StepAlt(c, q, nest);
      WalkAlts(c, q + 1, k, a.more, nest);
      WalkOr(c, p, q, k, a, nest);
    }
  }

  lemma WalkOr(c: Code, p: nat, x: nat, k: nat, a: PAlts, nest: nat)
    requires a.POr? && x == p + BranchUnits(a.branch)
    requires WalksBranch(c, p, x, a.branch, nest) && Same(c, x, nest, x + 1, nest)
    requires WalksAlts(c, x + 1, k, a.more, nest)
    ensures WalksAlts(c, p, k, a, nest)
  {
    forall q: nat ensures Meets(c, p, nest, q) <==> AltsHas(p, a, q) || Meets(c, k, nest, q) {
      assert Meets(c, p, nest, q) <==> BranchHas(p, a.branch, q) || Meets(c, x, nest, q);
      assert Meets(c, x, nest, q) <==> Meets(c, x + 1, nest, q);
      assert Meets(c, x + 1, nest, q) <==> AltsHas(x + 1, a.more, q) || Meets(c, k, nest, q);
    }
  }

  /** A lookbehind opens at q, and ends before `end`. */
  ghost predicate Behind(v: Parsed, q: nat, end: nat) {
    && q < |v.c| && IsLookbehind(v.c[q]) && Inside(v, q + 1 + SIZEOFFSET, v.g.looks(q))
    && Fits(v.g, q, q + 1 + SIZEOFFSET, v.g.looks(q)) && q + 1 + SIZEOFFSET + AltsUnits(v.g.looks(q)) < end
  }

  ghost predicate CalmBehind(g: Groups, q: nat) { g.looks(q).PLast? && CalmAlts(g.looks(q)) }

  ghost predicate BehindMarked(g: Groups, m: Marks, q: nat) {
    BothMarked(g, m, q, q + 1 + SIZEOFFSET, g.looks(q))
  }

  /** What is known of each lookbehind in a part of the pattern, from p to y. */
  ghost predicate Found(v: Parsed, q: nat, p: nat, y: nat, calm: bool) {
    p <= q && Behind(v, q, y) && (calm ==> CalmBehind(v.g, q))
  }

  lemma {:induction false} AtomFound(v: Parsed, p: nat, y: nat, a: PAtom, q: nat, calm: bool)
    requires ProperAtom(a) && NumberedAtom(v, p, a) && AtomAt(v.c, p, a) && y == p + AtomUnits(a) && AtomHas(p, a, q)
    requires calm ==> CalmAtom(a)
    ensures Found(v, q, p, y, calm)
    decreases a
  {
    assert Look(0);
    InsideBracket(v, p, a);
    BehindUnit(a);
    if !a.kind.BehindKind? {
      var x, k := BracketParts(v.c, p, y, a);
      AltsFound(v, x, k, a.alts, q, calm);
    }
  }

  lemma {:induction false} BranchFound(v: Parsed, p: nat, y: nat, b: PBranch, q: nat, calm: bool)
    requires ProperBranch(b) && NumberedBranch(v, p, b) && BranchAt(v.c, p, b) && y == p + BranchUnits(b)
             && BranchHas(p, b, q)
    requires calm ==> CalmBranch(b)
    ensures Found(v, q, p, y, calm)
    decreases b
  {
    assert Look(0);
    var x := p + AtomUnits(b.atom);
    if AtomHas(p, b.atom, q) {
      AtomFound(v, p, x, b.atom, q, calm);
    } else {
      BranchFound(v, x + QuantUnits(b.quant), y, b.rest, q, calm);
    }
  }

  lemma {:induction false} AltsFound(v: Parsed, p: nat, y: nat, a: PAlts, q: nat, calm: bool)
    requires ProperAlts(a) && NumberedAlts(v, p, a) && AltsAt(v.c, p, a) && y == p + AltsUnits(a) && AltsHas(p, a, q)
    requires calm ==> CalmAlts(a)
    ensures Found(v, q, p, y, calm)
    decreases a
  {
    assert Look(0);
    var x := p + BranchUnits(a.branch);
    if BranchHas(p, a.branch, q) {
      BranchFound(v, p, x, a.branch, q, calm);
    } else {
      AltsFound(v, x + 1, y, a.more, q, calm);
    }
  }

  lemma {:induction false} AtomAllMarked(v: Parsed, m: Marks, p: nat, a: PAtom)
    requires NumberedAtom(v, p, a) && forall q: nat :: AtomHas(p, a, q) ==> BehindMarked(v.g, m, q)
    requires ProperAtom(a)
    ensures AtomMarked(v.g, m, p, a)
    decreases a
  {
    if a.Bracket? {
      if a.kind.BehindKind? {
        BehindUnit(a);
        assert Look(0) && AtomHas(p, a, p);
      } else {
        forall q: nat | AltsHas(p + a.head, a.alts, q) ensures BehindMarked(v.g, m, q) {
          assert AtomHas(p, a, q);
        }
        AltsAllMarked(v, m, p + a.head, a.alts);
      }
    }
  }

  lemma {:induction false} BranchAllMarked(v: Parsed, m: Marks, p: nat, b: PBranch)
    requires NumberedBranch(v, p, b) && forall q: nat :: BranchHas(p, b, q) ==> BehindMarked(v.g, m, q)
    requires ProperBranch(b)
    ensures BranchMarked(v.g, m, p, b)
    decreases b
  {
    if b.PCons? {
      var x := p + AtomUnits(b.atom) + QuantUnits(b.quant);
      forall q: nat | AtomHas(p, b.atom, q) ensures BehindMarked(v.g, m, q) { assert BranchHas(p, b, q); }
      AtomAllMarked(v, m, p, b.atom);
      forall q: nat | BranchHas(x, b.rest, q) ensures BehindMarked(v.g, m, q) { assert BranchHas(p, b, q); }
      BranchAllMarked(v, m, x, b.rest);
    }
  }

  lemma {:induction false} AltsAllMarked(v: Parsed, m: Marks, p: nat, a: PAlts)
    requires NumberedAlts(v, p, a) && forall q: nat :: AltsHas(p, a, q) ==> BehindMarked(v.g, m, q)
    requires ProperAlts(a)
    ensures AltsMarked(v.g, m, p, a)
    decreases a
  {
    var x := p + BranchUnits(a.branch) + 1;
    forall q: nat | BranchHas(p, a.branch, q) ensures BehindMarked(v.g, m, q) { assert AltsHas(p, a, q); }
    BranchAllMarked(v, m, p, a.branch);
    if a.POr? {
      forall q: nat | AltsHas(x, a.more, q) ensures BehindMarked(v.g, m, q) { assert AltsHas(p, a, q); }
      AltsAllMarked(v, m, x, a.more);
    }
  }

  /** Where the walk from p ends. */
  ghost predicate WalksTo(c: Code, p: nat, ket: Option<nat>) {
    forall k: int {:trigger Look(k)} :: Look(k) ==> WalkEnd(c, p, 0) == ket
  }

  lemma WalksOnce(c: Code, p: nat, ket: Option<nat>, ket': Option<nat>)
    requires WalksTo(c, p, ket) && WalksTo(c, p, ket')
    ensures ket == ket'
  {
    assert Look(0);
  }

  ghost predicate AllHad(c: Code, x: nat, a: PAlts) {
    forall k: int {:trigger Look(k)} :: Look(k) ==>
      forall q: nat {:trigger Meets(c, x, 0, q)} {:trigger AltsHas(x, a, q)} :: Meets(c, x, 0, q) <==> AltsHas(x, a, q)
  }

  /** From the start of the contents of a bracket, the walk comes to the lookbehinds in it, and ends at its end. */
  lemma WalkBody(v: Parsed, x: nat, k: nat, a: PAlts, calm: bool)
    requires Inside(v, x, a) && k == x + AltsUnits(a) && (calm ==> CalmAlts(a))
    ensures WalksTo(v.c, x, Some(k)) && AllHad(v.c, x, a) && AllFound(v, x, k, calm)
  {
    InsideTo(v, x, k, a);
    WalkHas(v.c, x, k, a);
    HasFound(v, x, k, a, calm);
  }

  lemma InsideTo(v: Parsed, x: nat, k: nat, a: PAlts)
    requires Inside(v, x, a) && k == x + AltsUnits(a)
    ensures ProperAlts(a) && NumberedAlts(v, x, a) && AltsAt(v.c, x, a) && k < |v.c| && v.c[k] == META_KET
  {
    InsideOpen(v, x, a);
  }

  lemma WalkHas(c: Code, x: nat, k: nat, a: PAlts)
    requires ProperAlts(a) && AltsAt(c, x, a) && k == x + AltsUnits(a) && k < |c| && c[k] == META_KET
    ensures WalksTo(c, x, Some(k)) && AllHad(c, x, a)
  {
    WalkAlts(c, x, k, a, 0);
    WalkStops(c, k);
    forall q: nat ensures Meets(c, x, 0, q) <==> AltsHas(x, a, q) {
      assert Meets(c, x, 0, q) <==> AltsHas(x, a, q) || Meets(c, k, 0, q);
    }
  }

  lemma HasFound(v: Parsed, x: nat, k: nat, a: PAlts, calm: bool)
    requires calm ==> CalmAlts(a)
    requires ProperAlts(a) && NumberedAlts(v, x, a) && AltsAt(v.c, x, a) && k == x + AltsUnits(a) && AllHad(v.c, x, a)
    ensures AllFound(v, x, k, calm)
  {
    assert Look(0);
    forall q: nat | Meets(v.c, x, 0, q) ensures Found(v, q, x, k, calm) { AltsFound(v, x, k, a, q, calm); }
  }

  lemma WalkStops(c: Code, k: nat)
    requires k < |c| && c[k] == META_KET
    ensures WalkEnd(c, k, 0) == Some(k) && forall q: nat {:trigger Meets(c, k, 0, q)} :: !Meets(c, k, 0, q)
  {
    assert StepAt(c, k, 0) == Stop(Some(k));
  }

  /** The walk has got to p: every lookbehind is still to come, or its lengths have been written. */
  ghost predicate Checked(v: Parsed, m: Marks, p0: nat, p: nat, nest: nat) {
    && WalkEnd(v.c, p0, 0) == WalkEnd(v.c, p, nest)
    && (forall q: nat {:trigger Meets(v.c, p, nest, q)} :: Meets(v.c, p, nest, q) ==> Meets(v.c, p0, 0, q))
    && forall q: nat {:trigger Meets(v.c, p0, 0, q)} :: Meets(v.c, p0, 0, q) ==>
         Meets(v.c, p, nest, q) || BehindMarked(v.g, m, q)
  }

  lemma CheckedGo(v: Parsed, m: Marks, p0: nat, p: nat, nest: nat, p': nat, nest': nat)
    requires Checked(v, m, p0, p, nest) && p < |v.c| && StepAt(v.c, p, nest) == Go(p', nest')
    ensures Checked(v, m, p0, p', nest')
  {
    SameGo(v.c, p, nest, p', nest');
    forall q: nat | Meets(v.c, p', nest', q) ensures Meets(v.c, p0, 0, q) { assert Meets(v.c, p, nest, q); }
    forall q: nat | Meets(v.c, p0, 0, q) ensures Meets(v.c, p', nest', q) || BehindMarked(v.g, m, q) {
      assert Meets(v.c, p, nest, q) || BehindMarked(v.g, m, q);
    }
  }

  lemma CheckedStop(v: Parsed, m: Marks, p0: nat, p: nat, nest: nat)
    requires Checked(v, m, p0, p, nest) && (p < |v.c| ==> StepAt(v.c, p, nest).Stop?)
    ensures AllDone(v, m, p0)
    ensures WalksTo(v.c, p0, if p < |v.c| then StepAt(v.c, p, nest).end else None)
  {
    forall q: nat | Meets(v.c, p0, 0, q) ensures BehindMarked(v.g, m, q) { assert !Meets(v.c, p, nest, q); }
  }

  lemma BehindKept(g: Groups, m: Marks, m': Marks, q: nat)
    requires Grows(g, m, m') && BehindMarked(g, m, q)
    ensures BehindMarked(g, m', q)
  {
    assert Look(0);
    CellsKept(g, m, m', q, q + 1 + SIZEOFFSET, g.looks(q));
    AltsKept(g, m, m', q + 1 + SIZEOFFSET, g.looks(q));
  }

  /** A lookbehind at p has been dealt with. */
  lemma CheckedEnter(v: Parsed, m: Marks, m': Marks, p0: nat, p: nat, nest: nat, k: nat)
    requires Checked(v, m, p0, p, nest) && p < |v.c| && StepAt(v.c, p, nest) == Enter(k)
    requires Grows(v.g, m, m') && BehindMarked(v.g, m', p)
    ensures Checked(v, m', p0, k + 1, nest)
  {
    forall q: nat | Meets(v.c, k + 1, nest, q) ensures Meets(v.c, p0, 0, q) { assert Meets(v.c, p, nest, q); }
    forall q: nat | Meets(v.c, p0, 0, q) ensures Meets(v.c, k + 1, nest, q) || BehindMarked(v.g, m', q) {
      if BehindMarked(v.g, m, q) { BehindKept(v.g, m, m', q); } else { assert Meets(v.c, p, nest, q); }
    }
  }

  /** The lookbehind that the walk comes to at p. */
  lemma FoundHere(v: Parsed, m: Marks, p: nat, nest: nat, end: nat, p0: nat, calm: bool)
    requires AllFound(v, p0, end, calm) && Checked(v, m, p0, p, nest) && p < |v.c| && StepAt(v.c, p, nest).Enter?
    ensures var k := p + 1 + SIZEOFFSET + AltsUnits(v.g.looks(p));
            Found(v, p, p0, end, calm) && k < end && StepAt(v.c, p, nest) == Enter(k)
  {
    assert Look(0);
    assert Meets(v.c, p, nest, p);
    assert Meets(v.c, p0, 0, p);
    EnterFound(v, p, nest, end, p0, calm);
  }

  lemma EnterFound(v: Parsed, p: nat, nest: nat, end: nat, p0: nat, calm: bool)
    requires Found(v, p, p0, end, calm) && p < |v.c| && StepAt(v.c, p, nest).Enter?
    ensures StepAt(v.c, p, nest) == Enter(p + 1 + SIZEOFFSET + AltsUnits(v.g.looks(p)))
  {
    InsideEnds(v, p + 1 + SIZEOFFSET, v.g.looks(p));
  }

  /** The definition in a bracket ends where its contents do. */
  lemma DefinitionEnds(v: Parsed, p: nat, x: nat, a: PAtom)
    requires a.Bracket? && ItemAt(v, p, a) && x == p + a.head && Inside(v, x, a.alts)
    ensures Skip(v.c, p + 1, ToKet, 0) == Some(x + AltsUnits(a.alts))
  {
    HeadSmall(v, p, x, a);
    InsideEnds(v, x, a.alts);
    SkipSmall(v.c, p + 1, x);
  }

  lemma HeadSmall(v: Parsed, p: nat, x: nat, a: PAtom)
    requires a.Bracket? && ItemAt(v, p, a) && x == p + a.head
    ensures p < x && SmallData(v.c, p + 1, x)
  {
    ItemOpen(v, p, a);
    BehindUnit(a);
  }

  lemma {:induction false} SkipSmall(c: Code, p: nat, q: nat)
    requires p <= q && SmallData(c, p, q)
    ensures Skip(c, p, ToKet, 0) == Skip(c, q, ToKet, 0)
    decreases q - p
  {
    if p < q { SkipSmall(c, p + 1, q); }
  }

  /** Where the branches `rest` of a lookbehind are read, the length of the first of which goes to unit `cell`. */
  ghost predicate Behinds(v: Parsed, m: Marks, cell: nat, p: nat, rest: PAlts, end: nat, calm: bool) {
    && cell < p && cell < |v.c| == |m| && Inside(v, p, rest)
    && forall k: int {:trigger Look(k)} :: Look(k) ==>
         && Fits(v.g, cell, p, rest) && end == p + AltsUnits(rest)
         && if calm then rest.PLast? && CalmAlts(rest) && v.c[cell] != META_ALT else Clear(v.c, m, p, end)
  }

  lemma BehindsParts(v: Parsed, m: Marks, cell: nat, p: nat, q: nat, rest: PAlts, end: nat, calm: bool)
    requires Behinds(v, m, cell, p, rest, end, calm) && q == p + BranchUnits(rest.branch)
    ensures v.g.behind(cell) == rest.branch && q <= end == p + AltsUnits(rest)
    ensures if calm then CalmBranch(rest.branch) else Clear(v.c, m, p, q)
  {
    assert Look(0);
    if !calm { LessClear(v.c, m, p, end, p, q); }
  }

  /** After a branch has been read, its end has not been written to. */
  lemma BehindsRead(v: Parsed, m: Marks, m1: Marks, cell: nat, p: nat, q: nat, rest: PAlts, end: nat, calm: bool)
    requires Behinds(v, m, cell, p, rest, end, calm) && q == p + BranchUnits(rest.branch)
    requires Moved(v, m, m1, p, if calm then p else q)
    ensures |m1| == |v.c| && (!calm ==> Clear(v.c, m1, q, end))
  {
    assert Look(0);
    MovedGrows(v, m, m1, p, if calm then p else q);
    if !calm {
      LessClear(v.c, m, p, end, q, end);
      StillClear(v, m, m1, p, if calm then p else q, q, end);
    }
  }

  /** After its length has been written, the next branch is ready to be read. */
  lemma BehindsWritten(v: Parsed, m: Marks, m1: Marks, m2: Marks, cell: nat, p: nat, q: nat, rest: PAlts, end: nat,
                       calm: bool)
    requires Behinds(v, m, cell, p, rest, end, calm) && q == p + BranchUnits(rest.branch)
    requires Moved(v, m, m1, cell, if calm then cell else end) && Moved(v, m1, m2, cell, cell + 1)
    requires |m1| == |v.c| && (!calm ==> Clear(v.c, m1, q, end)) && BranchDone(v.g, m1, p, rest.branch)
    ensures Moved(v, m, m2, cell, if calm then cell else end) && BranchDone(v.g, m2, p, rest.branch)
    ensures q < |v.c| == |m2| && (v.c[q] == META_ALT && m2[q] == 0 <==> rest.POr?)
    ensures if rest.POr? then !calm && Behinds(v, m2, q, q + 1, rest.more, end, calm) else q == end
  {
    assert Look(0);
    var q' := InsideBranch(v, p, rest);
    MovedGrows(v, m1, m2, cell, cell + 1);
    BranchKept(v.g, m1, m2, p, rest.branch);
    if calm {
      MovedOpener(v, m1, m2, cell, cell, cell);
      MovedTwice(v, m, m1, m2, cell, cell, cell, cell, cell, cell);
    } else {
      MovedTwice(v, m, m1, m2, cell, end, cell, end, cell, cell + 1);
      StillClear(v, m1, m2, cell, cell + 1, q, end);
    }
    if rest.POr? { BehindsMore(v, m, m2, cell, p, q, rest, end); }
  }

  lemma BehindsMore(v: Parsed, m: Marks, m2: Marks, cell: nat, p: nat, q: nat, rest: PAlts, end: nat)
    requires Behinds(v, m, cell, p, rest, end, false) && q == p + BranchUnits(rest.branch) && rest.POr?
    requires Clear(v.c, m2, q, end)
    ensures Behinds(v, m2, q, q + 1, rest.more, end, false) && q < |v.c| && v.c[q] == META_ALT && m2[q] == 0
  {
    assert Look(0);
    var q' := InsideBranch(v, p, rest);
    InsideMore(v, p, q + 1, rest);
    FitsMore(v.g, cell, p, q, rest);
    LessClear(v.c, m2, q, end, q + 1, end);
    assert m2[q] == 0;
  }

  lemma FitsMore(g: Groups, cell: nat, p: nat, q: nat, rest: PAlts)
    requires Fits(g, cell, p, rest) && rest.POr? && q == p + BranchUnits(rest.branch)
    ensures Fits(g, q, q + 1, rest.more)
  {
  }

  /** The branches of the lookbehind at p are being read; `rest` are left, and the unit `cell` is next to be written
      to. */
  ghost predicate Writing(v: Parsed, m0: Marks, m: Marks, p: nat, alts: PAlts, cell: nat, x: nat, rest: PAlts, end: nat,
                          calm: bool) {
    forall k: int {:trigger Look(k)} :: Look(k) ==>
      && p <= cell < x && (calm ==> cell == p) && Behinds(v, m, cell, x, rest, end, calm)
      && Moved(v, m0, m, p, if calm then p else end)
      && BothCovered(v.g, m, p, p + 1 + SIZEOFFSET, alts, cell, x, rest)
  }

  lemma WritingStart(v: Parsed, m: Marks, p: nat, x: nat, alts: PAlts, end: nat, calm: bool)
    requires p < |v.c| == |m| && IsLookbehind(v.c[p]) && x == p + 1 + SIZEOFFSET && Inside(v, x, alts)
    requires Fits(v.g, p, x, alts) && end == x + AltsUnits(alts) && |m| == |v.c|
    requires if calm then alts.PLast? && CalmAlts(alts) else Clear(v.c, m, p, end)
    ensures Writing(v, m, m, p, alts, p, x, alts, end, calm) && Moved(v, m, m, p, if calm then p else end)
  {
    MovedNot(v, m, p, if calm then p else end);
    if !calm { LessClear(v.c, m, p, end, x, end); }
  }

  lemma WritingOpen(v: Parsed, m0: Marks, m: Marks, p: nat, alts: PAlts, cell: nat, x: nat, rest: PAlts, end: nat,
                    calm: bool)
    requires Writing(v, m0, m, p, alts, cell, x, rest, end, calm)
    ensures p <= cell < x && (calm ==> cell == p) && Behinds(v, m, cell, x, rest, end, calm)
    ensures Moved(v, m0, m, p, if calm then p else end)
    ensures BothCovered(v.g, m, p, p + 1 + SIZEOFFSET, alts, cell, x, rest)
  {
    assert Look(0);
  }

  /** Every lookbehind that the walk from p comes to is known. */
  ghost predicate AllFound(v: Parsed, p: nat, end: nat, calm: bool) {
    forall k: int {:trigger Look(k)} :: Look(k) ==>
      forall q: nat {:trigger Meets(v.c, p, 0, q)} :: Meets(v.c, p, 0, q) ==> Found(v, q, p, end, calm)
  }

  /** The lengths have been written for all of them. */
  ghost predicate AllDone(v: Parsed, m: Marks, p: nat) {
    forall k: int {:trigger Look(k)} :: Look(k) ==>
      forall q: nat {:trigger Meets(v.c, p, 0, q)} :: Meets(v.c, p, 0, q) ==> BehindMarked(v.g, m, q)
  }

  lemma WritingMoved(v: Parsed, m0: Marks, m: Marks, m1: Marks, p: nat, alts: PAlts, cell: nat, x: nat, rest: PAlts,
                     end: nat, calm: bool)
    requires Writing(v, m0, m, p, alts, cell, x, rest, end, calm)
    requires Moved(v, m, m1, cell, if calm then cell else end)
    ensures Moved(v, m0, m1, p, if calm then p else end)
  {
    WritingOpen(v, m0, m, p, alts, cell, x, rest, end, calm);
    var hull := if calm then p else end;
    MovedTwice(v, m0, m, m1, p, hull, p, hull, cell, if calm then cell else end);
  }

  /** A branch has been read, and its length written. */
  lemma WritingNext(v: Parsed, m0: Marks, m: Marks, m1: Marks, p: nat, alts: PAlts, cell: nat, x: nat, k: nat,
                    rest: PAlts,
                    end: nat, calm: bool)
    requires Writing(v, m0, m, p, alts, cell, x, rest, end, calm)
    requires Moved(v, m, m1, cell, if calm then cell else end) && cell < |m1| && MarkKnown(v.g, cell, m1[cell])
    requires BranchDone(v.g, m1, x, rest.branch) && k == x + BranchUnits(rest.branch)
    requires rest.POr? ==> !calm && Behinds(v, m1, k, k + 1, rest.more, end, calm)
    ensures if rest.POr? then Writing(v, m0, m1, p, alts, k, k + 1, rest.more, end, calm)
            else BothMarked(v.g, m1, p, p + 1 + SIZEOFFSET, alts)
  {
    WritingOpen(v, m0, m, p, alts, cell, x, rest, end, calm);
    WritingMoved(v, m0, m, m1, p, alts, cell, x, rest, end, calm);
    MovedGrows(v, m, m1, cell, if calm then cell else end);
    BothCoveredNext(v.g, m, m1, p, p + 1 + SIZEOFFSET, alts, cell, x, k, rest);
  }

  /** What has not been read yet has not been written to, unless no lookbehind in it has more than one branch. */
  ghost predicate Unread(v: Parsed, m: Marks, p: nat, rest: PBranch, end: nat, calm: bool) {
    |m| == |v.c| && if calm then CalmBranch(rest) else Clear(v.c, m, p, end)
  }

  lemma UnreadLater(v: Parsed, m: Marks, p: nat, q: nat, rest: PBranch, rest': PBranch, end: nat, calm: bool)
    requires Unread(v, m, p, rest, end, calm) && p <= q && (rest' == rest || (rest.PCons? && rest' == rest.rest))
    ensures Unread(v, m, q, rest', end, calm)
  {
    assert Look(0);
    if !calm { LessClear(v.c, m, p, end, q, end); }
  }

  lemma UnreadAtom(v: Parsed, m: Marks, p: nat, q: nat, rest: PBranch, end: nat, calm: bool)
    requires Unread(v, m, p, rest, end, calm) && rest.PCons? && q <= end
    ensures if calm then CalmAtom(rest.atom) else Clear(v.c, m, p, q)
  {
    assert Look(0);
    if !calm { LessClear(v.c, m, p, end, p, q); }
  }

  lemma UnreadMoved(v: Parsed, m: Marks, m': Marks, p: nat, q: nat, rest: PBranch, end: nat, calm: bool)
    requires Unread(v, m, p, rest, end, calm) && rest.PCons? && p <= q
    requires Moved(v, m, m', p, if calm then p else q)
    ensures Unread(v, m', q, rest, end, calm) && Unread(v, m', q, rest.rest, end, calm)
  {
    assert Look(0);
    if !calm {
      LessClear(v.c, m, p, end, q, end);
      StillClear(v, m, m', p, if calm then p else q, q, end);
    }
  }

  lemma MovedGrows(v: Parsed, m: Marks, m': Marks, x: nat, y: nat)
    requires Moved(v, m, m', x, y)
    ensures Grows(v.g, m, m') && |m'| == |v.c|
  {
    assert Look(0);
  }

  lemma MovedWider(v: Parsed, m: Marks, m': Marks, x: nat, y: nat, x': nat, y': nat)
    requires Moved(v, m, m', x, y) && ((x' <= x && y <= y') || y <= x)
    ensures Moved(v, m, m', x', y')
  {
    assert Look(0);
  }

  lemma BracketKind(v: Parsed, p: nat, a: PAtom)
    requires a.Bracket? && ItemAt(v, p, a)
    ensures p < |v.c| && v.c[p] == a.open && Inside(v, p + a.head, a.alts)
    ensures p + AtomUnits(a) == p + a.head + AltsUnits(a.alts) + 1
    ensures NoWidth(a.kind) ==> LongAtom(v.g, a, 0, 0)
    ensures a.kind.BehindKind? ==> a.head == 1 + SIZEOFFSET
    ensures a.kind.AheadKind? ==> a.head == 1
  {
    ItemOpen(v, p, a);
    InsideBracket(v, p, a);
    BehindUnit(a);
  }

  /** What kind of bracket it is can be seen from its first unit. */
  lemma BracketUnit(v: Parsed, p: nat, a: PAtom)
    requires a.Bracket? && ItemAt(v, p, a)
    ensures p < |v.c| && v.c[p] == a.open && (IsLookahead(v.c[p]) <==> a.kind.AheadKind?)
    ensures IsLookbehind(v.c[p]) <==> a.kind.BehindKind?
    ensures Meta(v.c[p]) == META_COND_DEFINE <==> a.kind.DefinitionKind?
  {
    ItemOpen(v, p, a);
    assert Peek(0);
  }

  lemma HeadIs(u: int)
    ensures IsLookbehind(u) ==> HeadUnits(u) == 1 + SIZEOFFSET
    ensures IsLookahead(u) ==> HeadUnits(u) == 1
  {
  }

  lemma LookbehindBracket(v: Parsed, p: nat, a: PAtom) returns (k: nat)
    requires a.Bracket? && ItemAt(v, p, a) && a.kind.BehindKind?
    ensures p < |v.c| && v.c[p] == a.open && IsLookbehind(v.c[p]) && Inside(v, p + 1 + SIZEOFFSET, a.alts)
    ensures Fits(v.g, p, p + 1 + SIZEOFFSET, a.alts) && a.head == 1 + SIZEOFFSET
    ensures k == p + 1 + SIZEOFFSET + AltsUnits(a.alts) && k + 1 == p + AtomUnits(a)
  {
    BracketKind(v, p, a);
    BracketUnit(v, p, a);
    BracketFits(v, p, a);
    k := p + 1 + SIZEOFFSET + AltsUnits(a.alts);
  }

  lemma CalmContents(a: PAtom)
    requires a.Bracket? && CalmAtom(a)
    ensures CalmAlts(a.alts) && (a.kind.BehindKind? ==> a.alts.PLast?)
  {
    assert Look(0);
  }

  lemma BracketFits(v: Parsed, p: nat, a: PAtom)
    requires a.Bracket? && ItemAt(v, p, a) && a.kind.BehindKind?
    ensures Fits(v.g, p, p + a.head, a.alts)
  {
    ItemOpen(v, p, a);
  }

  lemma GroupBracket(v: Parsed, p: nat, a: PAtom) returns (x: nat, k: nat)
    requires a.Bracket? && ItemAt(v, p, a) && !NoWidth(a.kind)
    ensures p < x == p + a.head && k == x + AltsUnits(a.alts) && k + 1 == p + AtomUnits(a)
    ensures p < |v.c| && v.c[p] == a.open && Inside(v, x, a.alts)
    ensures Meta(a.open) == META_CAPTURE ==>
              && 0 < Data(a.open) <= v.count
              && (!v.dup ==> a.alts == v.g.contents(Data(a.open)) && x == v.g.at(Data(a.open)))
  {
    BracketKind(v, p, a);
    HeadSmall(v, p, p + a.head, a);
    if Meta(a.open) == META_CAPTURE { BracketNumber(v, p, a); }
    x := p + a.head;
    k := x + AltsUnits(a.alts);
  }

  lemma BracketNumber(v: Parsed, p: nat, a: PAtom)
    requires a.Bracket? && ItemAt(v, p, a) && Meta(a.open) == META_CAPTURE
    ensures 0 < Data(a.open) <= v.count
    ensures !v.dup ==> a.alts == v.g.contents(Data(a.open)) && p + a.head == v.g.at(Data(a.open))
  {
    ItemOpen(v, p, a);
    assert Peek(0);
  }

  lemma GroupLong(g: Groups, a: PAtom, d: nat, n: int)
    requires a.Bracket? && !NoWidth(a.kind) && forall d': nat :: d' >= d ==> AltsLength(g, a.alts, d') == Some(n)
    ensures LongAtom(g, a, d, n)
  {
  }

  /** The lookbehinds in a lookahead are those that the walk comes to from its start. */
  lemma LookaheadBody(v: Parsed, p: nat, a: PAtom, calm: bool) returns (k: nat)
    requires a.Bracket? && ItemAt(v, p, a) && a.kind.AheadKind? && (calm ==> CalmAtom(a))
    ensures k == p + 1 + AltsUnits(a.alts) && k + 1 == p + AtomUnits(a)
    ensures WalksTo(v.c, p + 1, Some(k)) && AllFound(v, p + 1, k, calm)
  {
    BracketKind(v, p, a);
    k := p + 1 + AltsUnits(a.alts);
    if calm { CalmContents(a); }
    WalkBody(v, p + 1, k, a.alts, calm);
  }

  lemma ContentsMarked(v: Parsed, m: Marks, x: nat, a: PAlts)
    requires Inside(v, x, a) && AllHad(v.c, x, a) && AllDone(v, m, x)
    ensures AltsDone(v.g, m, x, a)
  {
    InsideOpen(v, x, a);
    HadMarked(v, m, x, a);
    AltsAllMarked(v, m, x, a);
  }

  lemma HadMarked(v: Parsed, m: Marks, x: nat, a: PAlts)
    requires AllHad(v.c, x, a) && AllDone(v, m, x)
    ensures forall q: nat :: AltsHas(x, a, q) ==> BehindMarked(v.g, m, q)
  {
    assert Look(0);
    forall q: nat | AltsHas(x, a, q) ensures BehindMarked(v.g, m, q) { assert Meets(v.c, x, 0, q); }
  }

  lemma LookaheadMarked(v: Parsed, m: Marks, p: nat, a: PAtom)
    requires a.Bracket? && ItemAt(v, p, a) && a.kind.AheadKind?
    requires AllDone(v, m, p + 1)
    ensures AtomDone(v.g, m, p, a)
  {
    var x := p + 1;
    BracketKind(v, p, a);
    WalkBody(v, x, x + AltsUnits(a.alts), a.alts, false);
    ContentsMarked(v, m, x, a.alts);
    BracketDone(v.g, m, p, x, a);
  }

  /** There is nothing to write for an item that is no bracket, or for a definition. */
  lemma NothingDone(g: Groups, m: Marks, p: nat, a: PAtom)
    requires !a.Bracket? || a.kind.DefinitionKind?
    ensures AtomDone(g, m, p, a)
  {
  }

  lemma BracketDone(g: Groups, m: Marks, p: nat, x: nat, a: PAtom)
    requires a.Bracket? && x == p + a.head && AltsDone(g, m, x, a.alts)
    requires a.kind.BehindKind? ==> BothMarked(g, m, p, x, a.alts)
    ensures AtomDone(g, m, p, a)
  {
    assert Look(0);
  }

  lemma ReferenceUnit(v: Parsed, p: nat, a: PAtom)
    requires a.Reference? && ItemAt(v, p, a)
    ensures p < |v.c| && v.c[p] == a.unit && DataSize(v.c[p]).Some? && AtomUnits(a) == 1 + DataSize(v.c[p]).value
    ensures 0 < Data(a.unit) <= v.count ==> Data(a.unit) in v.g.used
  {
    ItemOpen(v, p, a);
    assert Peek(0);
  }

  lemma LookbehindDone(g: Groups, m: Marks, p: nat, a: PAtom)
    requires a.Bracket? && a.head == 1 + SIZEOFFSET && BothMarked(g, m, p, p + 1 + SIZEOFFSET, a.alts)
    ensures AtomDone(g, m, p, a)
  {
    assert Look(0);
    BracketDone(g, m, p, p + 1 + SIZEOFFSET, a);
  }

  /** A branch is being read: what has been read, and what is left from p on. */
  ghost predicate Scanning(v: Parsed, m: Marks, p0: nat, b: PBranch, p: nat, rest: PBranch, half: bool, last: int,
                           length: int, d: nat, end: nat, calm: bool) {
    && p < |v.c| && 0 <= length
    && forall k: int {:trigger Look(k)} :: Look(k) ==>
         && Place(v, p, rest, half, end) && Reading(v.g, b, rest, half, last, length, d)
         && Unread(v, m, p, rest, end, calm) && Covered(v.g, m, p0, b, p, rest, half)
  }

  lemma ScanningOpen(v: Parsed, m: Marks, p0: nat, b: PBranch, p: nat, rest: PBranch, half: bool, last: int,
                     length: int, d: nat, end: nat, calm: bool)
    requires Scanning(v, m, p0, b, p, rest, half, last, length, d, end, calm)
    ensures Place(v, p, rest, half, end) && Reading(v.g, b, rest, half, last, length, d)
    ensures Unread(v, m, p, rest, end, calm) && Covered(v.g, m, p0, b, p, rest, half)
    ensures p < |v.c| && (EndsBranch(v.c[p]) <==> rest.PNil? && !half) && (IsQuantifier(Meta(v.c[p])) <==> half)
    ensures p <= end < |v.c| && (EndsBranch(v.c[p]) ==> p == end)
  {
    assert Look(0);
    PlaceKind(v, p, rest, half, end);
  }

  lemma ScanningStart(v: Parsed, m: Marks, p: nat, b: PBranch, end: nat, calm: bool)
    requires Ahead(v, p, b) && end == p + BranchUnits(b) && |m| == |v.c|
    requires if calm then CalmBranch(b) else Clear(v.c, m, p, end)
    ensures Scanning(v, m, p, b, p, b, false, 0, 0, 0, end, calm)
  {
    PlaceStart(v, p, b);
    CoveredStart(v.g, m, p, b);
  }

  /** All has been read. */
  lemma ScanningEnd(v: Parsed, m: Marks, p0: nat, b: PBranch, p: nat, rest: PBranch, half: bool, last: int,
                    length: int, d: nat, end: nat, calm: bool)
    requires Scanning(v, m, p0, b, p, rest, half, last, length, d, end, calm) && EndsBranch(v.c[p])
    ensures p == end && BranchDone(v.g, m, p0, b)
    ensures forall d': nat :: d' >= d ==> BranchLength(v.g, b, d') == Some(length)
  {
    ScanningOpen(v, m, p0, b, p, rest, half, last, length, d, end, calm);
    ReadAll(v.g, b, last, length, d);
    CoveredAll(v.g, m, p0, b, p);
  }

  /** The next item. */
  lemma ScanningAtom(v: Parsed, m: Marks, p0: nat, b: PBranch, p: nat, q: nat, rest: PBranch, last: int, length: int,
                     d: nat, end: nat, calm: bool)
    requires Scanning(v, m, p0, b, p, rest, false, last, length, d, end, calm) && rest.PCons?
    requires q == p + AtomUnits(rest.atom)
    ensures ItemAt(v, p, rest.atom) && if calm then CalmAtom(rest.atom) else Clear(v.c, m, p, q)
    ensures p < q <= end < |v.c| && (rest.atom.Bracket? ==> v.c[p] == rest.atom.open)
    ensures IsLookahead(v.c[p]) <==> !Counts(rest.atom)
    ensures if rest.quant.NoQuant? then Place(v, q, rest.rest, false, end) else Place(v, q, rest, true, end)
  {
    ScanningOpen(v, m, p0, b, p, rest, false, last, length, d, end, calm);
    PlaceAtom(v, p, rest, end);
    ItemKind(v, p, rest.atom);
    UnreadAtom(v, m, p, q, rest, end, calm);
  }

  /** It has been read. */
  lemma ScanningItem(v: Parsed, m: Marks, m1: Marks, p0: nat, b: PBranch, p: nat, q: nat, rest: PBranch, last: int,
                     length: int, d: nat, end: nat, calm: bool, n: int, d1: nat)
    requires Scanning(v, m, p0, b, p, rest, false, last, length, d, end, calm) && rest.PCons? && Counts(rest.atom)
    requires q == p + AtomUnits(rest.atom) && Moved(v, m, m1, p, if calm then p else q)
    requires LongAtom(v.g, rest.atom, d1, n) && n >= 0 && AtomDone(v.g, m1, p, rest.atom)
    ensures var d2 := if d < d1 then d1 else d;
            if rest.quant.NoQuant? then Scanning(v, m1, p0, b, q, rest.rest, false, n, length + n, d2, end, calm)
            else Scanning(v, m1, p0, b, q, rest, true, n, length + n, d2, end, calm)
  {
    ScanningAtom(v, m, p0, b, p, q, rest, last, length, d, end, calm);
    ScanningOpen(v, m, p0, b, p, rest, false, last, length, d, end, calm);
    UnreadMoved(v, m, m1, p, q, rest, end, calm);
    MovedGrows(v, m, m1, p, if calm then p else q);
    CoveredAtom(v.g, m, m1, p0, b, p, rest, rest.quant.NoQuant?);
    ReadAtom(v.g, b, rest, last, length, d, n, d1);
  }

  lemma ScanningLookahead(v: Parsed, m: Marks, m1: Marks, p0: nat, b: PBranch, p: nat, q: nat, rest: PBranch, last: int,
                          length: int, d: nat, end: nat, calm: bool)
    requires Scanning(v, m, p0, b, p, rest, false, last, length, d, end, calm) && rest.PCons? && !Counts(rest.atom)
    requires q == p + AtomUnits(rest.atom) && Moved(v, m, m1, p, if calm then p else q)
    requires AtomDone(v.g, m1, p, rest.atom)
    ensures var z := q + QuantUnits(rest.quant);
            z < |v.c| && Scanning(v, m1, p0, b, z, rest.rest, false, 0, length, d, end, calm)
  {
    var z := q + QuantUnits(rest.quant);
    ScanningAtom(v, m, p0, b, p, q, rest, last, length, d, end, calm);
    ScanningOpen(v, m, p0, b, p, rest, false, last, length, d, end, calm);
    UnreadMoved(v, m, m1, p, q, rest, end, calm);
    MovedGrows(v, m, m1, p, if calm then p else q);
    CoveredAtom(v.g, m, m1, p0, b, p, rest, true);
    ReadLookahead(v.g, b, rest, last, length, d);
    if !rest.quant.NoQuant? { PlaceQuant(v, q, rest, end); }
    UnreadLater(v, m1, q, z, rest, rest.rest, end, calm);
  }

  // --- when a length is found -----------------------------------------------------------------------------

  /** The unit refers to group n. */
  predicate RefersTo(u: int, n: nat) { (Meta(u) == META_RECURSE || Meta(u) == META_BACKREF) && Data(u) == n }

  /** A group that can be called: it exists, its opening comes before its contents, and it does not refer to itself. */
  ghost predicate Callable(v: Parsed, n: nat) {
    && 0 < n <= v.count && n in v.g.used && 0 < v.g.at(n) <= |v.c| && v.c[v.g.at(n) - 1] == META_CAPTURE + n
    && forall q: nat {:trigger v.c[q]} :: v.g.at(n) <= q < v.g.at(n) + AltsUnits(v.g.contents(n)) && q < |v.c| ==>
         !RefersTo(v.c[q], n)
  }

  /** An item whose length is found, with references inside each other `lv` times at most: the lookbehinds in it can be
      read as well, and those in lookaheads, without references there. */
  ghost predicate SureAtom(v: Parsed, a: PAtom, lv: nat)
    decreases lv, a
  {
    match a
    case Simple(_) => true
    case Reference(unit, _) =>
      var contents := v.g.contents(Data(unit));
      && lv > 0 && Callable(v, Data(unit)) && (Meta(unit) == META_BACKREF ==> !v.dup)
      && SureAlts(v, contents, lv - 1) && AltsLength(v.g, contents, lv - 1).Some?
    case Bracket(kind, _, _, alts) =>
      kind.DefinitionKind? || if kind.AheadKind? then SureInside(v, alts) else SureAlts(v, alts, lv)
  }

  /** A branch whose length is found, when that of what comes before is `sum`: no sum on the way is too large. */
  ghost predicate SureBranch(v: Parsed, b: PBranch, lv: nat, sum: int)
    decreases lv, b
  {
    b.PCons? ==>
      var n := AtomLength(v.g, b.atom, lv);
      && SureAtom(v, b.atom, lv) && n.Some?
      && if Counts(b.atom) then sum + n.value <= LOOKBEHIND_MAX && SureQuant(v, b, n.value, lv, sum)
         else SureBranch(v, b.rest, lv, sum)
  }

  /** The same from the quantifier on. */
  ghost predicate SureQuant(v: Parsed, b: PBranch, n: int, lv: nat, sum: int)
    requires b.PCons?
    decreases lv, b, 0
  {
    var all := Repeated(Some(n), b.quant);
    all.Some? && sum + all.value <= LOOKBEHIND_MAX && SureBranch(v, b.rest, lv, sum + all.value)
  }

  ghost predicate SureAlts(v: Parsed, a: PAlts, lv: nat)
    decreases lv, a
  {
    SureBranch(v, a.branch, lv, 0) && (a.POr? ==> SureAlts(v, a.more, lv))
  }

  /** The lookbehinds in a lookahead can be read, whatever else is in it. */
  ghost predicate SureWithin(v: Parsed, a: PAtom)
    decreases 0, a
  {
    a.Bracket? ==> if a.kind.BehindKind? then SureAlts(v, a.alts, 0) else SureInside(v, a.alts)
  }

  ghost predicate SureThrough(v: Parsed, b: PBranch)
    decreases 0, b
  {
    b.PCons? ==> SureWithin(v, b.atom) && SureThrough(v, b.rest)
  }

  ghost predicate SureInside(v: Parsed, a: PAlts)
    decreases 0, a
  {
    SureThrough(v, a.branch) && (a.POr? ==> SureInside(v, a.more))
  }

  /** Where the scan of a branch is: at an item, or at the quantifier of the last one. */
  ghost predicate Staying(v: Parsed, rest: PBranch, half: bool, last: int, lv: nat, sum: int) {
    if half then rest.PCons? && AtomLength(v.g, rest.atom, lv) == Some(last) && SureQuant(v, rest, last, lv, sum - last)
    else SureBranch(v, rest, lv, sum)
  }

  /** The lookbehinds that the walk from p comes to can be read. */
  ghost predicate AllSure(v: Parsed, p: nat, lv: nat) {
    forall k: int {:trigger Look(k)} :: Look(k) ==>
      forall q: nat {:trigger Meets(v.c, p, 0, q)} :: Meets(v.c, p, 0, q) ==> SureAlts(v, v.g.looks(q), lv)
  }

  // --- more references inside each other do no harm

  lemma {:induction false} SureAtomMore(v: Parsed, a: PAtom, lv: nat, lv': nat)
    requires SureAtom(v, a, lv) && lv <= lv'
    ensures SureAtom(v, a, lv')
    decreases lv, a
  {
    match a
    case Simple(_) =>
    case Reference(unit, _) =>
      SureAltsMore(v, v.g.contents(Data(unit)), lv - 1, lv' - 1);
      AltsStable(v.g, v.g.contents(Data(unit)), lv - 1, lv' - 1);
    case Bracket(kind, _, _, alts) => if !kind.DefinitionKind? && !kind.AheadKind? { SureAltsMore(v, alts, lv, lv'); }
  }

  lemma {:induction false} SureBranchMore(v: Parsed, b: PBranch, lv: nat, lv': nat, sum: int)
    requires SureBranch(v, b, lv, sum) && lv <= lv'
    ensures SureBranch(v, b, lv', sum)
    decreases lv, b
  {
    if b.PCons? {
      var n := AtomLength(v.g, b.atom, lv).value;
      SureAtomMore(v, b.atom, lv, lv');
      AtomStable(v.g, b.atom, lv, lv');
      if Counts(b.atom) {
        assert SureQuant(v, b, n, lv, sum);
        SureBranchMore(v, b.rest, lv, lv', sum + Repeated(Some(n), b.quant).value);
        assert SureQuant(v, b, n, lv', sum);
      } else {
        SureBranchMore(v, b.rest, lv, lv', sum);
      }
    }
  }

  lemma {:induction false} SureAltsMore(v: Parsed, a: PAlts, lv: nat, lv': nat)
    requires SureAlts(v, a, lv) && lv <= lv'
    ensures SureAlts(v, a, lv')
    decreases lv, a
  {
    SureBranchMore(v, a.branch, lv, lv', 0);
    if a.POr? { SureAltsMore(v, a.more, lv, lv'); }
  }

  /** A group whose length is found. */
  ghost predicate SureGroup(v: Parsed, n: nat, lv: nat) {
    SureAlts(v, v.g.contents(n), lv) && AltsLength(v.g, v.g.contents(n), lv).Some?
  }

  lemma SureGroupMore(v: Parsed, n: nat, lv: nat, lv': nat)
    requires SureGroup(v, n, lv) && lv <= lv'
    ensures SureGroup(v, n, lv')
  {
    SureAltsMore(v, v.g.contents(n), lv, lv');
    AltsStable(v.g, v.g.contents(n), lv, lv');
  }

  lemma {:induction false} LeastSure(v: Parsed, n: nat, lv: nat) returns (k: nat)
    requires SureGroup(v, n, lv)
    ensures k <= lv && SureGroup(v, n, k) && (k > 0 ==> !SureGroup(v, n, k - 1))
  {
    k := lv;
    if k > 0 && SureGroup(v, n, k - 1) { k := LeastSure(v, n, k - 1); }
  }

  /** The groups that are being called: none of them can be found with so few references inside each other. */
  ghost predicate Chain(v: Parsed, recurses: seq<nat>, lv: nat) {
    forall k: int {:trigger Look(k)} :: Look(k) ==>
      forall r: nat {:trigger r in recurses} :: r in recurses ==>
        && r < |v.c| && v.c[r] >= META_CAPTURE
        && (lv > 0 ==> !SureGroup(v, v.c[r] - META_CAPTURE, lv - 1))
  }

  /** A group that is called is not being called already. */
  lemma NotInChain(v: Parsed, recurses: seq<nat>, lv: nat, start: nat, n: nat)
    requires Chain(v, recurses, lv) && lv > 0 && SureGroup(v, n, lv - 1) && start < |v.c|
             && v.c[start] == META_CAPTURE + n
    ensures start !in recurses
  {
    assert Look(0);
  }

  lemma ChainMore(v: Parsed, recurses: seq<nat>, lv: nat, start: nat, n: nat, k: nat)
    requires Chain(v, recurses, lv) && lv > k && start < |v.c| && v.c[start] == META_CAPTURE + n
    requires k > 0 ==> !SureGroup(v, n, k - 1)
    ensures Chain(v, recurses + [start], k)
  {
    assert Look(0);
    forall r: nat | r in recurses + [start]
      ensures r < |v.c| && v.c[r] >= META_CAPTURE && (k > 0 ==> !SureGroup(v, v.c[r] - META_CAPTURE, k - 1))
    {
      if r in recurses && k > 0 && SureGroup(v, v.c[r] - META_CAPTURE, k - 1) {
        SureGroupMore(v, v.c[r] - META_CAPTURE, k - 1, lv - 1);
      }
    }
  }

  lemma NoChain(v: Parsed, lv: nat)
    ensures Chain(v, [], lv)
  {
  }

  lemma ChainNone(v: Parsed, recurses: seq<nat>, lv: nat)
    requires Chain(v, recurses, lv)
    ensures Chain(v, recurses, 0)
  {
    assert Look(0);
  }

  lemma {:induction false} SureHas(v: Parsed, p: nat, a: PAtom, q: nat)
    requires NumberedAtom(v, p, a) && SureWithin(v, a) && AtomHas(p, a, q)
    ensures SureAlts(v, v.g.looks(q), 0)
    decreases a
  {
    if !a.kind.BehindKind? { SureAltsHave(v, p + a.head, a.alts, q); }
  }

  lemma {:induction false} SureBranchHas(v: Parsed, p: nat, b: PBranch, q: nat)
    requires NumberedBranch(v, p, b) && SureThrough(v, b) && BranchHas(p, b, q)
    ensures SureAlts(v, v.g.looks(q), 0)
    decreases b
  {
    if AtomHas(p, b.atom, q) {
      SureHas(v, p, b.atom, q);
    } else {
      SureBranchHas(v, p + AtomUnits(b.atom) + QuantUnits(b.quant), b.rest, q);
    }
  }

  lemma {:induction false} SureAltsHave(v: Parsed, p: nat, a: PAlts, q: nat)
    requires NumberedAlts(v, p, a) && SureInside(v, a) && AltsHas(p, a, q)
    ensures SureAlts(v, v.g.looks(q), 0)
    decreases a
  {
    if BranchHas(p, a.branch, q) {
      SureBranchHas(v, p, a.branch, q);
    } else {
      SureAltsHave(v, p + BranchUnits(a.branch) + 1, a.more, q);
    }
  }

  lemma SureBody(v: Parsed, x: nat, k: nat, a: PAlts)
    requires Inside(v, x, a) && k == x + AltsUnits(a) && SureInside(v, a)
    ensures AllSure(v, x, 0)
  {
    InsideOpen(v, x, a);
    WalkBody(v, x, k, a, false);
    SureBodyHas(v, x, a);
  }

  lemma SureBodyHas(v: Parsed, x: nat, a: PAlts)
    requires NumberedAlts(v, x, a) && SureInside(v, a) && AllHad(v.c, x, a)
    ensures AllSure(v, x, 0)
  {
    assert Look(0);
    forall q: nat | Meets(v.c, x, 0, q) ensures SureAlts(v, v.g.looks(q), 0) { SureAltsHave(v, x, a, q); }
  }

  lemma SureHere(v: Parsed, m: Marks, p: nat, nest: nat, p0: nat, lv: nat)
    requires AllSure(v, p0, lv) && Checked(v, m, p0, p, nest) && p < |v.c| && StepAt(v.c, p, nest).Enter?
    ensures SureAlts(v, v.g.looks(p), lv)
  {
    assert Look(0);
    assert Meets(v.c, p, nest, p);
    assert Meets(v.c, p0, 0, p);
  }

  /** The length that is found is the one that can be seen. */
  lemma SureLong(g: Groups, a: PAtom, lv: nat, d: nat, n: int)
    requires AtomLength(g, a, lv).Some? && LongAtom(g, a, d, n)
    ensures AtomLength(g, a, lv) == Some(n)
  {
    AtomStable(g, a, lv, if d < lv then lv else d);
  }

  lemma SureBranchLong(g: Groups, b: PBranch, lv: nat, d: nat, n: int)
    requires BranchLength(g, b, lv).Some? && forall d': nat :: d' >= d ==> BranchLength(g, b, d') == Some(n)
    ensures BranchLength(g, b, lv) == Some(n)
  {
    BranchStable(g, b, lv, if d < lv then lv else d);
  }

  /** An item has been read. */
  lemma StayingItem(v: Parsed, rest: PBranch, last: int, lv: nat, sum: int, n: int)
    requires Staying(v, rest, false, last, lv, sum) && rest.PCons? && AtomLength(v.g, rest.atom, lv) == Some(n)
    ensures Counts(rest.atom) ==> sum + n <= LOOKBEHIND_MAX
    ensures Counts(rest.atom) ==> if rest.quant.NoQuant? then Staying(v, rest.rest, false, n, lv, sum + n)
                                  else Staying(v, rest, true, n, lv, sum + n)
    ensures !Counts(rest.atom) ==> Staying(v, rest.rest, false, 0, lv, sum)
  {
    if Counts(rest.atom) { assert SureQuant(v, rest, n, lv, sum); }
    assert Repeated(Some(n), NoQuant) == Some(n);
  }

  lemma StayingAtom(v: Parsed, rest: PBranch, last: int, lv: nat, sum: int)
    requires Staying(v, rest, false, last, lv, sum) && rest.PCons?
    ensures SureAtom(v, rest.atom, lv) && AtomLength(v.g, rest.atom, lv).Some?
  {
  }

  /** A quantifier has been read. */
  lemma StayingQuant(v: Parsed, rest: PBranch, last: int, lv: nat, sum: int, n: int)
    requires Staying(v, rest, true, last, lv, sum) && rest.PCons?
    ensures rest.quant.NoQuant? || (rest.quant.Counted? && rest.quant.min == rest.quant.max)
    ensures rest.quant.Counted? ==>
              var more := (rest.quant.min - 1) * last;
              sum + more <= LOOKBEHIND_MAX && Staying(v, rest.rest, false, n, lv, sum + more)
  {
    if rest.quant.Counted? { assert rest.quant.min * last == last + (rest.quant.min - 1) * last; }
  }

  lemma NoOverflow(a: int, b: int)
    requires 0 <= a && 0 < b && a * b <= LOOKBEHIND_MAX
    ensures a <= INT_MAX / b
  {
    var q := INT_MAX / b;
    assert q * b + INT_MAX % b == INT_MAX;
    assert (q + 1) * b == q * b + b;
    if q < a { Product(q + 1, a, b); }
  }

  lemma NoRoom(a: int, b: int)
    requires 0 < b && INT_MAX / b < a
    ensures a * b > LOOKBEHIND_MAX
  {
    if a * b <= LOOKBEHIND_MAX { NoOverflow(a, b); }
  }

  lemma Product(a: int, b: int, c: int)
    requires a <= b && 0 <= c
    ensures a * c <= b * c
  {
  }

  /** The brackets and ALTs from p to y: no more branches than that are scanned there. */
  function Openers(c: Code, p: nat, y: nat): nat
    decreases if p < y then y - p else 0
  {
    if p < y && p < |c| then (if IsOpening(c[p]) || c[p] == META_ALT then 1 else 0) + Openers(c, p + 1, y) else 0
  }

  lemma {:induction false} OpenersSplit(c: Code, p: nat, q: nat, y: nat)
    requires p <= q <= y
    ensures Openers(c, p, y) == Openers(c, p, q) + Openers(c, q, y)
    decreases q - p
  {
    if p < q && p < |c| {
      OpenersSplit(c, p + 1, q, y);
    } else if p < q {
      assert Openers(c, q, y) == 0;
    }
  }

  lemma {:induction false} OpenersLess(c: Code, p: nat, q: nat, y: nat)
    requires p <= q
    ensures Openers(c, q, y) <= Openers(c, p, y)
    decreases q - p
  {
    if p < q { OpenersLess(c, p + 1, q, y); }
  }

  // --- the branches of groups that are called

  /** The branches that are scanned for the references in an item. */
  function CostAtom(v: Parsed, a: PAtom, lv: nat): nat
    decreases lv, a
  {
    match a
    case Simple(_) => 0
    case Reference(unit, _) =>
      if lv == 0 then 0 else CostCall(v, Data(unit)) + CostAlts(v, v.g.contents(Data(unit)), lv - 1)
    case Bracket(kind, _, _, alts) => if kind.DefinitionKind? || kind.AheadKind? then 0 else CostAlts(v, alts, lv)
  }

  function CostCall(v: Parsed, n: nat): nat { 1 + Openers(v.c, v.g.at(n), v.g.at(n) + AltsUnits(v.g.contents(n))) }

  function CostBranch(v: Parsed, b: PBranch, lv: nat): nat
    decreases lv, b
  {
    if b.PNil? then 0 else CostAtom(v, b.atom, lv) + CostBranch(v, b.rest, lv)
  }

  function CostAlts(v: Parsed, a: PAlts, lv: nat): nat
    decreases lv, a
  {
    CostBranch(v, a.branch, lv) + if a.POr? then CostAlts(v, a.more, lv) else 0
  }

  /** For what is left of a branch: the first item has been read when only its quantifier is left of it. */
  function CostRest(v: Parsed, rest: PBranch, half: bool, lv: nat): nat {
    if half then (if rest.PCons? then CostBranch(v, rest.rest, lv) else 0) else CostBranch(v, rest, lv)
  }

  lemma {:induction false} CostAltsMore(v: Parsed, a: PAlts, lv: nat, lv': nat)
    requires lv <= lv'
    ensures CostAlts(v, a, lv) <= CostAlts(v, a, lv')
    decreases lv, a
  {
    CostBranchMore(v, a.branch, lv, lv');
    if a.POr? { CostAltsMore(v, a.more, lv, lv'); }
  }

  lemma {:induction false} CostBranchMore(v: Parsed, b: PBranch, lv: nat, lv': nat)
    requires lv <= lv'
    ensures CostBranch(v, b, lv) <= CostBranch(v, b, lv')
    decreases lv, b
  {
    if b.PCons? {
      CostAtomMore(v, b.atom, lv, lv');
      CostBranchMore(v, b.rest, lv, lv');
    }
  }

  lemma {:induction false} CostAtomMore(v: Parsed, a: PAtom, lv: nat, lv': nat)
    requires lv <= lv'
    ensures CostAtom(v, a, lv) <= CostAtom(v, a, lv')
    decreases lv, a
  {
    match a
    case Simple(_) =>
    case Reference(unit, _) => if lv > 0 { CostAltsMore(v, v.g.contents(Data(unit)), lv - 1, lv' - 1); }
    case Bracket(_, _, _, alts) => CostAltsMore(v, alts, lv, lv');
  }

  lemma {:induction false} CostNone(v: Parsed, a: PAlts)
    ensures CostAlts(v, a, 0) == 0
    decreases a
  {
    CostNoneBranch(v, a.branch);
    if a.POr? { CostNone(v, a.more); }
  }

  lemma {:induction false} CostNoneBranch(v: Parsed, b: PBranch)
    ensures CostBranch(v, b, 0) == 0
    decreases b
  {
    if b.PCons? {
      if b.atom.Bracket? { CostNone(v, b.atom.alts); }
      CostNoneBranch(v, b.rest);
    }
  }

  /** For the lookbehinds that the walk comes to. */
  function WalkCost(v: Parsed, p: nat, nest: nat, lv: nat): nat
    decreases |v.c| - p
  {
    if p >= |v.c| then 0
    else
      match StepAt(v.c, p, nest)
      case Stop(_) => 0
      case Enter(k) => CostAlts(v, v.g.looks(p), lv) + WalkCost(v, k + 1, nest, lv)
      case Go(p', nest') => WalkCost(v, p', nest', lv)
  }

  lemma {:induction false} WalkCostNone(v: Parsed, p: nat, nest: nat)
    ensures WalkCost(v, p, nest, 0) == 0
    decreases |v.c| - p
  {
    if p < |v.c| {
      match StepAt(v.c, p, nest)
      case Stop(_) =>
      case Enter(k) =>
        CostNone(v, v.g.looks(p));
        WalkCostNone(v, k + 1, nest);
      case Go(p', nest') => WalkCostNone(v, p', nest');
    }
  }

  lemma WalkCostStep(v: Parsed, p: nat, nest: nat, lv: nat)
    requires p < |v.c|
    ensures StepAt(v.c, p, nest).Go? ==>
              WalkCost(v, p, nest, lv) == WalkCost(v, StepAt(v.c, p, nest).p, StepAt(v.c, p, nest).nest, lv)
    ensures StepAt(v.c, p, nest).Enter? ==>
              WalkCost(v, p, nest, lv) == CostAlts(v, v.g.looks(p), lv)
                    + WalkCost(v, StepAt(v.c, p, nest).ket + 1, nest, lv)
  {
  }

  /** A part, and what comes after it. */
  lemma OpenersPart(c: Code, p: nat, q: nat, y: nat)
    requires p <= q <= y
    ensures Openers(c, p, q) + Openers(c, q, y) <= Openers(c, p, y)
  {
    OpenersSplit(c, p, q, y);
  }

  /** The contents of a bracket, with the first branch. */
  lemma OpenersInside(c: Code, p: nat, x: nat, k: nat, y: nat)
    requires p < x <= k <= y && p < |c| && (IsOpening(c[p]) || c[p] == META_ALT)
    ensures 1 + Openers(c, x, k) <= Openers(c, p, y)
  {
    OpenersLess(c, p + 1, x, y);
    OpenersSplit(c, x, k, y);
  }

  lemma OpenersLook(c: Code, p: nat, k: nat, y: nat)
    requires p + 1 + SIZEOFFSET <= k <= y && p < |c| && IsLookbehind(c[p])
    ensures 1 + Openers(c, p + 1 + SIZEOFFSET, k) <= Openers(c, p, y)
  {
    OpenersInside(c, p, p + 1 + SIZEOFFSET, k, y);
  }

  /** The first of some alternatives, and the others, after its ALT. */
  lemma OpenersBranch(v: Parsed, p: nat, q: nat, end: nat, a: PAlts)
    requires Inside(v, p, a) && q == p + BranchUnits(a.branch) && end == p + AltsUnits(a)
    ensures q <= end && Openers(v.c, p, q) <= Openers(v.c, p, end)
    ensures a.POr? ==> Openers(v.c, p, q) + 1 + Openers(v.c, q + 1, end) <= Openers(v.c, p, end)
  {
    var k := InsideBranch(v, p, a);
    if a.POr? { InsideMore(v, p, q + 1, a); }
    OpenersSplit(v.c, p, q, end);
    if a.POr? { OpenersInside(v.c, q, q + 1, end, end); }
  }

  lemma SureLookahead(v: Parsed, p: nat, a: PAtom, k: nat)
    requires a.Bracket? && ItemAt(v, p, a) && a.kind.AheadKind? && SureInside(v, a.alts)
             && k == p + 1 + AltsUnits(a.alts)
    ensures AllSure(v, p + 1, 0)
  {
    BracketKind(v, p, a);
    SureBody(v, p + 1, k, a.alts);
  }

  /** The branches that are scanned for the lookbehind at p. */
  function WorkBehind(v: Parsed, p: nat, lv: nat): nat {
    var x := p + 1 + SIZEOFFSET;
    1 + Openers(v.c, x, x + AltsUnits(v.g.looks(p))) + CostAlts(v, v.g.looks(p), lv)
  }

  /** A lookbehind on the walk that is sure to have its lengths found, and what comes after it. */
  lemma SureStep(v: Parsed, m: Marks, p: nat, nest: nat, p0: nat, end: nat, calm: bool, lv: nat)
      returns (work: nat, left: nat)
    requires AllSure(v, p0, lv) && Checked(v, m, p0, p, nest) && Clean(v.c, p, nest) && AllFound(v, p0, end, calm)
    requires p < |v.c| && StepAt(v.c, p, nest).Enter?
    ensures var ket := StepAt(v.c, p, nest).ket;
            && SureAlts(v, v.g.looks(p), lv)
            && left == Openers(v.c, ket + 1, end) + WalkCost(v, ket + 1, nest, lv)
    ensures work == WorkBehind(v, p, lv) && work + left <= Openers(v.c, p, end) + WalkCost(v, p, nest, lv)
  {
    var ket := StepAt(v.c, p, nest).ket;
    FoundHere(v, m, p, nest, end, p0, calm);
    SureHere(v, m, p, nest, p0, lv);
    work, left := StepWork(v, p, nest, ket, end, lv);
  }

  lemma StepWork(v: Parsed, p: nat, nest: nat, ket: nat, end: nat, lv: nat) returns (work: nat, left: nat)
    requires p < |v.c| && IsLookbehind(v.c[p]) && StepAt(v.c, p, nest) == Enter(ket) && ket < end
    requires ket == p + 1 + SIZEOFFSET + AltsUnits(v.g.looks(p))
    ensures left == Openers(v.c, ket + 1, end) + WalkCost(v, ket + 1, nest, lv)
    ensures work == WorkBehind(v, p, lv) && work + left <= Openers(v.c, p, end) + WalkCost(v, p, nest, lv)
  {
    var o1, o2 := OpenersAround(v.c, p, p + 1 + SIZEOFFSET, ket, end);
    var w := WalkCostEnter(v, p, nest, ket, lv);
    work := 1 + o1 + CostAlts(v, v.g.looks(p), lv);
    left := o2 + w;
  }

  lemma OpenersAround(c: Code, p: nat, x: nat, ket: nat, end: nat) returns (o1: nat, o2: nat)
    requires p < |c| && IsLookbehind(c[p]) && x == p + 1 + SIZEOFFSET <= ket < end
    ensures o1 == Openers(c, x, ket) && o2 == Openers(c, ket + 1, end) && 1 + o1 + o2 <= Openers(c, p, end)
  {
    OpenersLook(c, p, ket, ket + 1);
    OpenersPart(c, p, ket + 1, end);
    o1, o2 := Openers(c, x, ket), Openers(c, ket + 1, end);
  }

  lemma WalkCostEnter(v: Parsed, p: nat, nest: nat, ket: nat, lv: nat) returns (w: nat)
    requires p < |v.c| && StepAt(v.c, p, nest) == Enter(ket)
    ensures w == WalkCost(v, ket + 1, nest, lv) && WalkCost(v, p, nest, lv) == CostAlts(v, v.g.looks(p), lv) + w
  {
    w := WalkCost(v, ket + 1, nest, lv);
  }

  /** The walk comes to no unit that is out of range. */
  predicate Proceeds(c: Code, p: nat, nest: nat)
    decreases |c| - p
  {
    p < |c| ==>
      && !OutOfRange(c[p])
      && match StepAt(c, p, nest)
         case Stop(_) => true
         case Enter(k) => Proceeds(c, k + 1, nest)
         case Go(p', nest') => Proceeds(c, p', nest')
  }

  predicate OutOfRange(u: int) { u > META_END && (Meta(u) == META_END || Meta(u) > META_MINMAX_QUERY) }

  lemma {:induction false} EndProceeds(c: Code, p: nat, nest: nat)
    requires WalkEnd(c, p, nest).Some?
    ensures Proceeds(c, p, nest)
    decreases |c| - p
  {
    if p < |c| {
      match StepAt(c, p, nest)
      case Stop(_) =>
      case Enter(k) => EndProceeds(c, k + 1, nest);
      case Go(p', nest') => EndProceeds(c, p', nest');
    }
  }

  ghost predicate Clean(c: Code, p: nat, nest: nat) {
    forall k: int {:trigger Look(k)} :: Look(k) ==> Proceeds(c, p, nest)
  }

  lemma CleanUnit(c: Code, p: nat, nest: nat)
    requires Clean(c, p, nest) && p < |c|
    ensures !OutOfRange(c[p])
  {
    assert Look(0);
  }

  lemma CleanGo(c: Code, p: nat, nest: nat, p': nat, nest': nat)
    requires Clean(c, p, nest) && p < |c| && StepAt(c, p, nest) == Go(p', nest')
    ensures Clean(c, p', nest')
  {
    assert Look(0);
  }

  lemma CleanEnter(c: Code, p: nat, nest: nat, k: nat)
    requires Clean(c, p, nest) && p < |c| && StepAt(c, p, nest) == Enter(k)
    ensures Clean(c, k + 1, nest)
  {
    assert Look(0);
  }

  lemma CleanBody(c: Code, p: nat, k: nat)
    requires WalksTo(c, p, Some(k))
    ensures Clean(c, p, 0)
  {
    assert Look(0);
    EndProceeds(c, p, 0);
  }

  ghost predicate NoneFailed(infos: seq<GroupInfo>) {
    forall n {:trigger infos[n]} :: 0 <= n < |infos| ==> !infos[n].notFixed
  }

  // --- branches that are sure to have a length --------------------------------------------------------------

  /** Without references, lookarounds and definitions, and without repeats of zero copies. */
  predicate Steady(a: PAtom) {
    match a
    case Simple(_) => true
    case Reference(_, _) => false
    case Bracket(kind, _, _, alts) => !NoWidth(kind) && SteadyAlts(alts)
  }

  predicate SteadyBranch(b: PBranch) {
    b.PCons? ==> Steady(b.atom) && (b.quant.Counted? ==> b.quant.min > 0) && SteadyBranch(b.rest)
  }

  predicate SteadyAlts(a: PAlts) { SteadyBranch(a.branch) && (a.POr? ==> SteadyAlts(a.more)) }

  lemma {:induction false} AtomWide(g: Groups, a: PAtom)
    requires Steady(a) && AtomLength(g, a, 0).Some?
    ensures AtomLength(g, a, 0).value >= 0
    decreases a
  {
    if a.Bracket? { AltsWide(g, a.alts); }
  }

  lemma {:induction false} BranchWide(g: Groups, b: PBranch)
    requires SteadyBranch(b) && BranchLength(g, b, 0).Some?
    ensures BranchLength(g, b, 0).value >= 0
    ensures b.PCons? ==> AtomLength(g, b.atom, 0).Some? && Repeated(AtomLength(g, b.atom, 0), b.quant).Some?
                         && BranchLength(g, b.rest, 0).Some?
    ensures b.PCons? ==> var n, all := AtomLength(g, b.atom, 0).value,
        Repeated(AtomLength(g, b.atom, 0), b.quant).value;
                         0 <= n <= all && BranchLength(g, b, 0).value == all + BranchLength(g, b.rest, 0).value >= all
    decreases b
  {
    if b.PCons? {
      AtomWide(g, b.atom);
      BranchWide(g, b.rest);
      if b.quant.Counted? { Product(1, b.quant.min, AtomLength(g, b.atom, 0).value); }
    }
  }

  lemma {:induction false} AltsWide(g: Groups, a: PAlts)
    requires SteadyAlts(a) && AltsLength(g, a, 0).Some?
    ensures AltsLength(g, a, 0).value >= 0 && BranchLength(g, a.branch, 0) == AltsLength(g, a, 0)
    ensures a.POr? ==> AltsLength(g, a.more, 0) == AltsLength(g, a, 0)
    decreases a
  {
    BranchWide(g, a.branch);
  }

  lemma {:induction false} SteadySure(v: Parsed, b: PBranch, sum: int)
    requires SteadyBranch(b) && BranchLength(v.g, b, 0).Some? && 0 <= sum
    requires sum + BranchLength(v.g, b, 0).value <= LOOKBEHIND_MAX
    ensures SureBranch(v, b, 0, sum)
    decreases b
  {
    if b.PCons? {
      var n, all := AtomLength(v.g, b.atom, 0), Repeated(AtomLength(v.g, b.atom, 0), b.quant);
      BranchWide(v.g, b);
      BranchWide(v.g, b.rest);
      SteadyAtomSure(v, b.atom);
      SteadySure(v, b.rest, sum + all.value);
      assert SureQuant(v, b, n.value, 0, sum);
    }
  }

  lemma {:induction false} SteadyAtomSure(v: Parsed, a: PAtom)
    requires Steady(a) && AtomLength(v.g, a, 0).Some? && AtomLength(v.g, a, 0).value <= LOOKBEHIND_MAX
    ensures SureAtom(v, a, 0)
    decreases a
  {
    if a.Bracket? { SteadyAltsSure(v, a.alts); }
  }

  lemma {:induction false} SteadyAltsSure(v: Parsed, a: PAlts)
    requires SteadyAlts(a) && AltsLength(v.g, a, 0).Some? && AltsLength(v.g, a, 0).value <= LOOKBEHIND_MAX
    ensures SureAlts(v, a, 0)
    decreases a
  {
    AltsWide(v.g, a);
    SteadySure(v, a.branch, 0);
    if a.POr? { SteadyAltsSure(v, a.more); }
  }

  /** A branch that is sure to have a length has one, and no other can be found. */
  lemma {:induction false} SureHasLength(v: Parsed, b: PBranch, lv: nat, sum: int)
    requires SureBranch(v, b, lv, sum)
    ensures BranchLength(v.g, b, lv).Some?
    decreases b
  {
    if b.PCons? {
      if Counts(b.atom) {
        var n := AtomLength(v.g, b.atom, lv).value;
        assert SureQuant(v, b, n, lv, sum);
        SureHasLength(v, b.rest, lv, sum + Repeated(Some(n), b.quant).value);
      } else {
        SureHasLength(v, b.rest, lv, sum);
      }
    }
  }

  lemma SureIs(v: Parsed, b: PBranch, lv: nat, d: nat, n: int)
    requires SureBranch(v, b, lv, 0) && forall d': nat :: d' >= d ==> BranchLength(v.g, b, d') == Some(n)
    ensures BranchLength(v.g, b, lv) == Some(n)
  {
    SureHasLength(v, b, lv, 0);
    SureBranchLong(v.g, b, lv, d, n);
  }

  // --- steps of the walk over all lookbehinds ---------------------------------------------------------------

  /** The lengths of the lookbehind at p have been written. */
  lemma MovedOn(v: Parsed, m0: Marks, m: Marks, m1: Marks, p0: nat, p: nat, ket: nat, end: nat, calm: bool)
    requires Moved(v, m0, m, p0, if calm then p0 else end) && Moved(v, m, m1, p, if calm then p else ket)
    requires p0 <= p && ket <= end
    ensures Moved(v, m0, m1, p0, if calm then p0 else end)
  {
    var hull := if calm then p0 else end;
    MovedTwice(v, m0, m, m1, p0, hull, p0, hull, p, if calm then p else ket);
  }

  lemma CheckedOn(v: Parsed, m: Marks, m1: Marks, p0: nat, p: nat, nest: nat, k: nat, end: nat, calm: bool)
    requires Checked(v, m, p0, p, nest) && p < |v.c| && StepAt(v.c, p, nest) == Enter(k)
    requires Moved(v, m, m1, p, if calm then p else k) && BehindMarked(v.g, m1, p) && (calm || Clear(v.c, m, p, end))
    ensures Checked(v, m1, p0, k + 1, nest) && (calm || Clear(v.c, m1, k + 1, end))
  {
    MovedGrows(v, m, m1, p, if calm then p else k);
    CheckedEnter(v, m, m1, p0, p, nest, k);
    if !calm {
      LessClear(v.c, m, p, end, k + 1, end);
      StillClear(v, m, m1, p, k, k + 1, end);
    }
  }

  /** A unit that is no lookbehind. */
  lemma WalkOn(v: Parsed, m: Marks, p: nat, next: nat, end: nat, nest: nat, nest': nat, calm: bool, lv: nat)
    requires p < |v.c| && StepAt(v.c, p, nest) == Go(next, nest') && (calm || Clear(v.c, m, p, end))
    ensures calm || Clear(v.c, m, next, end)
    ensures Openers(v.c, next, end) <= Openers(v.c, p, end) && WalkCost(v, next, nest', lv) == WalkCost(v, p, nest, lv)
  {
    if !calm { LessClear(v.c, m, p, end, next, end); }
    OpenersLess(v.c, p, next, end);
    WalkCostStep(v, p, nest, lv);
  }

  // --- the scan -------------------------------------------------------------------------------------

  /** What the scan is given, and what it keeps: an error, a count of the branches that have been scanned, the cache,
      the largest length, and the lengths written into the pattern, which are kept beside its units here. */
  class LengthFinder {
    const c: Code
    const bracount: nat
    const dup: bool
    const matchUnset: bool
    const groupinfo: array<GroupInfo>
    const marks: array<nat>
    var maxLookbehind: nat
    var errorcode: int
    var loops: nat
    ghost const v: Parsed

    ghost predicate Valid()
      reads this, groupinfo, marks
    {
      && v.c == c && v.count == bracount && v.dup == dup && groupinfo.Length == bracount + 1 && marks.Length == |c|
      && GroupsFound(v) && Keeps(v, marks[..], groupinfo[..], maxLookbehind)
    }

    /** No group has failed so far, and so many branches may still be scanned; the groups that are being called are not
        called again. */
    ghost predicate Ready(n: nat, recurses: seq<nat>, lv: nat)
      reads this, groupinfo
    {
      loops + n <= 2001 && NoneFailed(groupinfo[..]) && !matchUnset && Chain(v, recurses, lv)
    }

    function Budget(): nat
      reads this
    {
      if loops > 2000 then 0 else 2001 - loops
    }

    constructor (c: Code, bracount: nat, dup: bool, matchUnset: bool, ghost g: Groups)
      requires GroupsFound(Parsed(c, g, bracount, dup))
      ensures Valid() && v == Parsed(c, g, bracount, dup) && fresh(groupinfo) && fresh(marks)
      ensures errorcode == 0 && forall q: nat :: q < |c| ==> marks[q] == 0
      ensures loops == 0 && NoneFailed(groupinfo[..]) && this.matchUnset == matchUnset
    {
      this.c, this.bracount, this.dup, this.matchUnset := c, bracount, dup, matchUnset;
      errorcode, loops, maxLookbehind := 0, 0, 0;
      groupinfo := new GroupInfo[bracount + 1](_ => GroupInfo(false, false, 0));
      marks := new nat[|c|](_ => 0);
      v := Parsed(c, g, bracount, dup);
    }

    /** An item that is neither a group nor a reference; -1 if its length is not fixed. */
    method SimpleLength(p: nat, ghost a: PAtom) returns (length: int, next: nat)
      requires v.c == c && a.Simple? && ItemAt(v, p, a)
      modifies this`errorcode
      ensures length >= 0 ==> next == p + AtomUnits(a) && LongAtom(v.g, a, 0, length)
      ensures (exists lv: nat :: AtomLength(v.g, a, lv).Some?) ==> length >= 0
    {
      ghost var units := a.units;
      ItemOpen(v, p, a);
      assert Peek(0);
      var u := c[p];
      assert u == c[p..p + |units|][0];
      length, next := 0, p + 1;
      if u < META_END || u == META_DOT || u == META_CLASS_EMPTY_NOT {
        length := 1;
      } else if Meta(u) == META_BIGVALUE {
        length, next := 1, p + 2;
      } else if u == META_CLASS || u == META_CLASS_NOT {
        SkipsClass(c, p, units);
        var end := ParsedSkip(c, p, ToClassEnd);
        length, next := 1, end.value + 1;
      } else if u == META_CIRCUMFLEX || u == META_DOLLAR {
      } else if Meta(u) == META_OPTIONS {
        next := p + 2;
      } else if Meta(u) == META_CALLOUT_NUMBER {
        next := p + 4;
      } else if Meta(u) == META_CALLOUT_STRING {
        next := p + 4 + SIZEOFFSET;
      } else if Meta(u) == META_ESCAPE {
        var escape := Data(u);
        if escape == ESC_R || escape == ESC_X { return -1, p; }
        if ESC_b < escape < ESC_Z {
          length := 1;
          if escape == ESC_p || escape == ESC_P { next := p + 2; }
        }
      } else {
        errorcode := ERR25;
        length := -1;
      }
    }

    /** The length of a branch at p, and where it ends; -1 if it is not fixed, or not to be found. The lengths of the
        lookbehinds in the branch are written. It is found where the branch is sure to have a length and there are not
        too many branches in it. */
    method GetBranchLength(p0: nat, recurses: seq<nat>, ghost b: PBranch, ghost end: nat, ghost calm: bool,
                           ghost sure: bool, ghost lv: nat)
        returns (length: int, p: nat, ghost d: nat)
      requires Valid() && Ahead(v, p0, b) && end == p0 + BranchUnits(b)
      requires if calm then CalmBranch(b) else Clear(c, marks[..], p0, end)
      requires sure ==> SureBranch(v, b, lv, 0) && Ready(1 + Openers(c, p0, end) + CostBranch(v, b, lv), recurses, lv)
      modifies this`errorcode, this`loops, this`maxLookbehind, groupinfo, marks
      ensures Valid() && loops >= old(loops)
      ensures Moved(v, old(marks[..]), marks[..], p0, if calm then p0 else end)
      ensures sure ==> length >= 0 && BranchLength(v.g, b, lv) == Some(length) && NoneFailed(groupinfo[..])
      ensures sure ==> loops <= old(loops) + 1 + Openers(c, p0, end) + CostBranch(v, b, lv)
      ensures length >= 0 ==> p == end && length <= LOOKBEHIND_MAX && BranchDone(v.g, marks[..], p0, b)
      ensures length >= 0 ==> forall d': nat :: d' >= d ==> BranchLength(v.g, b, d') == Some(length)
      decreases Budget(), 0
    {
      length, p, d := 0, p0, 0;
      loops := loops + 1;
      MovedNot(v, marks[..], p0, p0);
      if loops - 1 > 2000 {
        errorcode := ERR35;
        MovedNot(v, marks[..], p0, if calm then p0 else end);
        return -1, p, d;
      }
      var lastitemlength := 0;
      ghost var m0 := marks[..];
      ghost var rest, half := b, false;
      ghost var hull := if calm then p0 else end;
      ScanningStart(v, m0, p0, b, end, calm);
      MovedNot(v, m0, p0, hull);
      while true
        invariant Valid() && loops > old(loops) && length <= LOOKBEHIND_MAX && p0 <= p
                  && Moved(v, m0, marks[..], p0, hull)
        invariant Scanning(v, marks[..], p0, b, p, rest, half, lastitemlength, length, d, end, calm)
        invariant sure ==> Staying(v, rest, half, lastitemlength, lv, length) && NoneFailed(groupinfo[..])
        invariant sure ==> loops + Openers(c, p, end) + CostRest(v, rest, half, lv)
                           <= old(loops) + 1 + Openers(c, p0, end) + CostBranch(v, b, lv)
        decreases |c| - p
      {
        if EndsBranch(c[p]) {
          ScanningEnd(v, marks[..], p0, b, p, rest, half, lastitemlength, length, d, end, calm);
          if sure { SureIs(v, b, lv, d, length); }
          return;
        }
        var itemlength, back, next;
        ghost var m1 := marks[..];
        itemlength, back, next, rest, half, d := ReadNext(p, recurses, lastitemlength, length, p0, b, rest, half, d,
                                                          end,
                                                          calm, sure, lv);
        MovedTwice(v, m0, m1, marks[..], p0, hull, p0, hull, p, if calm then p else end);
        if itemlength < 0 { return -1, p, d; }
        length := length - back;
        if INT_MAX - length < itemlength || length + itemlength > LOOKBEHIND_MAX {
          errorcode := ERR87;
          return -1, p, d;
        }
        length, lastitemlength, p := length + itemlength, itemlength, next;
      }
    }

    /** The next item or quantifier: what it adds to the length and what it takes back. */
    method ReadNext(p: nat, recurses: seq<nat>, lastitemlength: int, length: int, ghost p0: nat, ghost b: PBranch,
                    ghost rest: PBranch, ghost half: bool, ghost d: nat, ghost end: nat, ghost calm: bool,
                    ghost sure: bool, ghost lv: nat)
        returns (itemlength: int, back: int, next: nat, ghost rest': PBranch, ghost half': bool, ghost d': nat)
      requires Valid() && Scanning(v, marks[..], p0, b, p, rest, half, lastitemlength, length, d, end, calm)
      requires !EndsBranch(c[p])
      requires sure ==> Staying(v, rest, half, lastitemlength, lv, length) && length <= LOOKBEHIND_MAX
                        && Ready(Openers(c, p, end) + CostRest(v, rest, half, lv), recurses, lv)
      modifies this`errorcode, this`loops, this`maxLookbehind, groupinfo, marks
      ensures Valid() && loops >= old(loops) && Moved(v, old(marks[..]), marks[..], p, if calm then p else end)
      ensures itemlength >= 0 ==>
                && next > p
                && Scanning(v, marks[..], p0, b, next, rest', half', itemlength, length - back + itemlength, d', end,
                            calm)
      ensures sure ==> itemlength >= 0 && length - back + itemlength <= LOOKBEHIND_MAX
      ensures sure ==> Staying(v, rest', half', itemlength, lv, length - back + itemlength) && NoneFailed(groupinfo[..])
      ensures sure ==> loops + Openers(c, next, end) + CostRest(v, rest', half', lv)
                       <= old(loops) + Openers(c, p, end) + CostRest(v, rest, half, lv)
      decreases Budget(), 12
    {
      ScanningOpen(v, marks[..], p0, b, p, rest, half, lastitemlength, length, d, end, calm);
      if IsQuantifier(Meta(c[p])) {
        MovedNot(v, marks[..], p, if calm then p else end);
        itemlength, back, next := ReadRepeat(p, lastitemlength, length, b, rest, d, end, sure, lv);
        rest', half', d' := rest.rest, false, d;
        if itemlength >= 0 {
          CoveredQuant(v.g, marks[..], p0, b, p, rest);
          UnreadLater(v, marks[..], p, next, rest, rest.rest, end, calm);
          OpenersLess(c, p, next, end);
        }
      } else {
        back := 0;
        itemlength, next, rest', half', d' := ReadItem(p, recurses, lastitemlength, length, p0, b, rest, d, end, calm,
                                                       sure, lv);
      }
    }

    method ReadRepeat(p: nat, lastitemlength: int, length: int, ghost b: PBranch, ghost rest: PBranch, ghost d: nat,
                      ghost end: nat, ghost sure: bool, ghost lv: nat)
        returns (itemlength: int, back: int, next: nat)
      requires v.c == c && p < |c| && IsQuantifier(Meta(c[p])) && rest.PCons? && !rest.quant.NoQuant?
      requires Place(v, p, rest, true, end) && Reading(v.g, b, rest, true, lastitemlength, length, d)
      requires sure ==> Staying(v, rest, true, lastitemlength, lv, length)
      modifies this`errorcode
      ensures itemlength >= 0 ==> next == p + QuantUnits(rest.quant) > p && Place(v, next, rest.rest, false, end)
      ensures itemlength >= 0 ==> Reading(v.g, b, rest.rest, false, itemlength, length - back + itemlength, d)
      ensures sure ==> itemlength >= 0 && length - back + itemlength <= LOOKBEHIND_MAX
      ensures sure ==> Staying(v, rest.rest, false, itemlength, lv, length - back + itemlength)
    {
      PlaceQuant(v, p, rest, end);
      itemlength, back, next := RepeatLength(p, lastitemlength);
      if sure { StayingQuant(v, rest, lastitemlength, lv, length, itemlength); }
      if itemlength >= 0 { ReadQuant(v.g, b, rest, lastitemlength, length, d, itemlength - back, itemlength); }
    }

    /** An exact repeat: what it adds, and what it takes back because there is no copy; -1 for any other repeat. */
    method RepeatLength(p: nat, lastitemlength: int) returns (itemlength: int, back: int, next: nat)
      requires p < |c| && IsQuantifier(Meta(c[p])) && lastitemlength >= 0
      requires META_MINMAX <= Meta(c[p]) ==> p + 2 < |c| && 0 <= c[p + 1]
      modifies this`errorcode
      ensures itemlength >= 0 ==>
                && META_MINMAX <= Meta(c[p]) && c[p + 1] == c[p + 2] && next == p + 3 && back >= 0
                && itemlength - back == (c[p + 1] - 1) * lastitemlength
      ensures META_MINMAX <= Meta(c[p]) && c[p + 1] == c[p + 2] && (c[p + 1] - 1) * lastitemlength <= LOOKBEHIND_MAX ==>
                itemlength >= 0
    {
      itemlength, back, next := 0, 0, p + 3;
      if META_MINMAX <= Meta(c[p]) && c[p + 1] == c[p + 2] {
        if c[p + 1] == 0 {
          back := lastitemlength;
        } else if c[p + 1] > 1 {
          if lastitemlength != 0 && INT_MAX / lastitemlength < c[p + 1] - 1 {
            NoRoom(c[p + 1] - 1, lastitemlength);
            errorcode := ERR87;
            return -1, 0, p;
          }
          itemlength := (c[p + 1] - 1) * lastitemlength;
          NotNegative(c[p + 1] - 1, lastitemlength);
        }
      } else {
        errorcode := ERR25;
        itemlength := -1;
      }
    }

    /** An item; a lookahead is read together with its quantifier, which does not count. */
    method ReadItem(p: nat, recurses: seq<nat>, lastitemlength: int, length: int, ghost p0: nat, ghost b: PBranch,
                    ghost rest: PBranch, ghost d: nat, ghost end: nat, ghost calm: bool, ghost sure: bool,
                        ghost lv: nat)
        returns (itemlength: int, next: nat, ghost rest': PBranch, ghost half': bool, ghost d': nat)
      requires Valid() && rest.PCons?
      requires Scanning(v, marks[..], p0, b, p, rest, false, lastitemlength, length, d, end, calm)
      requires sure ==> Staying(v, rest, false, lastitemlength, lv, length) && length <= LOOKBEHIND_MAX
                        && Ready(Openers(c, p, end) + CostBranch(v, rest, lv), recurses, lv)
      modifies this`errorcode, this`loops, this`maxLookbehind, groupinfo, marks
      ensures Valid() && loops >= old(loops) && Moved(v, old(marks[..]), marks[..], p, if calm then p else end)
      ensures itemlength >= 0 ==>
                && next > p
                && Scanning(v, marks[..], p0, b, next, rest', half', itemlength, length + itemlength, d', end, calm)
      ensures sure ==> itemlength >= 0 && length + itemlength <= LOOKBEHIND_MAX
      ensures sure ==> Staying(v, rest', half', itemlength, lv, length + itemlength) && NoneFailed(groupinfo[..])
      ensures sure ==> loops + Openers(c, next, end) + CostRest(v, rest', half', lv)
                       <= old(loops) + Openers(c, p, end) + CostBranch(v, rest, lv)
      decreases Budget(), 11
    {
      ghost var m, q := marks[..], p + AtomUnits(rest.atom);
      ScanningAtom(v, m, p0, b, p, q, rest, lastitemlength, length, d, end, calm);
      ghost var d1;
      OpenersPart(c, p, q, end);
      if sure { StayingAtom(v, rest, lastitemlength, lv, length); }
      itemlength, next, d1 := ItemLength(p, recurses, rest.atom, q, calm, sure, lv);
      rest', half', d' := rest, true, if d < d1 then d1 else d;
      MovedWider(v, m, marks[..], p, if calm then p else q, p, if calm then p else end);
      if itemlength < 0 { return; }
      if IsLookahead(c[p]) {
        next := PastLookahead(p, next, m, p0, b, rest, lastitemlength, length, d, end, calm);
        rest', half', d' := rest.rest, false, d;
      } else {
        ScanningItem(v, m, marks[..], p0, b, p, q, rest, lastitemlength, length, d, end, calm, itemlength, d1);
        if rest.quant.NoQuant? { rest', half' := rest.rest, false; }
      }
      if sure {
        SureLong(v.g, rest.atom, lv, d1, itemlength);
        StayingItem(v, rest, lastitemlength, lv, length, itemlength);
        OpenersLess(c, q, next, end);
      }
    }

    method PastLookahead(p: nat, q: nat, ghost m: Marks, ghost p0: nat, ghost b: PBranch, ghost rest: PBranch,
                         ghost lastitemlength: int, ghost length: int, ghost d: nat, ghost end: nat, ghost calm: bool)
        returns (next: nat)
      requires v.c == c && rest.PCons? && !Counts(rest.atom) && q == p + AtomUnits(rest.atom)
      requires Scanning(v, m, p0, b, p, rest, false, lastitemlength, length, d, end, calm)
      requires Moved(v, m, marks[..], p, if calm then p else q)
      requires AtomDone(v.g, marks[..], p, rest.atom)
      ensures next > p && next >= q && Scanning(v, marks[..], p0, b, next, rest.rest, false, 0, length, d, end, calm)
    {
      ScanningAtom(v, m, p0, b, p, q, rest, lastitemlength, length, d, end, calm);
      next := SkipQuantifier(q, rest, end);
      ScanningLookahead(v, m, marks[..], p0, b, p, q, rest, lastitemlength, length, d, end, calm);
    }

    method SkipQuantifier(p: nat, ghost rest: PBranch, ghost end: nat) returns (next: nat)
      requires v.c == c && p < |c| && rest.PCons?
      requires if rest.quant.NoQuant? then Place(v, p, rest.rest, false, end) else Place(v, p, rest, true, end)
      ensures next == p + QuantUnits(rest.quant) && Place(v, next, rest.rest, false, end)
    {
      if rest.quant.NoQuant? { PlaceKind(v, p, rest.rest, false, end); } else { PlaceQuant(v, p, rest, end); }
      next := p;
      if META_ASTERISK <= Meta(c[p]) < META_MINMAX { next := p + 1; }
      else if META_MINMAX <= Meta(c[p]) <= META_MINMAX_QUERY { next := p + 3; }
    }

    /** One item, without its quantifier. */
    method ItemLength(p: nat, recurses: seq<nat>, ghost a: PAtom, ghost y: nat, ghost calm: bool, ghost sure: bool,
                      ghost lv: nat)
        returns (length: int, next: nat, ghost d: nat)
      requires Valid() && ItemAt(v, p, a)
      requires y == p + AtomUnits(a) && if calm then CalmAtom(a) else Clear(c, marks[..], p, y)
      requires sure ==> SureAtom(v, a, lv) && AtomLength(v.g, a, lv).Some?
                        && Ready(Openers(c, p, y) + CostAtom(v, a, lv), recurses, lv)
      modifies this`errorcode, this`loops, this`maxLookbehind, groupinfo, marks
      ensures Valid() && loops >= old(loops)
      ensures Moved(v, old(marks[..]), marks[..], p, if calm then p else y)
      ensures length >= 0 ==> next == y && LongAtom(v.g, a, d, length) && AtomDone(v.g, marks[..], p, a)
      ensures length >= 0 && a.Bracket? && a.kind.AheadKind? ==> length == 0
      ensures sure ==> length >= 0 && NoneFailed(groupinfo[..])
      ensures sure ==> loops <= old(loops) + Openers(c, p, y) + CostAtom(v, a, lv)
      decreases Budget(), 10
    {
      ItemKind(v, p, a);
      length, d := 0, 0;
      MovedNot(v, marks[..], p, if calm then p else y);
      if IsOpening(c[p]) {
        length, next, d := BracketLength(p, recurses, a, y, calm, sure, lv);
      } else if Meta(c[p]) == META_RECURSE || Meta(c[p]) == META_BACKREF {
        ghost var m := marks[..];
        length, next, d := ReferenceLength(p, recurses, a, y, sure, lv);
        NothingDone(v.g, marks[..], p, a);
        MovedWider(v, m, marks[..], p, p, p, if calm then p else y);
      } else {
        length, next := SimpleLength(p, a);
        NothingDone(v.g, marks[..], p, a);
      }
    }

    /** A group, a condition or a lookaround. */
    method BracketLength(p: nat, recurses: seq<nat>, ghost a: PAtom, ghost y: nat, ghost calm: bool, ghost sure: bool,
                         ghost lv: nat)
        returns (length: int, next: nat, ghost d: nat)
      requires Valid() && a.Bracket? && ItemAt(v, p, a)
      requires y == p + AtomUnits(a) && if calm then CalmAtom(a) else Clear(c, marks[..], p, y)
      requires sure ==> SureAtom(v, a, lv) && AtomLength(v.g, a, lv).Some?
                        && Ready(Openers(c, p, y) + CostAtom(v, a, lv), recurses, lv)
      modifies this`errorcode, this`loops, this`maxLookbehind, groupinfo, marks
      ensures Valid() && loops >= old(loops)
      ensures Moved(v, old(marks[..]), marks[..], p, if calm then p else y)
      ensures length >= 0 ==> next == y && LongAtom(v.g, a, d, length) && AtomDone(v.g, marks[..], p, a)
      ensures length >= 0 && a.Bracket? && a.kind.AheadKind? ==> length == 0
      ensures a.kind.DefinitionKind? ==> marks[..] == old(marks[..])
      ensures sure ==> length >= 0 && NoneFailed(groupinfo[..])
      ensures sure ==> loops <= old(loops) + Openers(c, p, y) + CostAtom(v, a, lv)
      decreases Budget(), 9
    {
      BracketKind(v, p, a);
      BracketUnit(v, p, a);
      ghost var m := marks[..];
      MovedNot(v, m, p, if calm then p else y);
      length, next, d := 0, p, 0;
      if IsLookahead(c[p]) {
        if sure { ChainNone(v, recurses, lv); }
        var ok, end := LookaheadLengths(p, recurses, a, y, calm, sure);
        length, next := if ok then 0 else -1, end + 1;
      } else if IsLookbehind(c[p]) {
        length, next := NestedLookbehind(p, recurses, a, y, calm, sure, lv);
      } else if Meta(c[p]) == META_COND_DEFINE {
        DefinitionEnds(v, p, p + a.head, a);
        var end := ParsedSkip(c, p + 1, ToKet);
        next := end.value + 1;
        NothingDone(v.g, marks[..], p, a);
      } else {
        length, next, d := GroupLength(p, recurses, a, y, calm, sure, lv);
      }
    }

    method NestedLookbehind(p: nat, recurses: seq<nat>, ghost a: PAtom, ghost y: nat, ghost calm: bool,
                            ghost sure: bool, ghost lv: nat)
        returns (length: int, next: nat)
      requires Valid() && a.Bracket? && ItemAt(v, p, a) && a.kind.BehindKind?
      requires y == p + AtomUnits(a) && if calm then CalmAtom(a) else Clear(c, marks[..], p, y)
      requires sure ==> SureAlts(v, a.alts, lv) && Ready(Openers(c, p, y) + CostAlts(v, a.alts, lv), recurses, lv)
      modifies this`errorcode, this`loops, this`maxLookbehind, groupinfo, marks
      ensures Valid() && loops >= old(loops)
      ensures Moved(v, old(marks[..]), marks[..], p, if calm then p else y)
      ensures length == 0 || length == -1
      ensures length >= 0 ==> next == y && AtomDone(v.g, marks[..], p, a)
      ensures sure ==> length >= 0 && NoneFailed(groupinfo[..])
      ensures sure ==> loops <= old(loops) + Openers(c, p, y) + CostAlts(v, a.alts, lv)
      decreases Budget(), 4
    {
      ghost var m := marks[..];
      ghost var k := LookbehindBracket(v, p, a);
      if calm { CalmContents(a); } else { LessClear(c, m, p, y, p, k); }
      OpenersLook(c, p, k, y);
      var ok, end := SetLookbehindLengths(p, recurses, a.alts, k, calm, sure, lv);
      MovedWider(v, m, marks[..], p, if calm then p else k, p, if calm then p else y);
      length, next := if ok then 0 else -1, end + 1;
      if ok { LookbehindDone(v.g, marks[..], p, a); }
    }

    /** The number of units before the contents of a bracket. */
    method HeadOf(p: nat, ghost a: PAtom) returns (head: nat)
      requires v.c == c && a.Bracket? && ItemAt(v, p, a) && p < |c|
      ensures head == a.head
    {
      ItemOpen(v, p, a);
      assert Peek(0);
      head := HeadUnits(c[p]);
    }

    method GroupLength(p: nat, recurses: seq<nat>, ghost a: PAtom, ghost y: nat, ghost calm: bool, ghost sure: bool,
                       ghost lv: nat)
        returns (length: int, next: nat, ghost d: nat)
      requires Valid() && a.Bracket? && ItemAt(v, p, a) && !NoWidth(a.kind)
      requires y == p + AtomUnits(a) && if calm then CalmAtom(a) else Clear(c, marks[..], p, y)
      requires sure ==> SureAlts(v, a.alts, lv) && AltsLength(v.g, a.alts, lv).Some?
                        && Ready(Openers(c, p, y) + CostAlts(v, a.alts, lv), recurses, lv)
      modifies this`errorcode, this`loops, this`maxLookbehind, groupinfo, marks
      ensures Valid() && loops >= old(loops)
      ensures Moved(v, old(marks[..]), marks[..], p, if calm then p else y)
      ensures length >= 0 ==> next == y && LongAtom(v.g, a, d, length) && AtomDone(v.g, marks[..], p, a)
      ensures sure ==> length >= 0 && NoneFailed(groupinfo[..])
      ensures sure ==> loops <= old(loops) + Openers(c, p, y) + CostAlts(v, a.alts, lv)
      decreases Budget(), 5
    {
      ghost var m := marks[..];
      ghost var x, k := GroupBracket(v, p, a);
      if calm { CalmContents(a); } else { LessClear(c, m, p, y, x, k); }
      var group := if Meta(c[p]) == META_CAPTURE then Data(c[p]) else 0;
      var end;
      var head := HeadOf(p, a);
      ItemKind(v, p, a);
      OpenersInside(c, p, x, k, y);
      length, end, d := GetGroupLength(p + head, true, recurses, group, a.alts, k, calm, sure, lv);
      MovedWider(v, m, marks[..], x, if calm then x else k, p, if calm then p else y);
      next := end + 1;
      if length >= 0 {
        GroupLong(v.g, a, d, length);
        BracketDone(v.g, marks[..], p, x, a);
      }
    }

    /** The lookbehinds in a lookahead. */
    method LookaheadLengths(p: nat, recurses: seq<nat>, ghost a: PAtom, ghost y: nat, ghost calm: bool,
                            ghost sure: bool)
        returns (ok: bool, end: nat)
      requires Valid() && a.Bracket? && a.kind.AheadKind? && ItemAt(v, p, a)
      requires y == p + AtomUnits(a) && if calm then CalmAtom(a) else Clear(c, marks[..], p, y)
      requires sure ==> SureInside(v, a.alts) && Ready(Openers(c, p, y), recurses, 0)
      modifies this`errorcode, this`loops, this`maxLookbehind, groupinfo, marks
      ensures Valid() && loops >= old(loops)
      ensures Moved(v, old(marks[..]), marks[..], p, if calm then p else y)
      ensures ok ==> end + 1 == y && AtomDone(v.g, marks[..], p, a)
      ensures sure ==> ok && loops <= old(loops) + Openers(c, p, y) && NoneFailed(groupinfo[..])
      decreases Budget(), 8
    {
      ghost var m := marks[..];
      ghost var k := LookaheadBody(v, p, a, calm);
      if !calm { LessClear(c, m, p, y, p + 1, k); }
      if sure { SureLookahead(v, p, a, k); }
      OpenersLess(c, p, p + 1, y);
      OpenersPart(c, p + 1, k, y);
      ok, end := ContentsLengths(p + 1, recurses, k, calm, sure);
      MovedWider(v, m, marks[..], p + 1, if calm then p + 1 else k, p, if calm then p else y);
      if ok { LookaheadMarked(v, marks[..], p, a); }
    }

    method ContentsLengths(p: nat, recurses: seq<nat>, ghost k: nat, ghost calm: bool, ghost sure: bool)
        returns (ok: bool, end: nat)
      requires Valid() && AllFound(v, p, k, calm) && WalksTo(c, p, Some(k)) && (calm || Clear(c, marks[..], p, k))
      requires sure ==> AllSure(v, p, 0) && Ready(Openers(c, p, k), recurses, 0)
      modifies this`errorcode, this`loops, this`maxLookbehind, groupinfo, marks
      ensures Valid() && loops >= old(loops) && Moved(v, old(marks[..]), marks[..], p, if calm then p else k)
      ensures ok ==> end == k && AllDone(v, marks[..], p)
      ensures sure ==> ok && loops <= old(loops) + Openers(c, p, k) && NoneFailed(groupinfo[..])
      decreases Budget(), 7
    {
      CleanBody(c, p, k);
      WalkCostNone(v, p, 0);
      var error, ket := CheckLookbehinds(p, recurses, k, calm, sure, 0);
      errorcode := error;
      ok, end := error == 0, p;
      if ok {
        WalksOnce(c, p, ket, Some(k));
        end := ket.value;
      }
    }

    /** Goes through the units from p on, up to a closing bracket or the end, and sets the lengths of every
        lookbehind. */
    method CheckLookbehinds(p0: nat, recurses: seq<nat>, ghost end: nat, ghost calm: bool, ghost sure: bool,
                            ghost lv: nat)
        returns (error: int, ket: Option<nat>)
      requires Valid() && (calm || Clear(c, marks[..], p0, end))
      requires AllFound(v, p0, end, calm)
      requires sure ==> AllSure(v, p0, lv) && Clean(c, p0, 0)
                        && Ready(Openers(c, p0, end) + WalkCost(v, p0, 0, lv), recurses, lv)
      modifies this`errorcode, this`loops, this`maxLookbehind, groupinfo, marks
      ensures Valid() && loops >= old(loops)
      ensures Moved(v, old(marks[..]), marks[..], p0, if calm then p0 else end)
      ensures error == 0 ==> WalksTo(c, p0, ket)
      ensures error == 0 ==> AllDone(v, marks[..], p0)
      ensures sure ==> error == 0 && NoneFailed(groupinfo[..])
      ensures sure ==> loops <= old(loops) + Openers(c, p0, end) + WalkCost(v, p0, 0, lv)
      decreases Budget(), 6
    {
      errorcode := 0;
      var p, nest: nat := p0, 0;
      ghost var m0, hull := marks[..], if calm then p0 else end;
      MovedNot(v, m0, p0, hull);
      while true
        invariant Valid() && loops >= old(loops) && p0 <= p && (calm || Clear(c, marks[..], p, end))
        invariant Moved(v, m0, marks[..], p0, hull) && Checked(v, marks[..], p0, p, nest)
        invariant sure ==> Clean(c, p, nest) && NoneFailed(groupinfo[..])
        invariant sure ==> loops + Openers(c, p, end) + WalkCost(v, p, nest, lv)
                           <= old(loops) + Openers(c, p0, end) + WalkCost(v, p0, 0, lv)
        decreases |c| - p
      {
        ket := None;
        if p >= |c| || c[p] == META_END { break; }
        if sure { CleanUnit(c, p, nest); }
        var next, nest' := p + 1, nest;
        if c[p] >= META_END {
          if Meta(c[p]) == META_END || Meta(c[p]) > META_MINMAX_QUERY { return ERR70, None; }
          if Meta(c[p]) == META_KET && nest == 0 {
            ket := Some(p);
            break;
          }
          if IsLookbehind(Meta(c[p])) {
            var ok, k := CheckNext(p, nest, recurses, p0, end, calm, m0, sure, lv);
            if !ok { return errorcode, None; }
            if sure { CleanEnter(c, p, nest, k); }
            p := k + 1;
            continue;
          }
          next, nest' := next + StepSize(c, p), Nested(Meta(c[p]), nest);
        }
        CheckedGo(v, marks[..], p0, p, nest, next, nest');
        WalkOn(v, marks[..], p, next, end, nest, nest', calm, lv);
        if sure { CleanGo(c, p, nest, next, nest'); }
        p, nest := next, nest';
      }
      error := 0;
      CheckedStop(v, marks[..], p0, p, nest);
    }

    /** A lookbehind that the walk has come to, and where it goes on. */
    method CheckNext(p: nat, ghost nest: nat, recurses: seq<nat>, ghost p0: nat, ghost end: nat, ghost calm: bool,
                     ghost m0: Marks, ghost sure: bool, ghost lv: nat)
        returns (ok: bool, k: nat)
      requires Valid() && p0 <= p < |c| && (calm || Clear(c, marks[..], p, end)) && StepAt(c, p, nest).Enter?
      requires AllFound(v, p0, end, calm)
      requires Moved(v, m0, marks[..], p0, if calm then p0 else end) && Checked(v, marks[..], p0, p, nest)
      requires sure ==> AllSure(v, p0, lv) && Clean(c, p, nest)
                        && Ready(Openers(c, p, end) + WalkCost(v, p, nest, lv), recurses, lv)
      modifies this`errorcode, this`loops, this`maxLookbehind, groupinfo, marks
      ensures Valid() && loops >= old(loops) && Moved(v, m0, marks[..], p0, if calm then p0 else end)
      ensures ok ==> k >= p && (calm || Clear(c, marks[..], k + 1, end)) && Checked(v, marks[..], p0, k + 1, nest)
      ensures !ok ==> errorcode != 0
      ensures ok ==> StepAt(c, p, nest) == Enter(k)
      ensures sure ==> ok && NoneFailed(groupinfo[..])
      ensures sure ==> loops + Openers(c, k + 1, end) + WalkCost(v, k + 1, nest, lv)
                       <= old(loops) + Openers(c, p, end) + WalkCost(v, p, nest, lv)
      decreases Budget(), 5
    {
      ghost var work, left := 0, 0;
      if sure { work, left := SureStep(v, marks[..], p, nest, p0, end, calm, lv); }
      ok, k := CheckOne(p, nest, recurses, p0, end, calm, m0, sure, lv, work);
    }

    method CheckOne(p: nat, ghost nest: nat, recurses: seq<nat>, ghost p0: nat, ghost end: nat, ghost calm: bool,
                    ghost m0: Marks, ghost sure: bool, ghost lv: nat, ghost work: nat)
        returns (ok: bool, k: nat)
      requires Valid() && p0 <= p < |c| && (calm || Clear(c, marks[..], p, end)) && StepAt(c, p, nest).Enter?
      requires AllFound(v, p0, end, calm)
      requires Moved(v, m0, marks[..], p0, if calm then p0 else end) && Checked(v, marks[..], p0, p, nest)
      requires sure ==> SureAlts(v, v.g.looks(p), lv) && Ready(work, recurses, lv)
                        && WorkBehind(v, p, lv) <= work
      modifies this`errorcode, this`loops, this`maxLookbehind, groupinfo, marks
      ensures Valid() && loops >= old(loops) && Moved(v, m0, marks[..], p0, if calm then p0 else end)
      ensures ok ==> k >= p && (calm || Clear(c, marks[..], k + 1, end)) && Checked(v, marks[..], p0, k + 1, nest)
      ensures !ok ==> errorcode != 0
      ensures ok ==> StepAt(c, p, nest) == Enter(k)
      ensures sure ==> ok && NoneFailed(groupinfo[..]) && loops <= old(loops) + work
      decreases Budget(), 4
    {
      ghost var m, alts := marks[..], v.g.looks(p);
      ghost var ket := p + 1 + SIZEOFFSET + AltsUnits(alts);
      FoundHere(v, m, p, nest, end, p0, calm);
      OpeningMeta(c[p]);
      if !calm { LessClear(c, m, p, end, p, ket); }
      ok, k := SetLookbehindLengths(p, recurses, alts, ket, calm, sure, lv);
      MovedOn(v, m0, m, marks[..], p0, p, ket, end, calm);
      if ok { CheckedOn(v, m, marks[..], p0, p, nest, k, end, calm); }
    }

    /** The lengths of the branches of the lookbehind at p are written to the unit before each of them. */
    method SetLookbehindLengths(p: nat, recurses: seq<nat>, ghost alts: PAlts, ghost end: nat, ghost calm: bool,
                                ghost sure: bool, ghost lv: nat)
        returns (ok: bool, k: nat)
      requires Valid() && p < |c| && IsLookbehind(c[p]) && Inside(v, p + 1 + SIZEOFFSET, alts)
      requires Fits(v.g, p, p + 1 + SIZEOFFSET, alts)
      requires end == p + 1 + SIZEOFFSET + AltsUnits(alts)
      requires if calm then alts.PLast? && CalmAlts(alts) else Clear(c, marks[..], p, end)
      requires sure ==> SureAlts(v, alts, lv)
                        && Ready(1 + Openers(c, p + 1 + SIZEOFFSET, end) + CostAlts(v, alts, lv), recurses, lv)
      modifies this`errorcode, this`loops, this`maxLookbehind, groupinfo, marks
      ensures Valid() && loops >= old(loops)
      ensures Moved(v, old(marks[..]), marks[..], p, if calm then p else end)
      ensures ok ==> k == end
      ensures ok ==> BothMarked(v.g, marks[..], p, p + 1 + SIZEOFFSET, alts)
      ensures !ok ==> errorcode != 0
      ensures sure ==> ok && NoneFailed(groupinfo[..])
      ensures sure ==> loops <= old(loops) + 1 + Openers(c, p + 1 + SIZEOFFSET, end) + CostAlts(v, alts, lv)
      decreases Budget(), 3
    {
      var bptr := p;
      k := p + SIZEOFFSET;
      ghost var rest, m0 := alts, marks[..];
      WritingStart(v, m0, p, k + 1, alts, end, calm);
      while true
        invariant Valid() && loops >= old(loops) && Writing(v, m0, marks[..], p, alts, bptr, k + 1, rest, end, calm)
        invariant sure ==> SureAlts(v, rest, lv) && NoneFailed(groupinfo[..])
        invariant sure ==> loops + Openers(c, k + 1, end) + CostAlts(v, rest, lv)
                           <= old(loops) + Openers(c, p + 1 + SIZEOFFSET, end) + CostAlts(v, alts, lv)
        decreases rest
      {
        var length;
        length, k := WriteBranch(p, bptr, k + 1, recurses, m0, alts, rest, end, calm, sure, lv);
        if length < 0 { return false, k; }
        bptr := k;
        if !(c[bptr] == META_ALT && marks[bptr] == 0) { return true, k; }
        rest := rest.more;
      }
    }

    method WriteBranch(ghost p: nat, bptr: nat, x: nat, recurses: seq<nat>, ghost m0: Marks, ghost alts: PAlts,
                       ghost rest: PAlts, ghost end: nat, ghost calm: bool, ghost sure: bool, ghost lv: nat)
        returns (length: int, k: nat)
      requires Valid() && Writing(v, m0, marks[..], p, alts, bptr, x, rest, end, calm)
      requires sure ==> SureAlts(v, rest, lv) && Ready(1 + Openers(c, x, end) + CostAlts(v, rest, lv), recurses, lv)
      modifies this`errorcode, this`loops, this`maxLookbehind, groupinfo, marks
      ensures Valid() && loops >= old(loops) && Moved(v, m0, marks[..], p, if calm then p else end)
      ensures length >= 0 ==> k < |c| && (c[k] == META_ALT && marks[k] == 0 <==> rest.POr?)
      ensures length >= 0 ==>
                if rest.POr? then Writing(v, m0, marks[..], p, alts, k, k + 1, rest.more, end, calm)
                else k == end && BothMarked(v.g, marks[..], p, p + 1 + SIZEOFFSET, alts)
      ensures length < 0 ==> errorcode != 0
      ensures sure ==> length >= 0 && NoneFailed(groupinfo[..]) && (rest.POr? ==> SureAlts(v, rest.more, lv))
      ensures sure ==> if rest.POr? then loops + Openers(c, k + 1, end) + CostAlts(v, rest.more, lv)
                                         <= old(loops) + Openers(c, x, end) + CostAlts(v, rest, lv)
                       else loops <= old(loops) + 1 + Openers(c, x, end) + CostAlts(v, rest, lv)
      decreases Budget(), 2
    {
      ghost var m := marks[..];
      WritingOpen(v, m0, m, p, alts, bptr, x, rest, end, calm);
      length, k := LookbehindBranch(bptr, x, recurses, rest, end, calm, sure, lv);
      WritingMoved(v, m0, m, marks[..], p, alts, bptr, x, rest, end, calm);
      if length >= 0 { WritingNext(v, m0, m, marks[..], p, alts, bptr, x, k, rest, end, calm); }
    }

    /** Writes a length, and keeps the largest. */
    method WriteMark(q: nat, length: nat, ghost d: nat)
      requires Valid() && q < |c| && BranchLength(v.g, v.g.behind(q), d) == Some(length)
      modifies this`maxLookbehind, marks
      ensures Valid() && Moved(v, old(marks[..]), marks[..], q, q + 1) && MarkKnown(v.g, q, marks[q])
    {
      ghost var m, max := marks[..], maxLookbehind;
      if length > maxLookbehind { maxLookbehind := length; }
      marks[q] := BitOr(marks[q], length);
      KeepsMark(v, m, groupinfo[..], max, q, length, marks[..], maxLookbehind);
    }

    /** A branch of a lookbehind: its length is written to unit `bptr`. */
    method LookbehindBranch(bptr: nat, p: nat, recurses: seq<nat>, ghost rest: PAlts, ghost end: nat, ghost calm: bool,
                            ghost sure: bool, ghost lv: nat)
        returns (length: int, k: nat)
      requires Valid() && Behinds(v, marks[..], bptr, p, rest, end, calm)
      requires sure ==> SureAlts(v, rest, lv) && Ready(1 + Openers(c, p, end) + CostAlts(v, rest, lv), recurses, lv)
      modifies this`errorcode, this`loops, this`maxLookbehind, groupinfo, marks
      ensures Valid() && loops >= old(loops)
      ensures Moved(v, old(marks[..]), marks[..], bptr, if calm then bptr else end)
      ensures length >= 0 ==>
                && MarkKnown(v.g, bptr, marks[bptr]) && BranchDone(v.g, marks[..], p, rest.branch)
                && k == p + BranchUnits(rest.branch) && k < |c| && (c[k] == META_ALT && marks[k] == 0 <==> rest.POr?)
      ensures length >= 0 ==>
                if rest.POr? then !calm && Behinds(v, marks[..], k, k + 1, rest.more, end, calm) else k == end
      ensures length < 0 ==> errorcode != 0
      ensures sure ==> length >= 0 && NoneFailed(groupinfo[..]) && (rest.POr? ==> SureAlts(v, rest.more, lv))
      ensures sure ==> if rest.POr? then loops + Openers(c, k + 1, end) + CostAlts(v, rest.more, lv)
                                         <= old(loops) + Openers(c, p, end) + CostAlts(v, rest, lv)
                       else loops <= old(loops) + 1 + Openers(c, p, end) + CostAlts(v, rest, lv)
      decreases Budget(), 1
    {
      ghost var m0 := marks[..];
      ghost var q := InsideBranch(v, p, rest);
      BehindsParts(v, m0, bptr, p, q, rest, end, calm);
      ghost var d;
      OpenersBranch(v, p, q, end, rest);
      length, k, d := GetBranchLength(p, recurses, rest.branch, q, calm, sure, lv);
      ghost var m1 := marks[..];
      ghost var y := if calm then p else q;
      MovedWider(v, m0, m1, p, y, bptr, if calm then bptr else end);
      if length < 0 {
        if errorcode == 0 { errorcode := ERR25; }
        return;
      }
      BehindsRead(v, m0, m1, bptr, p, k, rest, end, calm);
      WriteMark(bptr, length, d);
      BehindsWritten(v, m0, m1, marks[..], bptr, p, k, rest, end, calm);
    }

    /** The alternatives of a group, which must have the same length. */
    method GetGroupLength(p0: nat, isInline: bool, recurses: seq<nat>, group: nat, ghost alts: PAlts, ghost end: nat,
                          ghost calm: bool, ghost sure: bool, ghost lv: nat)
        returns (length: int, p: nat, ghost d: nat)
      requires Valid() && Inside(v, p0, alts) && group <= bracount
      requires group > 0 && !dup ==> alts == v.g.contents(group) && p0 == v.g.at(group)
      requires end == p0 + AltsUnits(alts) && if calm then CalmAlts(alts) else Clear(c, marks[..], p0, end)
      requires sure ==> SureAlts(v, alts, lv) && AltsLength(v.g, alts, lv).Some?
                        && Ready(1 + Openers(c, p0, end) + CostAlts(v, alts, lv), recurses, lv)
      modifies this`errorcode, this`loops, this`maxLookbehind, groupinfo, marks
      ensures Valid() && loops >= old(loops)
      ensures Moved(v, old(marks[..]), marks[..], p0, if calm then p0 else end)
      ensures length >= 0 ==> AltsDone(v.g, marks[..], p0, alts) && (isInline ==> p == end)
      ensures length >= 0 ==> forall d': nat :: d' >= d ==> AltsLength(v.g, alts, d') == Some(length)
      ensures sure ==> length >= 0 && NoneFailed(groupinfo[..])
      ensures sure ==> loops <= old(loops) + 1 + Openers(c, p0, end) + CostAlts(v, alts, lv)
      decreases Budget(), 4
    {
      OthersFold(v, marks[..], p0, alts, end, calm);
      length, p, d := -1, p0, 0;
      MovedNot(v, marks[..], p0, if calm then p0 else end);
      if group > 0 && !dup {
        if groupinfo[group].notFixed { return; }
        if groupinfo[group].isSet {
          length, p, d := FromCache(p0, isInline, group, alts);
          return;
        }
      }
      length, p, d := GroupBranches(p0, recurses, alts, end, calm, sure, lv);
      if length >= 0 { GroupReadOpen(v.g, marks[..], p0, alts, length, d); }
      if group > 0 {
        if length < 0 { GroupFailed(group); } else { GroupDone(group, length, d, alts); }
      }
    }

    /** The alternatives, one after the other. */
    method GroupBranches(p0: nat, recurses: seq<nat>, ghost alts: PAlts, ghost end: nat, ghost calm: bool,
                         ghost sure: bool, ghost lv: nat)
        returns (length: int, p: nat, ghost d: nat)
      requires Valid() && Others(v, marks[..], p0, alts, end, calm)
      requires sure ==> SureAlts(v, alts, lv) && AltsLength(v.g, alts, lv).Some?
                        && Ready(1 + Openers(c, p0, end) + CostAlts(v, alts, lv), recurses, lv)
      modifies this`errorcode, this`loops, this`maxLookbehind, groupinfo, marks
      ensures Valid() && loops >= old(loops)
      ensures Moved(v, old(marks[..]), marks[..], p0, if calm then p0 else end)
      ensures length >= 0 ==> p == end && GroupRead(v.g, marks[..], p0, alts, length, d)
      ensures sure ==> length >= 0 && NoneFailed(groupinfo[..])
      ensures sure ==> loops <= old(loops) + 1 + Openers(c, p0, end) + CostAlts(v, alts, lv)
      decreases Budget(), 3
    {
      length, p, d := -1, p0, 0;
      ghost var m0, rest := marks[..], alts;
      GroupingStart(v, m0, p0, alts, end, calm);
      var more := true;
      while more
        invariant Valid() && loops >= old(loops) && length >= -1
        invariant Moved(v, m0, marks[..], p0, if calm then p0 else end)
        invariant more ==> Grouping(v, m0, marks[..], p0, alts, p, rest, length, d, end, calm)
        invariant !more && length >= 0 ==> p == end && GroupRead(v.g, marks[..], p0, alts, length, d)
        invariant sure ==> NoneFailed(groupinfo[..]) && if more then SureRest(v, rest, lv, length) else length >= 0
        invariant sure ==> loops + (if more then Openers(c, p, end) + CostAlts(v, rest, lv) else -1)
                           <= old(loops) + Openers(c, p0, end) + CostAlts(v, alts, lv)
        decreases rest, more
      {
        ghost var d1;
        var branchlength;
        branchlength, p, d1 := GroupNext(p, recurses, length, m0, p0, alts, rest, d, end, calm, sure, lv);
        if branchlength < 0 || (length != -1 && length != branchlength) {
          length, more := -1, false;
        } else {
          length, d, more := branchlength, if d < d1 then d1 else d, c[p] != META_KET;
          if more { p, rest := p + 1, rest.more; }
        }
      }
    }

    /** The length of a group is known; an inline group is skipped. */
    method FromCache(p0: nat, isInline: bool, group: nat, ghost alts: PAlts)
        returns (length: nat, p: nat, ghost d: nat)
      requires Valid() && Inside(v, p0, alts) && 0 < group <= bracount && !dup && groupinfo[group].isSet
      requires alts == v.g.contents(group) && p0 == v.g.at(group)
      ensures AltsDone(v.g, marks[..], p0, alts) && (isInline ==> p == p0 + AltsUnits(alts))
      ensures forall d': nat :: d' >= d ==> AltsLength(v.g, alts, d') == Some(length)
    {
      length, p := groupinfo[group].length, p0;
      d := KnownLength(v, marks[..], groupinfo[..], maxLookbehind, group);
      if isInline {
        InsideEnds(v, p, alts);
        var ket := ParsedSkip(c, p, ToKet);
        p := ket.value;
      }
    }

    /** The next alternative. */
    method GroupNext(p: nat, recurses: seq<nat>, length: int, ghost m0: Marks, ghost p0: nat, ghost alts: PAlts,
                     ghost rest: PAlts, ghost d: nat, ghost end: nat, ghost calm: bool, ghost sure: bool, ghost lv: nat)
        returns (n: int, q: nat, ghost d1: nat)
      requires Valid() && length >= -1 && Grouping(v, m0, marks[..], p0, alts, p, rest, length, d, end, calm)
      requires sure ==> SureRest(v, rest, lv, length)
                        && Ready(1 + Openers(c, p, end) + CostAlts(v, rest, lv), recurses, lv)
      modifies this`errorcode, this`loops, this`maxLookbehind, groupinfo, marks
      ensures Valid() && loops >= old(loops) && Moved(v, m0, marks[..], p0, if calm then p0 else end)
      ensures n >= 0 && (length == -1 || length == n) ==>
                var d2 := if d < d1 then d1 else d;
                && q < |c| && (c[q] == META_KET <==> rest.PLast?)
                && if rest.POr? then Grouping(v, m0, marks[..], p0, alts, q + 1, rest.more, n, d2, end, calm)
                   else
                     q == end && GroupRead(v.g, marks[..], p0, alts, n, d2)
      ensures sure ==> n >= 0 && (length == -1 || length == n) && NoneFailed(groupinfo[..])
      ensures sure && rest.POr? ==>
                && SureRest(v, rest.more, lv, n)
                && loops + Openers(c, q + 1, end) + CostAlts(v, rest.more, lv)
                   <= old(loops) + Openers(c, p, end) + CostAlts(v, rest, lv)
      ensures sure && rest.PLast? ==> loops <= old(loops) + 1 + Openers(c, p, end) + CostAlts(v, rest, lv)
      decreases Budget(), 2
    {
      ghost var m, hull := marks[..], if calm then p0 else end;
      GroupingOpen(v, m0, m, p0, alts, p, rest, length, d, end, calm);
      n, q, d1 := GroupBranch(p, recurses, rest, end, calm, sure, lv);
      if sure { SureNext(v, rest, lv, length, d1, n); }
      MovedTwice(v, m0, m, marks[..], p0, hull, p0, hull, p, if calm then p else end);
      if n >= 0 && (length == -1 || length == n) {
        MovedGrows(v, m, marks[..], p, if calm then p else end);
        AltsCoveredNext(v.g, m, marks[..], p0, alts, p, q, rest);
        Merge(v.g, alts, rest, length, d, n, d1);
        if rest.PLast? { GroupIsRead(v.g, marks[..], p0, alts, n, if d < d1 then d1 else d); }
      }
    }

    /** One of the alternatives. */
    method GroupBranch(p0: nat, recurses: seq<nat>, ghost rest: PAlts, ghost end: nat, ghost calm: bool,
                       ghost sure: bool, ghost lv: nat)
        returns (length: int, p: nat, ghost d: nat)
      requires Valid() && Others(v, marks[..], p0, rest, end, calm)
      requires sure ==> SureBranch(v, rest.branch, lv, 0)
                        && Ready(1 + Openers(c, p0, end) + CostAlts(v, rest, lv), recurses, lv)
      modifies this`errorcode, this`loops, this`maxLookbehind, groupinfo, marks
      ensures Valid() && loops >= old(loops)
      ensures Moved(v, old(marks[..]), marks[..], p0, if calm then p0 else end)
      ensures length >= 0 ==>
                && p == p0 + BranchUnits(rest.branch) && p < |c| && (c[p] == META_KET <==> rest.PLast?)
                && BranchDone(v.g, marks[..], p0, rest.branch)
                && (if rest.POr? then Others(v, marks[..], p + 1, rest.more, end, calm) else p == end)
      ensures length >= 0 ==> forall d': nat :: d' >= d ==> BranchLength(v.g, rest.branch, d') == Some(length)
      ensures sure ==> length >= 0 && NoneFailed(groupinfo[..])
      ensures sure && rest.POr? ==> loops + Openers(c, p + 1, end) + CostAlts(v, rest.more, lv)
                                    <= old(loops) + Openers(c, p0, end) + CostAlts(v, rest, lv)
      ensures sure && rest.PLast? ==> loops <= old(loops) + 1 + Openers(c, p0, end) + CostAlts(v, rest, lv)
      decreases Budget(), 1
    {
      ghost var m := marks[..];
      ghost var q := OthersBranch(v, m, p0, rest, end, calm);
      OthersOpeners(v, m, p0, q, rest, end, calm);
      length, p, d := GetBranchLength(p0, recurses, rest.branch, q, calm, sure, lv);
      ghost var y := if calm then p0 else q;
      MovedWider(v, m, marks[..], p0, y, p0, if calm then p0 else end);
      if length >= 0 && rest.POr? { OthersNext(v, m, marks[..], p0, q, rest, end, calm); }
    }

    method GroupFailed(group: nat)
      requires Valid() && 0 < group <= bracount
      modifies groupinfo
      ensures Valid()
    {
      ghost var infos := groupinfo[..];
      groupinfo[group] := groupinfo[group].(notFixed := true);
      KeepsFailed(v, marks[..], infos, maxLookbehind, group, groupinfo[..]);
    }

    /** The length of a group goes into the cache. */
    method GroupDone(group: nat, length: nat, ghost d: nat, ghost alts: PAlts)
      requires Valid() && 0 < group <= bracount
      requires !dup ==> alts == v.g.contents(group) && AltsDone(v.g, marks[..], v.g.at(group), alts)
      requires forall d': nat :: d' >= d ==> AltsLength(v.g, alts, d') == Some(length)
      modifies groupinfo
      ensures Valid() && (old(NoneFailed(groupinfo[..])) ==> NoneFailed(groupinfo[..]))
    {
      if !dup { IsKnown(v.g, group, length, d); }
      ghost var infos := groupinfo[..];
      groupinfo[group] := WithLength(groupinfo[group], length);
      KeepsEntry(v, marks[..], infos, maxLookbehind, group, length, groupinfo[..]);
    }

    /** A subroutine call or a back reference: the length of the group, unless the group is being scanned already. */
    method ReferenceLength(p: nat, recurses: seq<nat>, ghost a: PAtom, ghost y: nat, ghost sure: bool, ghost lv: nat)
        returns (length: int, next: nat, ghost d: nat)
      requires Valid() && a.Reference? && ItemAt(v, p, a) && y == p + AtomUnits(a)
      requires sure ==> SureAtom(v, a, lv) && Ready(CostAtom(v, a, lv), recurses, lv)
      modifies this`errorcode, this`loops, this`maxLookbehind, groupinfo, marks
      ensures Valid() && loops >= old(loops) && Moved(v, old(marks[..]), marks[..], p, p)
      ensures length >= 0 ==> next == y && LongAtom(v.g, a, d, length)
      ensures sure ==> length >= 0 && loops <= old(loops) + CostAtom(v, a, lv) && NoneFailed(groupinfo[..])
      decreases Budget(), 6
    {
      ReferenceUnit(v, p, a);
      var group := Data(c[p]);
      length, next, d := -1, p + 1 + DataSize(c[p]).value, 0;
      ghost var m := marks[..];
      MovedNot(v, m, p, p);
      ghost var k, work := 0, 0;
      if sure { k, work := SureReference(v, p, a, recurses, lv); }
      if (Meta(c[p]) == META_BACKREF && (matchUnset || dup)) || group == 0 {
        errorcode := ERR25;
        return;
      }
      if group > bracount {
        errorcode := ERR15;
        return;
      }
      var start := FindGroup(c, META_CAPTURE + group);
      var end := ParsedSkip(c, start + 1, ToKet);
      if end.None? {
        errorcode := ERR90;
        return;
      }
      if start < next - 1 < end.value || start in recurses {
        errorcode := ERR25;
        return;
      }
      ghost var contents := v.g.contents(group);
      length, d := CalledLength(start, recurses, group, sure, k, work);
      MovedWider(v, m, marks[..], start + 1, start + 1, p, p);
      if length < 0 { return; }
      ReferenceLong(v.g, a, d, length);
      d := d + 1;
    }

    /** The length of the group that opens at `start`, which is called. */
    method CalledLength(start: nat, recurses: seq<nat>, group: nat, ghost sure: bool, ghost k: nat, ghost work: nat)
        returns (length: int, ghost d: nat)
      requires Valid() && 0 < group <= bracount && group in v.g.used && start + 1 == v.g.at(group)
      requires sure ==> SureGroup(v, group, k) && Ready(work, recurses + [start], k)
      requires sure ==> CostCall(v, group) + CostAlts(v, v.g.contents(group), k) <= work
      modifies this`errorcode, this`loops, this`maxLookbehind, groupinfo, marks
      ensures Valid() && loops >= old(loops) && Moved(v, old(marks[..]), marks[..], start + 1, start + 1)
      ensures length >= 0 ==> forall d': nat :: d' >= d ==> AltsLength(v.g, v.g.contents(group), d') == Some(length)
      ensures sure ==> length >= 0 && loops <= old(loops) + work && NoneFailed(groupinfo[..])
      decreases Budget(), 5
    {
      var inGroup;
      ghost var contents := v.g.contents(group);
      length, inGroup, d := GetGroupLength(start + 1, false, recurses + [start], group, contents,
                                           start + 1 + AltsUnits(contents), true, sure, k);
      if length < 0 && errorcode == 0 { errorcode := ERR25; }
    }
  }

  /** A call of a group, or a back reference to it, whose length is found: where the group is, and with how many
      references inside each other its length is found. */
  lemma SureReference(v: Parsed, p: nat, a: PAtom, recurses: seq<nat>, lv: nat) returns (k: nat, work: nat)
    requires GroupsFound(v) && a.Reference? && ItemAt(v, p, a) && SureAtom(v, a, lv) && Chain(v, recurses, lv)
    ensures var n := Data(a.unit); var start := Scan(v.c, 0, META_CAPTURE + n); var contents := v.g.contents(n);
            && 0 < n <= v.count && n in v.g.used && start + 1 == v.g.at(n)
            && start < |v.c| && start !in recurses && Chain(v, recurses + [start], k)
            && (Meta(a.unit) == META_BACKREF ==> !v.dup)
            && Skip(v.c, start + 1, ToKet, 0) == Some(start + 1 + AltsUnits(contents))
            && !(start < p + AtomUnits(a) - 1 < start + 1 + AltsUnits(contents))
            && SureGroup(v, n, k) && CostCall(v, n) + CostAlts(v, contents, k) <= work == CostAtom(v, a, lv)
  {
    var n := Data(a.unit);
    k := LeastSure(v, n, lv - 1);
    var start := CallableAt(v, n);
    NotInChain(v, recurses, lv, start, n);
    ChainMore(v, recurses, lv, start, n, k);
    OutsideGroup(v, p, a, start);
    CostAltsMore(v, v.g.contents(n), k, lv - 1);
    work := CostAtom(v, a, lv);
  }

  /** Where a group that can be called is found. */
  lemma CallableAt(v: Parsed, n: nat) returns (start: nat)
    requires GroupsFound(v) && Callable(v, n)
    ensures start == Scan(v.c, 0, META_CAPTURE + n) && start + 1 == v.g.at(n)
    ensures start < |v.c| && v.c[start] == META_CAPTURE + n && Inside(v, start + 1, v.g.contents(n))
    ensures Skip(v.c, start + 1, ToKet, 0) == Some(start + 1 + AltsUnits(v.g.contents(n)))
  {
    start := Scan(v.c, 0, META_CAPTURE + n);
    InsideEnds(v, start + 1, v.g.contents(n));
  }

  /** A reference does not stand inside a group that does not refer to itself. */
  lemma OutsideGroup(v: Parsed, p: nat, a: PAtom, start: nat)
    requires a.Reference? && ItemAt(v, p, a) && Callable(v, Data(a.unit)) && start + 1 == v.g.at(Data(a.unit))
    requires start < |v.c| && v.c[start] == META_CAPTURE + Data(a.unit)
    ensures !(start < p + AtomUnits(a) - 1 < start + 1 + AltsUnits(v.g.contents(Data(a.unit))))
  {
    ItemOpen(v, p, a);
    assert Peek(0);
    assert RefersTo(v.c[p], Data(a.unit));
    OffsetSmall(v.c, p + 1, a.offset);
  }

  /** The alternatives of a group that have not been read. */
  ghost predicate Others(v: Parsed, m: Marks, p: nat, rest: PAlts, end: nat, calm: bool) {
    && |m| == |v.c| && Inside(v, p, rest)
    && forall k: int {:trigger Look(k)} :: Look(k) ==>
         end == p + AltsUnits(rest) && if calm then CalmAlts(rest) else Clear(v.c, m, p, end)
  }

  lemma OthersFold(v: Parsed, m: Marks, p: nat, rest: PAlts, end: nat, calm: bool)
    requires |m| == |v.c| && Inside(v, p, rest) && end == p + AltsUnits(rest)
    requires if calm then CalmAlts(rest) else Clear(v.c, m, p, end)
    ensures Others(v, m, p, rest, end, calm)
  {
  }

  lemma OthersOpen(v: Parsed, m: Marks, p: nat, rest: PAlts, end: nat, calm: bool)
    requires Others(v, m, p, rest, end, calm)
    ensures end == p + AltsUnits(rest) && if calm then CalmAlts(rest) else Clear(v.c, m, p, end)
  {
    assert Look(0);
  }

  lemma OthersBranch(v: Parsed, m: Marks, p: nat, rest: PAlts, end: nat, calm: bool) returns (q: nat)
    requires Others(v, m, p, rest, end, calm)
    ensures q == p + BranchUnits(rest.branch) && Ahead(v, p, rest.branch)
    ensures q <= end && q < |v.c| && (v.c[q] == META_KET <==> rest.PLast?) && (rest.PLast? ==> q == end)
    ensures if calm then CalmBranch(rest.branch) else Clear(v.c, m, p, q)
  {
    OthersOpen(v, m, p, rest, end, calm);
    q := InsideBranch(v, p, rest);
    if rest.POr? { InsideMore(v, p, q + 1, rest); }
    if calm { CalmFirst(rest); } else { LessClear(v.c, m, p, end, p, q); }
  }

  lemma OthersOpeners(v: Parsed, m: Marks, p: nat, q: nat, rest: PAlts, end: nat, calm: bool)
    requires Others(v, m, p, rest, end, calm) && q == p + BranchUnits(rest.branch)
    ensures Openers(v.c, p, q) <= Openers(v.c, p, end)
    ensures rest.POr? ==> Openers(v.c, p, q) + 1 + Openers(v.c, q + 1, end) <= Openers(v.c, p, end)
  {
    OthersOpen(v, m, p, rest, end, calm);
    OpenersBranch(v, p, q, end, rest);
  }

  lemma CalmFirst(a: PAlts)
    requires CalmAlts(a)
    ensures CalmBranch(a.branch)
  {
    assert Look(0);
  }

  lemma OthersNext(v: Parsed, m: Marks, m': Marks, p: nat, q: nat, rest: PAlts, end: nat, calm: bool)
    requires Others(v, m, p, rest, end, calm) && q == p + BranchUnits(rest.branch) && rest.POr?
    requires Moved(v, m, m', p, if calm then p else q)
    ensures Others(v, m', q + 1, rest.more, end, calm)
  {
    OthersOpen(v, m, p, rest, end, calm);
    MovedGrows(v, m, m', p, if calm then p else q);
    InsideMore(v, p, q + 1, rest);
    if calm { CalmMore(rest); } else { OthersClear(v, m, m', p, q, end); }
    OthersFold(v, m', q + 1, rest.more, end, calm);
  }

  lemma OthersClear(v: Parsed, m: Marks, m': Marks, p: nat, q: nat, end: nat)
    requires Clear(v.c, m, p, end) && p <= q && Moved(v, m, m', p, q)
    ensures Clear(v.c, m', q + 1, end)
  {
    LessClear(v.c, m, p, end, q + 1, end);
    StillClear(v, m, m', p, q, q + 1, end);
  }

  lemma CalmMore(a: PAlts)
    requires CalmAlts(a) && a.POr?
    ensures CalmBranch(a.branch) && CalmAlts(a.more)
  {
    assert Look(0);
  }

  /** The alternatives of a group are being read; `rest` are left, from p on. */
  ghost predicate Grouping(v: Parsed, m0: Marks, m: Marks, p0: nat, alts: PAlts, p: nat, rest: PAlts, length: int,
                           d: nat,
                           end: nat, calm: bool) {
    forall k: int {:trigger Look(k)} :: Look(k) ==>
      && p0 <= p && Others(v, m, p, rest, end, calm) && Moved(v, m0, m, p0, if calm then p0 else end)
      && Merging(v.g, alts, rest, length, d) && AltsCovered(v.g, m, p0, alts, p, rest)
  }

  lemma GroupingStart(v: Parsed, m: Marks, p: nat, alts: PAlts, end: nat, calm: bool)
    requires Others(v, m, p, alts, end, calm)
    ensures Grouping(v, m, m, p, alts, p, alts, -1, 0, end, calm)
  {
    MovedNot(v, m, p, if calm then p else end);
  }

  lemma GroupingOpen(v: Parsed, m0: Marks, m: Marks, p0: nat, alts: PAlts, p: nat, rest: PAlts, length: int, d: nat,
                     end: nat, calm: bool)
    requires Grouping(v, m0, m, p0, alts, p, rest, length, d, end, calm)
    ensures p0 <= p && Others(v, m, p, rest, end, calm) && Moved(v, m0, m, p0, if calm then p0 else end)
    ensures Merging(v.g, alts, rest, length, d) && AltsCovered(v.g, m, p0, alts, p, rest)
  {
    assert Look(0);
  }

  /** All the alternatives of a group have been read, and have the length n. */
  ghost predicate GroupRead(g: Groups, m: Marks, p0: nat, alts: PAlts, n: nat, d: nat) {
    forall k: int {:trigger Look(k)} :: Look(k) ==>
      && AltsDone(g, m, p0, alts)
      && forall d': nat :: d' >= d ==> AltsLength(g, alts, d') == Some(n)
  }

  lemma GroupIsRead(g: Groups, m: Marks, p0: nat, alts: PAlts, n: nat, d: nat)
    requires AltsDone(g, m, p0, alts) && forall d': nat :: d' >= d ==> AltsLength(g, alts, d') == Some(n)
    ensures GroupRead(g, m, p0, alts, n, d)
  {
  }

  lemma GroupReadOpen(g: Groups, m: Marks, p0: nat, alts: PAlts, n: nat, d: nat)
    requires GroupRead(g, m, p0, alts, n, d)
    ensures AltsDone(g, m, p0, alts) && forall d': nat :: d' >= d ==> AltsLength(g, alts, d') == Some(n)
  {
    assert Look(0);
  }

  /** The alternatives that are left have a length that is found: that of those before, if there are any. */
  ghost predicate SureRest(v: Parsed, rest: PAlts, lv: nat, length: int) {
    && SureAlts(v, rest, lv) && AltsLength(v.g, rest, lv).Some?
    && (length == -1 || AltsLength(v.g, rest, lv) == Some(length))
  }

  lemma SureNext(v: Parsed, rest: PAlts, lv: nat, length: int, d: nat, n: int)
    requires SureRest(v, rest, lv, length) && forall d': nat :: d' >= d ==>
               BranchLength(v.g, rest.branch, d') == Some(n)
    ensures length == -1 || length == n
    ensures rest.POr? ==> SureRest(v, rest.more, lv, n)
  {
    assert AltsLength(v.g, rest, lv).Some? ==> BranchLength(v.g, rest.branch, lv).Some?;
    SureBranchLong(v.g, rest.branch, lv, d, n);
  }

  // --- the whole pattern --------------------------------------------------------------------------------

  /** All the lengths are found: the branches have lengths, with so many references inside each other, no unit is out of
      range, and there are not too many branches, those of the groups that are called counted with each call. */
  ghost predicate AllFindable(v: Parsed, matchUnset: bool, lv: nat) {
    && AllSure(v, 0, lv) && Proceeds(v.c, 0, 0) && !matchUnset
    && Openers(v.c, 0, |v.c|) + WalkCost(v, 0, 0, lv) <= 2001
  }

  /** Sets the lengths of all the lookbehinds that going through the pattern from its start comes to, and of those
      inside them. */
  method SetAllLengths(c: Code, bracount: nat, dup: bool, matchUnset: bool, ghost g: Groups)
      returns (error: int, finder: LengthFinder)
    requires GroupsFound(Parsed(c, g, bracount, dup))
    requires AllFound(Parsed(c, g, bracount, dup), 0, |c|, false)
    ensures fresh(finder) && finder.Valid() && finder.v == Parsed(c, g, bracount, dup)
    ensures error == 0 ==> AllDone(finder.v, finder.marks[..], 0)
    ensures IsLargest(finder.marks[..], finder.maxLookbehind)
    ensures (exists lv: nat :: AllFindable(finder.v, matchUnset, lv)) ==> error == 0
  {
    finder := new LengthFinder(c, bracount, dup, matchUnset, g);
    var ket;
    ghost var sure, lv: nat := false, 0;
    if exists lv: nat :: AllFindable(finder.v, matchUnset, lv) {
      sure := true;
      lv :| AllFindable(finder.v, matchUnset, lv);
      NoChain(finder.v, lv);
    }
    error, ket := finder.CheckLookbehinds(0, [], |c|, false, sure, lv);
    KeepsLargest(finder.v, finder.marks[..], finder.groupinfo[..], finder.maxLookbehind);
  }

  lemma KeepsLargest(v: Parsed, m: Marks, infos: seq<GroupInfo>, max: nat)
    requires Keeps(v, m, infos, max)
    ensures IsLargest(m, max)
  {
    assert Look(0);
  }

  /** The length at each unit of a lookbehind is that of everything that its branch can match. */
  ghost predicate CellsExact(g: Groups, m: Marks, cell: nat, x: nat, a: PAlts)
    decreases a
  {
    && cell < |m| && Exact(g, a.branch, m[cell])
    && (a.POr? ==> CellsExact(g, m, x + BranchUnits(a.branch), x + BranchUnits(a.branch) + 1, a.more))
  }

  lemma {:induction false} MarkedExact(g: Groups, m: Marks, cell: nat, x: nat, a: PAlts)
    requires CellsMarked(g, m, cell, x, a) && Fits(g, cell, x, a) && TwoSidedAlts(g, a) && AllTwoSided(g)
    ensures CellsExact(g, m, cell, x, a)
    decreases a
  {
    var d: nat :| BranchLength(g, g.behind(cell), d) == Some(m[cell]);
    LengthExact(g, a.branch, d, m[cell]);
    if a.POr? { MarkedExact(g, m, x + BranchUnits(a.branch), x + BranchUnits(a.branch) + 1, a.more); }
  }

  /** Where lengths have been written for a lookbehind, they are exact, if no condition has a single branch. */
  lemma BehindExact(v: Parsed, m: Marks, q: nat, end: nat)
    requires Behind(v, q, end) && BehindMarked(v.g, m, q) && TwoSidedAlts(v.g, v.g.looks(q)) && AllTwoSided(v.g)
    ensures CellsExact(v.g, m, q, q + 1 + SIZEOFFSET, v.g.looks(q))
  {
    assert Look(0);
    MarkedExact(v.g, m, q, q + 1 + SIZEOFFSET, v.g.looks(q));
  }

  // --- which groups are found ---------------------------------------------------------------------------

  /** The first item for group n is where its contents are, and no options value hides it. */
  ghost predicate InSight(v: Parsed, n: nat)
    requires Items(v.c, 0)
  {
    var t := META_CAPTURE + n;
    && FirstOf(v.c, 0, t).Some? && Visible(v.c, 0, FirstOf(v.c, 0, t).value, t)
    && v.g.at(n) == FirstOf(v.c, 0, t).value + 1 && Inside(v, v.g.at(n), v.g.contents(n)) && CalmAlts(v.g.contents(n))
  }

  lemma CaptureUnit(n: nat)
    requires n < 0x1_0000
    ensures Meta(META_CAPTURE + n) == META_CAPTURE && Data(META_CAPTURE + n) == n
  {
  }

  lemma VisibleGroup(v: Parsed, n: nat)
    requires Items(v.c, 0) && n < 65536 && InSight(v, n)
    ensures Scan(v.c, 0, META_CAPTURE + n) + 1 == v.g.at(n)
  {
    CaptureUnit(n);
    GroupFound(v.c, META_CAPTURE + n);
  }

  /** The groups that are referred to are where the items of the vector put them, and no options value hides one of
      them. */
  lemma VisibleGroups(v: Parsed)
    requires Items(v.c, 0) && v.count < 65536
    requires forall n: nat {:trigger InSight(v, n)} :: n in v.g.used && 0 < n <= v.count ==> InSight(v, n)
    ensures GroupsFound(v)
  {
    forall n: nat | n in v.g.used && 0 < n <= v.count
      ensures Scan(v.c, 0, META_CAPTURE + n) + 1 == v.g.at(n) && Inside(v, v.g.at(n), v.g.contents(n))
              && CalmAlts(v.g.contents(n))
    {
      assert InSight(v, n);
      VisibleGroup(v, n);
    }
  }
}
