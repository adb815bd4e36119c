/** The code units that the compiler looks for, and what happens to a match when the case of its first unit is
    changed. */
module CaseSwap {
  import opened Opcodes
  import opened Regex
  import opened Source

  /** REQ_UNSET, REQ_NONE, or the REQ_CASELESS and REQ_VARY bits of a known unit. */
  datatype Flags = Unset | Nothing | Known(caseless: bool, vary: bool)

  /** A unit and its flags: firstcu and firstcuflags, or reqcu and reqcuflags. */
  datatype UnitInfo = UnitInfo(c: Unit, flags: Flags)

  function UnitIn(u: UnitInfo): CodeUnit
    requires u.flags.Known?
  {
    CodeUnit(u.c, u.flags.caseless)
  }

  predicate Is(u: UnitInfo, c: int)
    requires u.flags.Known?
  {
    IsUnit(UnitIn(u), c)
  }

  ghost predicate HasUnit(u: UnitInfo, s: seq<Unit>, lo: nat, hi: nat)
    requires u.flags.Known?
  {
    exists k :: lo <= k < hi && k < |s| && Is(u, s[k])
  }

  // --- the subject with the case of one unit changed ---------------------------------------

  function FlipUnit(c: Unit): Unit { Flip(c) }

  function FlipAt(e: Env, i: nat): Env
    requires i < |e.s|
  {
    e.(s := e.s[i := FlipUnit(e.s[i])])
  }

  /** The newline is not a letter. */
  predicate PlainNewline(nl: Unit) { Flip(nl) == nl }

  lemma FlipWord(c: Unit)
    ensures IsWord(Flip(c)) == IsWord(c) && Flip(Flip(c)) == c
  {
  }

  /** Zero-width items do not see the change. */
  lemma HoldsFlip(op: int, e: Env, i: nat, m: nat)
    requires i < |e.s| && PlainNewline(e.nl)
    ensures Holds(op, FlipAt(e, i), m) == Holds(op, e, m)
  {
    FlipWord(e.s[i]);
    FlipWord(e.nl);
    var f := FlipAt(e, i);
    assert forall k: int :: WordAt(f, k) == WordAt(e, k);
    assert forall k: int :: NewlineAt(f, k) == NewlineAt(e, k);
  }

  /** A slice that does not hold offset i: it starts after it, or is empty there. */
  predicate Past(i: nat, m: nat, x: nat) { m > i || (m == i && x == i) }

  lemma {:induction false} AtomPast(a: Atom, e: Env, i: nat, m: nat, x: nat)
    requires i < |e.s| && PlainNewline(e.nl) && Past(i, m, x) && m <= |e.s| && InAtom(a, e, m, x)
    ensures InAtom(a, FlipAt(e, i), m, x)
    decreases a, 0
  {
    match a
    case One(it) =>
    case Zero(op) => HoldsFlip(op, e, i, m);
    case Paren(_, alts) => SAltsPast(alts, e, i, m, x);
  }

  lemma {:induction false} TimesPast(a: Atom, lo: nat, extra: int, e: Env, i: nat, m: nat, x: nat)
    requires i < |e.s| && PlainNewline(e.nl) && Past(i, m, x) && m <= |e.s| && InTimes(a, lo, extra, e, m, x)
    ensures InTimes(a, lo, extra, FlipAt(e, i), m, x)
    decreases a, 1, lo, if extra >= 0 then extra else |e.s| - m
  {
    var f := FlipAt(e, i);
    if lo > 0 {
      var y: nat :| m <= y <= |e.s| && InAtom(a, e, m, y) && InTimes(a, lo - 1, extra, e, y, x);
      TimesSpan(a, lo - 1, extra, e, y, x);
      AtomPast(a, e, i, m, y);
      TimesPast(a, lo - 1, extra, e, i, y, x);
      assert m <= y <= |f.s| && InAtom(a, f, m, y) && InTimes(a, lo - 1, extra, f, y, x);
    } else if m != x && extra > 0 {
      var y: nat :| m <= y <= |e.s| && InAtom(a, e, m, y) && InTimes(a, 0, extra - 1, e, y, x);
      AtomPast(a, e, i, m, y);
      TimesPast(a, 0, extra - 1, e, i, y, x);
      assert m <= y <= |f.s| && InAtom(a, f, m, y) && InTimes(a, 0, extra - 1, f, y, x);
    } else if m != x {
      var y: nat :| m < y <= |e.s| && InAtom(a, e, m, y) && InTimes(a, 0, extra, e, y, x);
      AtomPast(a, e, i, m, y);
      TimesPast(a, 0, extra, e, i, y, x);
      assert m < y <= |f.s| && InAtom(a, f, m, y) && InTimes(a, 0, extra, f, y, x);
    }
  }

  lemma {:induction false} ItemPast(a: Atom, q: Quant, e: Env, i: nat, m: nat, x: nat)
    requires i < |e.s| && PlainNewline(e.nl) && Past(i, m, x) && m <= |e.s| && InItem(a, q, e, m, x)
    ensures InItem(a, q, FlipAt(e, i), m, x)
    decreases a, 2
  {
    if q.Once? { AtomPast(a, e, i, m, x); } else { TimesPast(a, q.min, Extra(q), e, i, m, x); }
  }

  lemma {:induction false} SBranchPast(b: SrcBranch, e: Env, i: nat, m: nat, x: nat)
    requires i < |e.s| && PlainNewline(e.nl) && Past(i, m, x) && m <= |e.s| && InSBranch(b, e, m, x)
    ensures InSBranch(b, FlipAt(e, i), m, x)
    decreases b
  {
    if b.SCons? {
      var y: nat :| m <= y <= |e.s| && InItem(b.atom, b.quant, e, m, y) && InSBranch(b.rest, e, y, x);
      SBranchSpan(b.rest, e, y, x);
      ItemPast(b.atom, b.quant, e, i, m, y);
      SBranchPast(b.rest, e, i, y, x);
      var f := FlipAt(e, i);
      assert m <= y <= |f.s| && InItem(b.atom, b.quant, f, m, y) && InSBranch(b.rest, f, y, x);
    }
  }

  lemma {:induction false} SAltsPast(a: SrcAlts, e: Env, i: nat, m: nat, x: nat)
    requires i < |e.s| && PlainNewline(e.nl) && Past(i, m, x) && m <= |e.s| && InSAlts(a, e, m, x)
    ensures InSAlts(a, FlipAt(e, i), m, x)
    decreases a
  {
    if InSBranch(a.branch, e, m, x) { SBranchPast(a.branch, e, i, m, x); } else { SAltsPast(a.more, e, i, m, x); }
  }

  // --- the first copy of several, and the first item of a branch -------------------------------

  /** The first of at least one copy. */
  lemma FirstCopy(a: Atom, lo: nat, extra: int, e: Env, m: nat, x: nat) returns (y: nat)
    requires lo > 0 && m <= |e.s| && InTimes(a, lo, extra, e, m, x)
    ensures m <= y <= x <= |e.s| && InAtom(a, e, m, y) && InTimes(a, lo - 1, extra, e, y, x)
  {
    y :| m <= y <= |e.s| && InAtom(a, e, m, y) && InTimes(a, lo - 1, extra, e, y, x);
    TimesSpan(a, lo - 1, extra, e, y, x);
  }

  lemma CopyJoin(a: Atom, lo: nat, extra: int, e: Env, m: nat, y: nat, x: nat)
    requires lo > 0 && m <= y <= |e.s| && InAtom(a, e, m, y) && InTimes(a, lo - 1, extra, e, y, x)
    ensures InTimes(a, lo, extra, e, m, x)
  {
  }

  lemma FirstItem(b: SrcBranch, e: Env, i: nat, j: nat) returns (x: nat)
    requires b.SCons? && InSBranch(b, e, i, j)
    ensures i <= x <= |e.s| && InItem(b.atom, b.quant, e, i, x) && InSBranch(b.rest, e, x, j)
  {
    x :| i <= x <= |e.s| && InItem(b.atom, b.quant, e, i, x) && InSBranch(b.rest, e, x, j);
  }

  lemma ItemJoin(a: Atom, q: Quant, rest: SrcBranch, e: Env, i: nat, x: nat, j: nat)
    requires i <= x <= |e.s| && InItem(a, q, e, i, x) && InSBranch(rest, e, x, j)
    ensures InSBranch(SCons(a, q, rest), e, i, j)
  {
  }

  // --- a caseless unit occurs after the first unit, or the first unit may change its case ------

  ghost predicate Late(u: CodeUnit, s: seq<Unit>, i: nat, j: nat) {
    exists k :: i < k < j && k < |s| && IsUnit(u, s[k])
  }

  ghost predicate SwapsAtom(a: Atom, u: CodeUnit) {
    u.caseless ==>
      forall e: Env, i: nat, j: nat {:trigger InAtom(a, e, i, j)} ::
        i < |e.s| && PlainNewline(e.nl) && InAtom(a, e, i, j) ==> Late(u, e.s, i, j) || InAtom(a, FlipAt(e, i), i, j)
  }

  ghost predicate SwapsBranch(b: SrcBranch, u: CodeUnit) {
    u.caseless ==>
      forall e: Env, i: nat, j: nat {:trigger InSBranch(b, e, i, j)} ::
        i < |e.s| && PlainNewline(e.nl) && InSBranch(b, e, i, j) ==>
            Late(u, e.s, i, j) || InSBranch(b, FlipAt(e, i), i, j)
  }

  ghost predicate SwapsAlts(a: SrcAlts, u: CodeUnit) {
    u.caseless ==>
      forall e: Env, i: nat, j: nat {:trigger InSAlts(a, e, i, j)} ::
        i < |e.s| && PlainNewline(e.nl) && InSAlts(a, e, i, j) ==> Late(u, e.s, i, j) || InSAlts(a, FlipAt(e, i), i, j)
  }

  /** Every slice of the item holds the unit; for a branch, every slice is longer than nothing. */
  ghost predicate AtomHas(a: Atom, u: CodeUnit) {
    forall e: Env, i: nat, j: nat {:trigger InAtom(a, e, i, j)} ::
      i <= |e.s| && InAtom(a, e, i, j) ==> exists k :: i <= k < j && k < |e.s| && IsUnit(u, e.s[k])
  }

  ghost predicate Consumes(b: SrcBranch) {
    forall e: Env, i: nat, j: nat {:trigger InSBranch(b, e, i, j)} :: i <= |e.s| && InSBranch(b, e, i, j) ==> i < j
  }

  /** The unit comes from the item itself. */
  ghost predicate Comes(a: Atom, u: CodeUnit) { SwapsAtom(a, u) && AtomHas(a, u) }

  // --- one more item at the end of a branch ------------------------------------------------------

  function Snoc(b: SrcBranch, a: Atom, q: Quant): SrcBranch {
    if b.SNil? then SCons(a, q, SNil) else SCons(b.atom, b.quant, Snoc(b.rest, a, q))
  }

  function Append(b: SrcBranch, c: SrcBranch): SrcBranch {
    if b.SNil? then c else SCons(b.atom, b.quant, Append(b.rest, c))
  }

  lemma {:induction false} SnocAppend(b: SrcBranch, c: SrcBranch)
    requires c.SCons?
    ensures Append(Snoc(b, c.atom, c.quant), c.rest) == Append(b, c)
    decreases b
  {
    if b.SCons? { SnocAppend(b.rest, c); }
  }

  lemma {:induction false} AppendNil(b: SrcBranch)
    ensures Append(b, SNil) == b
    decreases b
  {
    if b.SCons? { AppendNil(b.rest); }
  }

  lemma {:induction false} SnocSplit(b: SrcBranch, a: Atom, q: Quant, e: Env, i: nat, j: nat) returns (m: nat)
    requires i <= |e.s| && InSBranch(Snoc(b, a, q), e, i, j)
    ensures i <= m <= j <= |e.s| && InSBranch(b, e, i, m) && InItem(a, q, e, m, j)
    decreases b
  {
    var c := Snoc(b, a, q);
    var y: nat :| i <= y <= |e.s| && InItem(c.atom, c.quant, e, i, y) && InSBranch(c.rest, e, y, j);
    SBranchSpan(c.rest, e, y, j);
    if b.SNil? { m := i; } else { m := SnocSplit(b.rest, a, q, e, y, j); }
  }

  lemma {:induction false} SnocJoin(b: SrcBranch, a: Atom, q: Quant, e: Env, i: nat, m: nat, j: nat)
    requires i <= |e.s| && InSBranch(b, e, i, m) && m <= |e.s| && InItem(a, q, e, m, j)
    ensures InSBranch(Snoc(b, a, q), e, i, j)
    decreases b
  {
    ItemSpan(a, q, e, m, j);
    if b.SNil? {
      assert InSBranch(SNil, e, j, j);
      ItemJoin(a, q, SNil, e, i, j, j);
    } else {
      var y := FirstItem(b, e, i, m);
      SnocJoin(b.rest, a, q, e, y, m, j);
      ItemJoin(b.atom, b.quant, Snoc(b.rest, a, q), e, i, y, j);
    }
  }

  lemma Later(u: CodeUnit, s: seq<Unit>, i: nat, m: nat, x: nat, j: nat)
    requires Late(u, s, m, x) && i <= m && x <= j
    ensures Late(u, s, i, j)
  {
    var k :| m < k < x && k < |s| && IsUnit(u, s[k]);
  }

  /** A unit that was known before the item. */
  lemma SwapKept(b: SrcBranch, a: Atom, q: Quant, u: CodeUnit)
    requires SwapsBranch(b, u) && Consumes(b)
    ensures SwapsBranch(Snoc(b, a, q), u)
  {
    if u.caseless {
      forall e: Env, i: nat, j: nat | i < |e.s| && PlainNewline(e.nl) && InSBranch(Snoc(b, a, q), e, i, j)
        ensures Late(u, e.s, i, j) || InSBranch(Snoc(b, a, q), FlipAt(e, i), i, j)
      {
        var m := SnocSplit(b, a, q, e, i, j);
        if Late(u, e.s, i, m) {
          Later(u, e.s, i, i, m, j);
        } else {
          ItemPast(a, q, e, i, m, j);
          SnocJoin(b, a, q, FlipAt(e, i), i, m, j);
        }
      }
    }
  }

  /** The first copy of an item: it may change the case of its first unit, and the copies after it do not see that. */
  lemma ItemSwaps(a: Atom, q: Quant, u: CodeUnit, e: Env, i: nat, j: nat)
    requires (q.Once? || q.min > 0) && u.caseless && Comes(a, u) && i < |e.s| && PlainNewline(e.nl)
             && InItem(a, q, e, i, j)
    ensures Late(u, e.s, i, j) || InItem(a, q, FlipAt(e, i), i, j)
  {
    if q.Times? {
      var y := FirstCopy(a, q.min, Extra(q), e, i, j);
      assert InAtom(a, e, i, y);
      if Late(u, e.s, i, y) {
        Later(u, e.s, i, i, y, j);
      } else {
        TimesPast(a, q.min - 1, Extra(q), e, i, y, j);
        CopyJoin(a, q.min, Extra(q), FlipAt(e, i), i, y, j);
      }
    } else {
      assert InAtom(a, e, i, j);
    }
  }

  lemma ItemHas(a: Atom, q: Quant, u: CodeUnit, e: Env, m: nat, j: nat) returns (k: nat)
    requires (q.Once? || q.min > 0) && AtomHas(a, u) && m <= |e.s| && InItem(a, q, e, m, j)
    ensures m <= k < j && k < |e.s| && IsUnit(u, e.s[k])
  {
    var y: nat := j;
    if q.Times? { y := FirstCopy(a, q.min, Extra(q), e, m, j); }
    assert InAtom(a, e, m, y);
    k :| m <= k < y && k < |e.s| && IsUnit(u, e.s[k]);
  }

  /** A unit that comes from the item. */
  lemma SwapComes(b: SrcBranch, a: Atom, q: Quant, u: CodeUnit)
    requires (q.Once? || q.min > 0) && Comes(a, u)
    ensures SwapsBranch(Snoc(b, a, q), u)
  {
    if u.caseless {
      forall e: Env, i: nat, j: nat | i < |e.s| && PlainNewline(e.nl) && InSBranch(Snoc(b, a, q), e, i, j)
        ensures Late(u, e.s, i, j) || InSBranch(Snoc(b, a, q), FlipAt(e, i), i, j)
      {
        var m := SnocSplit(b, a, q, e, i, j);
        if m > i {
          var k := ItemHas(a, q, u, e, m, j);
        } else {
          ItemSwaps(a, q, u, e, i, j);
          if !Late(u, e.s, i, j) {
            SBranchPast(b, e, i, i, i);
            SnocJoin(b, a, q, FlipAt(e, i), i, i, j);
          }
        }
      }
    }
  }

  /** Two copies, each of which holds the unit. */
  lemma SwapTwice(b: SrcBranch, a: Atom, q: Quant, u: CodeUnit)
    requires q.Times? && q.min > 1 && AtomHas(a, u)
    ensures SwapsBranch(Snoc(b, a, q), u)
  {
    if u.caseless {
      forall e: Env, i: nat, j: nat | i < |e.s| && PlainNewline(e.nl) && InSBranch(Snoc(b, a, q), e, i, j)
        ensures Late(u, e.s, i, j)
      {
        var m := SnocSplit(b, a, q, e, i, j);
        var y := FirstCopy(a, q.min, Extra(q), e, m, j);
        var z := FirstCopy(a, q.min - 1, Extra(q), e, y, j);
        var k :| m <= k < y && k < |e.s| && IsUnit(u, e.s[k]);
        var l :| y <= l < z && l < |e.s| && IsUnit(u, e.s[l]);
      }
    }
  }

  lemma LiteralComes(it: Item)
    requires it.Lit? && (it.op == OP_CHAR || it.op == OP_CHARI)
    ensures Comes(One(it), CodeUnit(it.c, it.op == OP_CHARI))
  {
    var u := CodeUnit(it.c, it.op == OP_CHARI);
    forall e: Env, i: nat, j: nat | i < |e.s| && PlainNewline(e.nl) && InAtom(One(it), e, i, j) && u.caseless
      ensures InAtom(One(it), FlipAt(e, i), i, j)
    {
      FlipWord(it.c);
    }
  }
}
