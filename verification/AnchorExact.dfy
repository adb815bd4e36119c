/** When it is right to take a pattern to be anchored, and when it is not. */
module AnchorExact {
  import opened Opcodes
  import opened Regex
  import opened Language
  import opened Source
  import opened Unroll
  import opened Anchor

  // --- when trying only the start loses nothing ----------------------------------------------------

  ghost predicate BeginsAt(b: Branch, e: Env, i: nat) { exists j: nat :: InBranch(b, e, i, j) }

  /** Where a branch matches at all from the start of the search on, it matches at the start. */
  ghost predicate LosesNothing(b: Branch) { forall e: Env, i: nat :: Moves(b, e, i) }

  ghost predicate Moves(b: Branch, e: Env, i: nat) {
    e.som <= i <= |e.s| && BeginsAt(b, e, i) ==> BeginsAt(b, e, e.som)
  }

  lemma SoundLosesNothing(b: Branch)
    requires SoundBranch(b)
    ensures LosesNothing(b)
  {
    forall e: Env, i: nat ensures Moves(b, e, i) {
      if e.som <= i <= |e.s| && BeginsAt(b, e, i) {
        var j: nat :| InBranch(b, e, i, j);
        BranchSliceMoves(b, e, i, j);
      }
    }
  }

  lemma SkipsNothing(g: Node, t: Branch, e: Env, i: nat, j: nat)
    requires i <= |e.s|
    ensures InBranch(Cons(Optional(OP_SKIPZERO, g), t), e, i, j) <==> InBranch(t, e, i, j)
  {
    var n := Optional(OP_SKIPZERO, g);
    if InBranch(Cons(n, t), e, i, j) {
      var m := HeadSlice(Cons(n, t), e, i, j);
      assert m == i;
    }
    if InBranch(t, e, i, j) { assert InNode(n, e, i, i); }
  }

  /** A bracket that is skipped makes no difference, whatever is in it. */
  lemma SkippedLoses(g: Node, t: Branch)
    ensures LosesNothing(Cons(Optional(OP_SKIPZERO, g), t)) <==> LosesNothing(t)
  {
    var b := Cons(Optional(OP_SKIPZERO, g), t);
    forall e: Env, i: nat | i <= |e.s| ensures BeginsAt(b, e, i) <==> BeginsAt(t, e, i) {
      if BeginsAt(b, e, i) {
        var j: nat :| InBranch(b, e, i, j);
        SkipsNothing(g, t, e, i, j);
      }
      if BeginsAt(t, e, i) {
        var j: nat :| InBranch(t, e, i, j);
        SkipsNothing(g, t, e, i, j);
      }
    }
    forall e: Env, i: nat ensures Moves(b, e, i) <==> Moves(t, e, i) { }
    if LosesNothing(t) {
      forall e: Env, i: nat ensures Moves(b, e, i) { assert Moves(t, e, i); }
    }
    if LosesNothing(b) {
      forall e: Env, i: nat ensures Moves(t, e, i) { assert Moves(b, e, i); }
    }
  }

  // --- a subject that matches later but not at the start --------------------------------------------

  /** No zero-width items. */
  predicate FreeNode(n: Node) {
    match n
    case Assert(_) => false
    case Group(_, _, alts, _) => FreeAlts(alts)
    case Optional(_, g) => FreeNode(g)
    case _ => true
  }

  predicate FreeAlts(a: Alts) { FreeBranch(a.branch) && (a.Or? ==> FreeAlts(a.more)) }

  predicate FreeBranch(b: Branch) { b.Nil? || (FreeNode(b.head) && FreeBranch(b.tail)) }

  /** From x on, one subject is what the other is from i on. */
  ghost predicate SameTail(e: Env, i: nat, f: Env, x: nat) {
    && f.nl == e.nl && i <= |e.s| && x <= |f.s| && |f.s| - x == |e.s| - i
    && forall q: nat {:trigger f.s[q]} :: x <= q < |f.s| ==> f.s[q] == e.s[q - x + i]
  }

  lemma TailAt(e: Env, i: nat, f: Env, x: nat, p: nat, q: nat)
    requires SameTail(e, i, f, x) && i <= p && q + i == x + p
    ensures p < |e.s| <==> q < |f.s|
    ensures p < |e.s| ==> f.s[q] == e.s[p]
  {
    if p < |e.s| { assert q - x + i == p; }
  }

  lemma {:induction false} NodeShift(n: Node, e: Env, i: nat, f: Env, x: nat, p: nat, q: nat, j: nat, y: nat)
    requires SameTail(e, i, f, x) && FreeNode(n) && i <= p <= |e.s| && q + i == x + p && y + i == x + j
             && InNode(n, e, p, j)
    ensures InNode(n, f, q, y)
    decreases n, |e.s| - p
  {
    NodeSpan(n, e, p, j);
    match n
    case Single(it) => TailAt(e, i, f, x, p, q);
    case Repeat(it, r) =>
      forall k: nat | q <= k < y ensures MatchesAt(it, f, k) {
        var l := k + i - x;
        TailAt(e, i, f, x, l, k);
        assert MatchesAt(it, e, l);
      }
    case Optional(op, g) => if p != j { NodeShift(g, e, i, f, x, p, q, j, y); }
    case Group(_, _, alts, _) =>
      if InAlts(alts, e, p, j) {
        AltsShift(alts, e, i, f, x, p, q, j, y);
      } else {
        var m: nat :| p < m <= |e.s| && InAlts(alts, e, p, m) && InNode(n, e, m, j);
        var z := m + x - i;
        AltsShift(alts, e, i, f, x, p, q, m, z);
        NodeShift(n, e, i, f, x, m, z, j, y);
        assert q < z <= |f.s| && InAlts(alts, f, q, z) && InNode(n, f, z, y);
      }
  }

  lemma {:induction false} AltsShift(a: Alts, e: Env, i: nat, f: Env, x: nat, p: nat, q: nat, j: nat, y: nat)
    requires SameTail(e, i, f, x) && FreeAlts(a) && i <= p <= |e.s| && q + i == x + p && y + i == x + j
             && InAlts(a, e, p, j)
    ensures InAlts(a, f, q, y)
    decreases a
  {
    if InBranch(a.branch, e, p, j) {
      BranchShift(a.branch, e, i, f, x, p, q, j, y);
    } else {
      AltsShift(a.more, e, i, f, x, p, q, j, y);
    }
  }

  lemma {:induction false} BranchShift(b: Branch, e: Env, i: nat, f: Env, x: nat, p: nat, q: nat, j: nat, y: nat)
    requires SameTail(e, i, f, x) && FreeBranch(b) && i <= p <= |e.s| && q + i == x + p && y + i == x + j
             && InBranch(b, e, p, j)
    ensures InBranch(b, f, q, y)
    decreases b
  {
    if b.Cons? {
      var m: nat :| p <= m <= |e.s| && InNode(b.head, e, p, m) && InBranch(b.tail, e, m, j);
      var z := m + x - i;
      NodeShift(b.head, e, i, f, x, p, q, m, z);
      BranchShift(b.tail, e, i, f, x, m, z, j, y);
      assert q <= z <= |f.s| && InNode(b.head, f, q, z) && InBranch(b.tail, f, z, y);
    }
  }

  /** Where the item or group consumes anything, it does not start with d. */
  predicate ShutsNode(n: Node, nl: Unit, d: Unit) {
    match n
    case Single(it) => !Matches(it, nl, d)
    case Repeat(it, _) => !Matches(it, nl, d)
    case Assert(_) => true
    case Optional(op, g) => op == OP_SKIPZERO || ShutsNode(g, nl, d)
    case Group(_, _, alts, _) => ShutsAlts(alts, nl, d)
  }

  predicate ShutsAlts(a: Alts, nl: Unit, d: Unit) {
    ShutsBranch(a.branch, nl, d) && (a.Or? ==> ShutsAlts(a.more, nl, d))
  }

  /** What follows an item matters only where the item can match nothing. */
  predicate ShutsBranch(b: Branch, nl: Unit, d: Unit) {
    b.Cons? ==> ShutsNode(b.head, nl, d) && (EmptyNode(b.head) ==> ShutsBranch(b.tail, nl, d))
  }

  /** Without zero-width items, what matches the empty slice once can always do so. */
  lemma {:induction false} NodeEmpty(n: Node, e: Env, i: nat)
    requires FreeNode(n) && i <= |e.s| && InNode(n, e, i, i)
    ensures EmptyNode(n)
    decreases n
  {
    if n.Group? {
      if !InAlts(n.alts, e, i, i) {
        var m: nat :| i < m <= |e.s| && InAlts(n.alts, e, i, m) && InNode(n, e, m, i);
        NodeSpan(n, e, m, i);
      }
      AltsEmpty(n.alts, e, i);
    }
  }

  lemma {:induction false} AltsEmpty(a: Alts, e: Env, i: nat)
    requires FreeAlts(a) && i <= |e.s| && InAlts(a, e, i, i)
    ensures EmptyAlts(a)
    decreases a
  {
    if InBranch(a.branch, e, i, i) { BranchEmpty(a.branch, e, i); } else { AltsEmpty(a.more, e, i); }
  }

  lemma {:induction false} BranchEmpty(b: Branch, e: Env, i: nat)
    requires FreeBranch(b) && i <= |e.s| && InBranch(b, e, i, i)
    ensures EmptyBranch(b)
    decreases b
  {
    if b.Cons? {
      var m := HeadSlice(b, e, i, i);
      BranchSpan(b.tail, e, m, i);
      NodeEmpty(b.head, e, i);
      BranchEmpty(b.tail, e, i);
    }
  }

  lemma {:induction false} NodeShut(n: Node, e: Env, i: nat, j: nat, d: Unit)
    requires FreeNode(n) && ShutsNode(n, e.nl, d) && i < |e.s| && e.s[i] == d && InNode(n, e, i, j)
    ensures i == j
    decreases n
  {
    NodeSpan(n, e, i, j);
    match n
    case Single(it) =>
    case Repeat(it, r) => assert i < j ==> MatchesAt(it, e, i);
    case Optional(op, g) => if i != j { NodeShut(g, e, i, j, d); }
    case Group(_, _, alts, _) =>
      if InAlts(alts, e, i, j) {
        AltsShut(alts, e, i, j, d);
      } else {
        var m: nat :| i < m <= |e.s| && InAlts(alts, e, i, m) && InNode(n, e, m, j);
        AltsShut(alts, e, i, m, d);
      }
  }

  lemma {:induction false} AltsShut(a: Alts, e: Env, i: nat, j: nat, d: Unit)
    requires FreeAlts(a) && ShutsAlts(a, e.nl, d) && i < |e.s| && e.s[i] == d && InAlts(a, e, i, j)
    ensures i == j
    decreases a
  {
    if InBranch(a.branch, e, i, j) { BranchShut(a.branch, e, i, j, d); } else { AltsShut(a.more, e, i, j, d); }
  }

  lemma {:induction false} BranchShut(b: Branch, e: Env, i: nat, j: nat, d: Unit)
    requires FreeBranch(b) && ShutsBranch(b, e.nl, d) && i < |e.s| && e.s[i] == d && InBranch(b, e, i, j)
    ensures i == j
    decreases b
  {
    if b.Cons? {
      var m := HeadSlice(b, e, i, j);
      NodeShut(b.head, e, i, m, d);
      NodeEmpty(b.head, e, i);
      BranchShut(b.tail, e, i, j, d);
    }
  }

  /** Before a unit that a branch shuts out it does not match, unless it can match nothing. */
  lemma NotBefore(b: Branch, f: Env, d: Unit)
    requires FreeBranch(b) && !EmptyBranch(b) && ShutsBranch(b, f.nl, d) && 0 < |f.s| && f.s[0] == d
    ensures !BeginsAt(b, f, 0)
  {
    forall y: nat ensures !InBranch(b, f, 0, y) {
      if InBranch(b, f, 0, y) {
        BranchShut(b, f, 0, y, d);
        BranchEmpty(b, f, 0);
      }
    }
  }

  /** A branch without zero-width items that consumes something, and that shuts out a unit at its start, but matches
      something: after that unit it matches, but not before it. */
  lemma ConsumingLoses(b: Branch, d: Unit, e: Env, i: nat, j: nat)
    requires FreeBranch(b) && !EmptyBranch(b) && ShutsBranch(b, e.nl, d)
    requires i <= |e.s| && InBranch(b, e, i, j)
    ensures var f := Env([d] + e.s[i..], e.nl, 0); BeginsAt(b, f, 1) && !BeginsAt(b, f, 0)
    ensures !LosesNothing(b)
  {
    var f := Env([d] + e.s[i..], e.nl, 0);
    BranchSpan(b, e, i, j);
    BranchShift(b, e, i, f, 1, i, 1, j, 1 + j - i);
    assert !Moves(b, f, 1) by { assert BeginsAt(b, f, 1); NotBefore(b, f, d); }
  }

  lemma EmptyLosesNothing(b: Branch)
    requires EmptyBranch(b)
    ensures LosesNothing(b)
  {
    forall e: Env, i: nat ensures Moves(b, e, i) {
      if e.som <= i <= |e.s| { EmptyBranchIn(b, e, e.som); }
    }
  }

  /** Branches of which it can be seen whether they may be taken to be anchored: apart from brackets that are to be
      skipped they start with something that anchors them, can match nothing, or shut out some unit. */
  ghost predicate Decided(b: Branch) {
    var q := Unskipped(b);
    (q.Cons? && SoundNode(q.head)) || EmptyBranch(q) || ShutsSome(q)
  }

  ghost predicate ShutsSome(q: Branch) {
    && FreeBranch(q)
    && exists d: Unit, e: Env, i: nat, j: nat :: i <= |e.s| && ShutsBranch(q, e.nl, d) && InBranch(q, e, i, j)
  }

  lemma {:induction false} UnskippedEmpty(b: Branch)
    ensures EmptyBranch(b) <==> EmptyBranch(Unskipped(b))
    decreases b
  {
    if b.Cons? && b.head.Optional? && b.head.op == OP_SKIPZERO { UnskippedEmpty(b.tail); }
  }

  lemma {:induction false} UnskippedLoses(b: Branch)
    ensures LosesNothing(b) <==> LosesNothing(Unskipped(b))
    decreases b
  {
    if b.Cons? && b.head.Optional? && b.head.op == OP_SKIPZERO {
      UnskippedLoses(b.tail);
      SkippedLoses(b.head.group, b.tail);
    }
  }

  /** Trying only the start loses nothing for such a branch exactly when it is anchored or can match nothing. */
  lemma AnchoredExactly(b: Branch)
    requires Decided(b)
    ensures LosesNothing(b) <==> SoundBranch(b) || EmptyBranch(b)
  {
    UnskippedLoses(b);
    UnskippedEmpty(b);
    var q := Unskipped(b);
    if SoundBranch(b) {
      SoundLosesNothing(b);
    } else if EmptyBranch(b) {
      EmptyLosesNothing(b);
    } else {
      var d: Unit, e: Env, i: nat, j: nat :| i <= |e.s| && ShutsBranch(q, e.nl, d) && InBranch(q, e, i, j);
      ConsumingLoses(q, d, e, i, j);
    }
  }

  // --- a bracket that misleads the scan ---------------------------------------------------------------

  function Letter(c: Unit): Atom { One(Lit(OP_CHAR, c)) }

  /** The code of (?:a|^b){0}c */
  function SkippedGroup(): Node {
    Group(OP_BRA, 0, Or(Cons(Single(Lit(OP_CHAR, 97)), Nil),
                        Last(Cons(Assert(OP_CIRC), Cons(Single(Lit(OP_CHAR, 98)), Nil)))), OP_KET)
  }

  function SkippedPattern(): Node {
    Group(OP_BRA, 0, Last(Cons(Optional(OP_SKIPZERO, SkippedGroup()), Cons(Single(Lit(OP_CHAR, 99)), Nil))), OP_KET)
  }

  function SkippedSource(): SrcAlts {
    var inner := SOr(SCons(Letter(97), Once, SNil), SLast(SCons(Zero(OP_CIRC), Once, SCons(Letter(98), Once, SNil))));
    SLast(SCons(Paren(0, inner), Times(0, 0, false), SCons(Letter(99), Once, SNil)))
  }

  lemma SkippedIsCompiled()
    ensures OkSAlts(SkippedSource()) && CodeOf(SkippedSource()) == SkippedPattern()
  {
  }

  lemma OnlyTheTail(p: Node, g: Node, t: Branch, e: Env, i: nat)
    requires p.Group? && p.ket == OP_KET && p.alts == Last(Cons(Optional(OP_SKIPZERO, g), t)) && OkNode(p) && i <= |e.s|
    ensures FirstMatch(p, e, i).Some? ==> BeginsAt(t, e, i)
  {
    MatchIsSlice(p, e, i);
    if FirstMatch(p, e, i).Some? { SkipsNothing(g, t, e, i, FirstMatch(p, e, i).value.pos); }
  }

  /** The scan lands in the second alternative of the skipped bracket and takes the pattern to be anchored, although it
      matches the c of "xc" and not at the start. */
  lemma SkippedIsNotAnchored()
    ensures var p, e := SkippedPattern(), Env([120, 99], 10, 0);
            AnchorNode(p) && !SoundNode(p) && FirstMatch(p, e, 1).Some? && FirstMatch(p, e, 0).None?
  {
    var e, g, it := Env([120, 99], 10, 0), SkippedGroup(), Lit(OP_CHAR, 99);
    var t := Cons(Single(it), Nil);
    var b := Cons(Optional(OP_SKIPZERO, g), t);
    var p := SkippedPattern();
    assert OkNode(p) && NoPossessive(p) by { assert OkNode(g) && NoPossessive(g); }
    assert InBranch(t, e, 1, 2) by { assert InNode(Single(it), e, 1, 2) && InBranch(Nil, e, 2, 2); }
    SkipsNothing(g, t, e, 1, 2);
    assert InNode(p, e, 1, 2);
    MatchIsSlice(p, e, 1);
    OnlyTheTail(p, g, t, e, 0);
    NotBefore(t, e, 120);
  }
}
