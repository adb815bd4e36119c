/** Whether a pattern is anchored: when it is, only the start of the search has to be tried. */
module Anchor {
  import opened Folding
  import opened Opcodes
  import opened Regex
  import opened Language
  import opened Layout
  import opened Source
  import opened Unroll

  // --- the analysis, by structure ---------------------------------------------------------

  /** What the first significant code of a branch starts. A bracket that is to be skipped is passed over by way of its
      first link: where it has alternatives, that leads into the second one. */
  function Significant(b: Branch): (r: Branch)
    ensures r == b || (b decreases to r)
  {
    if b.Cons? && b.head.Optional? && b.head.op == OP_SKIPZERO && b.head.group.Group? then
      if b.head.group.alts.Or? then Significant(b.head.group.alts.more.branch) else Significant(b.tail)
    else b
  }

  predicate AnchorNode(n: Node) {
    match n
    case Group(_, _, alts, _) => AnchorAlts(alts)
    case Repeat(it, r) => it == Type(OP_ALLANY) && (r.op == OP_STAR || r.op == OP_MINSTAR || r.op == OP_POSSTAR)
    case Assert(op) => op == OP_SOD || op == OP_SOM || op == OP_CIRC
    case _ => false
  }

  predicate AnchorAlts(a: Alts) {
    AnchorBranch(a.branch) && (a.Or? ==> AnchorAlts(a.more))
  }

  predicate AnchorBranch(b: Branch) {
    var q := Significant(b);
    q.Cons? && AnchorNode(q.head)
  }

  // --- the analysis as it should be -----------------------------------------------------------

  /** A branch without the brackets at its start that are to be skipped. */
  function Unskipped(b: Branch): (r: Branch)
    ensures r == b || (b decreases to r)
  {
    if b.Cons? && b.head.Optional? && b.head.op == OP_SKIPZERO then Unskipped(b.tail) else b
  }

  predicate SoundNode(n: Node) {
    match n
    case Group(_, _, alts, _) => SoundAlts(alts)
    case Repeat(it, r) => it == Type(OP_ALLANY) && (r.op == OP_STAR || r.op == OP_MINSTAR || r.op == OP_POSSTAR)
    case Assert(op) => op == OP_SOD || op == OP_SOM || op == OP_CIRC
    case _ => false
  }

  predicate SoundAlts(a: Alts) { SoundBranch(a.branch) && (a.Or? ==> SoundAlts(a.more)) }

  predicate SoundBranch(b: Branch) {
    var q := Unskipped(b);
    q.Cons? && SoundNode(q.head)
  }

  /** On the way to the first significant code of each branch there is no skipped bracket with alternatives. */
  predicate PlainNode(n: Node) { n.Group? ==> PlainAlts(n.alts) }

  predicate PlainAlts(a: Alts) { PlainBranch(a.branch) && (a.Or? ==> PlainAlts(a.more)) }

  predicate PlainBranch(b: Branch) {
    b.Nil? ||
    if b.head.Optional? && b.head.op == OP_SKIPZERO then b.head.group.Group? && b.head.group.alts.Last?
       && PlainBranch(b.tail)
    else PlainNode(b.head)
  }

  /** The scan can go wrong only where it passes over a bracket with alternatives. */
  lemma {:induction false} PlainSame(n: Node)
    requires PlainNode(n)
    ensures AnchorNode(n) <==> SoundNode(n)
    decreases n
  {
    if n.Group? { PlainSameAlts(n.alts); }
  }

  lemma {:induction false} PlainSameAlts(a: Alts)
    requires PlainAlts(a)
    ensures AnchorAlts(a) <==> SoundAlts(a)
    decreases a
  {
    PlainSameBranch(a.branch);
    if a.Or? { PlainSameAlts(a.more); }
  }

  lemma {:induction false} PlainSameBranch(b: Branch)
    requires PlainBranch(b)
    ensures AnchorBranch(b) <==> SoundBranch(b)
    decreases b
  {
    if b.Cons? {
      if b.head.Optional? && b.head.op == OP_SKIPZERO { PlainSameBranch(b.tail); } else { PlainSame(b.head); }
    }
  }

  // --- what being anchored means -----------------------------------------------------------------

  /** The second continuation succeeds wherever the first one does, whatever was captured. */
  ghost predicate Below(k: Kont, l: Kont) {
    forall r: State, t: State {:trigger k(r), l(t)} :: r.pos == t.pos && k(r).Some? ==> l(t).Some?
  }

  lemma {:induction false} RepeatAlike(it: Item, lo: nat, hi: int, mode: Mode, e: Env, st: State, t: State, k: Kont,
                                       l: Kont)
    requires st.pos == t.pos && Below(k, l) && TryRepeat(it, lo, hi, mode, e, st, k).Some?
    ensures TryRepeat(it, lo, hi, mode, e, t, l).Some?
    decreases |e.s| - st.pos
  {
    if hi != 0 && MatchesAt(it, e, st.pos) {
      var lo' := if lo > 0 then lo - 1 else 0;
      if TryRepeat(it, lo', Less(hi), mode, e, At(st, st.pos + 1), k).Some? {
        RepeatAlike(it, lo', Less(hi), mode, e, At(st, st.pos + 1), At(t, t.pos + 1), k, l);
      }
    }
  }

  lemma {:induction false} NodeAlike(n: Node, e: Env, st: State, t: State, k: Kont, l: Kont)
    requires st.pos == t.pos && Below(k, l) && TryNode(n, e, st, k).Some?
    ensures TryNode(n, e, t, l).Some?
    decreases n, |e.s| - st.pos
  {
    match n
    case Single(it) => assert l(At(t, t.pos + 1)).Some?;
    case Repeat(it, r) => RepeatAlike(it, Lo(r), Hi(r), ModeOf(r), e, st, t, k, l);
    case Assert(op) =>
    case Optional(op, g) =>
      if TryNode(g, e, st, k).Some? && op != OP_SKIPZERO { NodeAlike(g, e, st, t, k, l); }
    case Group(_, _, alts, _) =>
      KetBelow(n, e, st.pos, t.pos, k, l);
      AltsAlike(alts, e, st, t, r => AfterKet(n, e, st.pos, r, k), r => AfterKet(n, e, t.pos, r, l));
  }

  /** A bracket that was entered earlier goes round again at least as often. */
  lemma {:induction false} KetBelow(g: Node, e: Env, i: nat, x: nat, k: Kont, l: Kont)
    requires g.Group? && x <= i && Below(k, l)
    ensures Below(r => AfterKet(g, e, i, r, k), r => AfterKet(g, e, x, r, l))
    decreases g, |e.s| - i, 0
  {
    forall r: State, t: State | r.pos == t.pos && AfterKet(g, e, i, r, k).Some? ensures AfterKet(g, e, x, t, l).Some? {
      var st, u := Close(g, i, r), Close(g, x, t);
      if k(st).Some? {
        assert l(u).Some?;
      } else {
        assert i < r.pos <= |e.s| && TryNode(g, e, st, k).Some?;
        NodeAlike(g, e, st, u, k, l);
      }
    }
  }

  lemma {:induction false} AltsAlike(a: Alts, e: Env, st: State, t: State, k: Kont, l: Kont)
    requires st.pos == t.pos && Below(k, l) && TryAlts(a, e, st, k).Some?
    ensures TryAlts(a, e, t, l).Some?
    decreases a
  {
    if TryBranch(a.branch, e, st, k).Some? {
      BranchAlike(a.branch, e, st, t, k, l);
    } else {
      AltsAlike(a.more, e, st, t, k, l);
    }
  }

  lemma {:induction false} BranchAlike(b: Branch, e: Env, st: State, t: State, k: Kont, l: Kont)
    requires st.pos == t.pos && Below(k, l) && TryBranch(b, e, st, k).Some?
    ensures TryBranch(b, e, t, l).Some?
    decreases b
  {
    if b.Cons? {
      TailBelow(b, e, k, l);
      NodeAlike(b.head, e, st, t, r => TryBranch(b.tail, e, r, k), r => TryBranch(b.tail, e, r, l));
    }
  }

  lemma {:induction false} TailBelow(b: Branch, e: Env, k: Kont, l: Kont)
    requires b.Cons? && Below(k, l)
    ensures Below(r => TryBranch(b.tail, e, r, k), r => TryBranch(b.tail, e, r, l))
    decreases b, 0
  {
    forall r: State, t: State | r.pos == t.pos && TryBranch(b.tail, e, r, k).Some?
      ensures TryBranch(b.tail, e, t, l).Some? {
      BranchAlike(b.tail, e, r, t, k, l);
    }
  }

  lemma {:induction false} DotStarMoves(r: Rep, e: Env, st: State, t: State, k: Kont, l: Kont)
    requires r.op == OP_STAR || r.op == OP_MINSTAR || r.op == OP_POSSTAR
    requires t.pos <= st.pos <= |e.s| && Below(k, l)
    requires TryRepeat(Type(OP_ALLANY), 0, -1, ModeOf(r), e, st, k).Some?
    ensures TryRepeat(Type(OP_ALLANY), 0, -1, ModeOf(r), e, t, l).Some?
    decreases |e.s| - t.pos
  {
    if t.pos == st.pos {
      RepeatAlike(Type(OP_ALLANY), 0, -1, ModeOf(r), e, st, t, k, l);
    } else {
      DotStarMoves(r, e, st, At(t, t.pos + 1), k, l);
    }
  }

  /** A match that starts later can be had from the start of the search. */
  lemma {:induction false} NodeMoves(n: Node, e: Env, st: State, t: State, k: Kont, l: Kont)
    requires SoundNode(n) && e.som == t.pos <= st.pos <= |e.s| && Below(k, l)
    requires TryNode(n, e, st, k).Some?
    ensures TryNode(n, e, t, l).Some?
    decreases n
  {
    match n
    case Repeat(_, r) => DotStarMoves(r, e, st, t, k, l);
    case Assert(op) => assert l(t).Some?;
    case Group(_, _, alts, _) =>
      KetBelow(n, e, st.pos, t.pos, k, l);
      AltsMove(alts, e, st, t, r => AfterKet(n, e, st.pos, r, k), r => AfterKet(n, e, t.pos, r, l));
  }

  lemma {:induction false} AltsMove(a: Alts, e: Env, st: State, t: State, k: Kont, l: Kont)
    requires SoundAlts(a) && e.som == t.pos <= st.pos <= |e.s| && Below(k, l)
    requires TryAlts(a, e, st, k).Some?
    ensures TryAlts(a, e, t, l).Some?
    decreases a
  {
    if TryBranch(a.branch, e, st, k).Some? {
      BranchMoves(a.branch, e, st, t, k, l);
    } else {
      AltsMove(a.more, e, st, t, k, l);
    }
  }

  lemma {:induction false} BranchMoves(b: Branch, e: Env, st: State, t: State, k: Kont, l: Kont)
    requires SoundBranch(b) && e.som == t.pos <= st.pos <= |e.s| && Below(k, l)
    requires TryBranch(b, e, st, k).Some?
    ensures TryBranch(b, e, t, l).Some?
    decreases b
  {
    if b.head.Optional? {
      BranchMoves(b.tail, e, st, t, k, l);
    } else {
      TailBelow(b, e, k, l);
      NodeMoves(b.head, e, st, t, r => TryBranch(b.tail, e, r, k), r => TryBranch(b.tail, e, r, l));
    }
  }

  // --- patterns that can match nothing ------------------------------------------------------------

  /** It can match the empty slice, whatever the subject is. */
  predicate EmptyNode(n: Node) {
    match n
    case Repeat(_, r) => Lo(r) == 0
    case Optional(_, _) => true
    case Group(_, _, alts, _) => EmptyAlts(alts)
    case _ => false
  }

  predicate EmptyAlts(a: Alts) { EmptyBranch(a.branch) || (a.Or? && EmptyAlts(a.more)) }

  predicate EmptyBranch(b: Branch) { b.Nil? || (EmptyNode(b.head) && EmptyBranch(b.tail)) }

  ghost predicate Succeeds(k: Kont) { forall r: State :: k(r).Some? }

  lemma {:induction false} RepeatSucceeds(it: Item, hi: int, mode: Mode, e: Env, st: State, k: Kont)
    requires Succeeds(k)
    ensures TryRepeat(it, 0, hi, mode, e, st, k).Some?
    decreases |e.s| - st.pos
  {
    if hi != 0 && MatchesAt(it, e, st.pos) { RepeatSucceeds(it, Less(hi), mode, e, At(st, st.pos + 1), k); }
  }

  lemma {:induction false} EmptyNodeSucceeds(n: Node, e: Env, st: State, k: Kont)
    requires EmptyNode(n) && Succeeds(k)
    ensures TryNode(n, e, st, k).Some?
    decreases n
  {
    match n
    case Repeat(it, r) => RepeatSucceeds(it, Hi(r), ModeOf(r), e, st, k);
    case Optional(_, _) =>
    case Group(_, _, alts, _) => EmptyAltsSucceed(alts, e, st, r => AfterKet(n, e, st.pos, r, k));
  }

  lemma {:induction false} EmptyAltsSucceed(a: Alts, e: Env, st: State, k: Kont)
    requires EmptyAlts(a) && Succeeds(k)
    ensures TryAlts(a, e, st, k).Some?
    decreases a
  {
    if EmptyBranch(a.branch) { EmptyBranchSucceeds(a.branch, e, st, k); } else { EmptyAltsSucceed(a.more, e, st, k); }
  }

  lemma {:induction false} EmptyBranchSucceeds(b: Branch, e: Env, st: State, k: Kont)
    requires EmptyBranch(b) && Succeeds(k)
    ensures TryBranch(b, e, st, k).Some?
    decreases b
  {
    if b.Cons? {
      forall r: State ensures TryBranch(b.tail, e, r, k).Some? { EmptyBranchSucceeds(b.tail, e, r, k); }
      EmptyNodeSucceeds(b.head, e, st, r => TryBranch(b.tail, e, r, k));
    }
  }

  lemma {:induction false} EmptyNodeIn(n: Node, e: Env, i: nat)
    requires EmptyNode(n) && i <= |e.s|
    ensures InNode(n, e, i, i)
    decreases n
  {
    if n.Group? { EmptyAltsIn(n.alts, e, i); }
  }

  lemma {:induction false} EmptyAltsIn(a: Alts, e: Env, i: nat)
    requires EmptyAlts(a) && i <= |e.s|
    ensures InAlts(a, e, i, i)
    decreases a
  {
    if EmptyBranch(a.branch) { EmptyBranchIn(a.branch, e, i); } else { EmptyAltsIn(a.more, e, i); }
  }

  lemma {:induction false} EmptyBranchIn(b: Branch, e: Env, i: nat)
    requires EmptyBranch(b) && i <= |e.s|
    ensures InBranch(b, e, i, i)
    decreases b
  {
    if b.Cons? {
      EmptyNodeIn(b.head, e, i);
      EmptyBranchIn(b.tail, e, i);
    }
  }

  /** Patterns for which trying only the start is enough: apart from brackets that are to be skipped, every alternative
      starts with something that anchors it, or some alternative can match nothing. */
  predicate SafeNode(p: Node) { SoundNode(p) || EmptyNode(p) }

  /** A match that starts anywhere is also found from the start of the search. */
  lemma AnchoredStart(p: Node, e: Env, i: nat)
    requires SafeNode(p) && e.som <= i <= |e.s| && FirstMatch(p, e, i).Some?
    ensures FirstMatch(p, e, e.som).Some?
  {
    if EmptyNode(p) {
      EmptyNodeSucceeds(p, e, State(e.som, map[]), Accept);
    } else {
      NodeMoves(p, e, State(i, map[]), State(e.som, map[]), Accept, Accept);
    }
  }

  // --- the same for the language ---------------------------------------------------------------

  lemma {:induction false} SliceMoves(n: Node, e: Env, i: nat, j: nat)
    requires SoundNode(n) && e.som <= i <= |e.s| && InNode(n, e, i, j)
    ensures InNode(n, e, e.som, j)
    decreases n
  {
    match n
    case Repeat(_, r) => assert forall x :: e.som <= x < i ==> MatchesAt(Type(OP_ALLANY), e, x);
    case Assert(op) =>
    case Group(_, _, alts, _) =>
      if InAlts(alts, e, i, j) {
        AltsSliceMoves(alts, e, i, j);
      } else {
        var m: nat :| i < m <= |e.s| && InAlts(alts, e, i, m) && InNode(n, e, m, j);
        AltsSliceMoves(alts, e, i, m);
      }
  }

  lemma {:induction false} AltsSliceMoves(a: Alts, e: Env, i: nat, j: nat)
    requires SoundAlts(a) && e.som <= i <= |e.s| && InAlts(a, e, i, j)
    ensures InAlts(a, e, e.som, j)
    decreases a
  {
    if InBranch(a.branch, e, i, j) { BranchSliceMoves(a.branch, e, i, j); } else { AltsSliceMoves(a.more, e, i, j); }
  }

  lemma {:induction false} BranchSliceMoves(b: Branch, e: Env, i: nat, j: nat)
    requires SoundBranch(b) && e.som <= i <= |e.s| && InBranch(b, e, i, j)
    ensures InBranch(b, e, e.som, j)
    decreases b
  {
    var m: nat :| i <= m <= |e.s| && InNode(b.head, e, i, m) && InBranch(b.tail, e, m, j);
    if b.head.Optional? {
      assert m == i;
      BranchSliceMoves(b.tail, e, i, j);
      assert InNode(b.head, e, e.som, e.som);
    } else {
      SliceMoves(b.head, e, i, m);
    }
  }

  // --- the scan -------------------------------------------------------------------------------------

  lemma OneBranchSize(g: Node)
    requires g.Group? && g.alts.Last?
    ensures NodeSize(g) == BraSize(g.bra) + BranchSize(g.alts.branch) + 1 + LINK_SIZE
  {
  }

  /** Past what the link of a skipped bracket leads to: its first alternative only. */
  lemma SkipHere(code: seq<Cell>, x: nat, q: Branch, c: Ctx) returns (q': Branch, c': Ctx)
    requires Here(code, x, q, c) && q.Cons? && q.head.Optional? && c.In?
    ensures x + 1 < |code| && Link(code[x + 1]) >= 0 && Here(code, x + 2 + Link(code[x + 1]) + LINK_SIZE, q', c')
            && c'.In?
    ensures q.head.group.Group? && q' == if q.head.group.alts.Or? then q.head.group.alts.more.branch else q.tail
  {
    OptionalHere(code, x, q, c);
    var g := q.head.group;
    AltsStart(code, x + 1, g, q.tail, c);
    var k := AltsTurn(code, x + 1, x + 1 + BraSize(g.bra), g.alts, g, q.tail, c);
    if g.alts.Or? {
      AltsBranch(code, k, k + 1 + LINK_SIZE, g.alts.more, g, q.tail, c);
      q', c' := g.alts.more.branch, In(Later(g.alts.more), q.tail, g, c);
    } else {
      ItemHere(code, x, q, c);
      OneBranchSize(g);
      q', c' := q.tail, c;
    }
  }

  method FirstSignificantCode(code: seq<Cell>, p: nat, ghost q: Branch, ghost c: Ctx)
      returns (r: nat, ghost q': Branch, ghost c': Ctx)
    requires Here(code, p, q, c) && c.In?
    ensures Here(code, r, q', c') && c'.In? && q' == Significant(q)
  {
    r, q', c' := p, q, c;
    OpcodeAt(code, r, q', c');
    if q'.Cons? && q'.head.Optional? { OptionalHere(code, r, q', c'); }
    while OpOf(code[r]) == OP_SKIPZERO
      invariant Here(code, r, q', c') && c'.In? && Significant(q') == Significant(q) && r < |code|
      invariant OpOf(code[r]) == OP_SKIPZERO <==> q'.Cons? && q'.head.Optional? && q'.head.op == OP_SKIPZERO
      decreases q'
    {
      q', c' := SkipHere(code, r, q', c');
      r := r + 2 + Link(code[r + 1]) + LINK_SIZE;
      OpcodeAt(code, r, q', c');
      if q'.Cons? && q'.head.Optional? { OptionalHere(code, r, q', c'); }
    }
  }

  /** The answer for the alternatives that are left is the one for the group. */
  ghost predicate Asked(n: Node, cur: Alts) {
    && n.Group? && (cur == n.alts || cur < n.alts)
    && forall k: int {:trigger Look(k)} :: Look(k) ==> AnchorNode(n) == AnchorAlts(cur)
  }

  lemma Answered(n: Node, cur: Alts)
    requires Asked(n, cur)
    ensures !AnchorBranch(cur.branch) ==> !AnchorNode(n)
    ensures AnchorBranch(cur.branch) ==> if cur.Or? then Asked(n, cur.more) else AnchorNode(n)
  {
    assert Look(0);
  }

  /** Scans the group at x: every alternative has to start with something that anchors it. */
  method IsAnchored(code: seq<Cell>, x: nat, ghost n: Node, ghost t: Branch, ghost c: Ctx) returns (anchored: bool)
    requires n.Group? && Here(code, x, Cons(n, t), c)
    ensures anchored == AnchorNode(n)
    decreases n
  {
    AltsStart(code, x, n, t, c);
    var at: nat, p: nat := x, x + OpLength(OpOf(code[x]));
    ghost var cur := n.alts;
    while true
      invariant AltsAt(code, at, p, cur, n, t, c)
      invariant Asked(n, cur)
      decreases cur
    {
      AltsBranch(code, at, p, cur, n, t, c);
      var ok := BranchIsAnchored(code, p, cur.branch, In(Later(cur), t, n, c));
      Answered(n, cur);
      if !ok { return false; }
      ghost var end := AltsTurn(code, at, p, cur, n, t, c);
      at := at + Link(code[at]);
      if OpOf(code[at]) != OP_ALT { return true; }
      p := at + 1 + LINK_SIZE;
      cur := cur.more;
    }
  }

  method BranchIsAnchored(code: seq<Cell>, p: nat, ghost b: Branch, ghost c: Ctx) returns (anchored: bool)
    requires Here(code, p, b, c) && c.In?
    ensures anchored == AnchorBranch(b)
    decreases b, 1
  {
    var s;
    ghost var q, y;
    s, q, y := FirstSignificantCode(code, p, b, c);
    anchored := Anchors(code, s, q, y);
  }

  /** What the first significant code of a branch says. */
  method Anchors(code: seq<Cell>, s: nat, ghost q: Branch, ghost c: Ctx) returns (anchored: bool)
    requires Here(code, s, q, c) && c.In?
    ensures anchored == (q.Cons? && AnchorNode(q.head))
    decreases q, 0
  {
    OpcodeAt(code, s, q, c);
    var op := OpOf(code[s]);
    if IsBracket(op) {
      anchored := IsAnchored(code, s, q.head, q.tail, c);
    } else {
      ItemAnchors(code, s, q, c);
      anchored := if op == OP_TYPESTAR || op == OP_TYPEMINSTAR || op == OP_TYPEPOSSTAR then code[s].WithChar?
          && code[s].arg == OP_ALLANY
                  else op == OP_SOD || op == OP_SOM || op == OP_CIRC;
    }
  }

  lemma ItemAnchors(code: seq<Cell>, s: nat, q: Branch, c: Ctx)
    requires Here(code, s, q, c) && c.In? && s < |code| && !(q.Cons? && q.head.Group?)
    ensures (q.Cons? && AnchorNode(q.head)) ==
            var op := OpOf(code[s]);
            if op == OP_TYPESTAR || op == OP_TYPEMINSTAR || op == OP_TYPEPOSSTAR then code[s].WithChar?
               && code[s].arg == OP_ALLANY
            else op == OP_SOD || op == OP_SOM || op == OP_CIRC
  {
    Unfold(code, s, q, c);
    if q.Cons? {
      StandingTail(code, s, q, c);
      NodeClass(code, s, q.head);
      if q.head.Repeat? && !q.head.item.Set? { RepeatOpcode(q.head.item, q.head.rep); }
    } else {
      EndAt(code, s, c);
    }
  }
}
