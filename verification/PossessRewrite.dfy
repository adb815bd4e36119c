/** Making the repeat at one offset possessive: what it does to the pattern, and that the first
    match stays the same when the path analysis allows it. */
module PossessRewrite {
  import opened Opcodes
  import opened Regex
  import opened Layout
  import opened PossessRule

  /** A repeat that is not yet possessive and is not EXACT. */
  predicate IsOpenOp(op: int) { OP_STAR <= op <= OP_MINUPTO || OP_CRSTAR <= op <= OP_CRMINRANGE }

  function PossessiveOp(op: int): int
    requires IsOpenOp(op)
  {
    if op == OP_STAR || op == OP_MINSTAR then OP_POSSTAR
    else if op == OP_PLUS || op == OP_MINPLUS then OP_POSPLUS
    else if op == OP_QUERY || op == OP_MINQUERY then OP_POSQUERY
    else if op == OP_UPTO || op == OP_MINUPTO then OP_POSUPTO
    else if op == OP_CRSTAR || op == OP_CRMINSTAR then OP_CRPOSSTAR
    else if op == OP_CRPLUS || op == OP_CRMINPLUS then OP_CRPOSPLUS
    else if op == OP_CRQUERY || op == OP_CRMINQUERY then OP_CRPOSQUERY
    else OP_CRPOSRANGE
  }

  function BaseOf(it: Item, r: Rep): Base { Base(it, ModeOf(r) == Greedy) }

  /** There is a repeat at offset p that could become possessive. */
  predicate OpenInNode(n: Node, x: nat, p: nat) {
    match n
    case Repeat(_, r) => p == x && IsOpenOp(r.op)
    case Group(bra, _, alts, _) => OpenInAlts(alts, x + BraSize(bra), p)
    case Optional(_, g) => OpenInNode(g, x + 1, p)
    case _ => false
  }

  predicate OpenInAlts(a: Alts, x: nat, p: nat) {
    OpenInBranch(a.branch, x, p) || (a.Or? && OpenInAlts(a.more, x + BranchSize(a.branch) + 1 + LINK_SIZE, p))
  }

  predicate OpenInBranch(b: Branch, x: nat, p: nat) {
    b.Cons? && (OpenInNode(b.head, x, p) || OpenInBranch(b.tail, x + NodeSize(b.head), p))
  }

  /** The pattern with the repeats at the offsets of d made possessive. */
  function PossessNode(n: Node, x: nat, d: set<nat>): Node {
    match n
    case Repeat(it, r) => if x in d && IsOpenOp(r.op) then Repeat(it, r.(op := PossessiveOp(r.op))) else n
    case Group(bra, num, alts, ket) => Group(bra, num, PossessAlts(alts, x + BraSize(bra), d), ket)
    case Optional(op, g) => Optional(op, PossessNode(g, x + 1, d))
    case _ => n
  }

  function PossessAlts(a: Alts, x: nat, d: set<nat>): Alts {
    match a
    case Last(b) => Last(PossessBranch(b, x, d))
    case Or(b, more) => Or(PossessBranch(b, x, d), PossessAlts(more, x + BranchSize(b) + 1 + LINK_SIZE, d))
  }

  function PossessBranch(b: Branch, x: nat, d: set<nat>): Branch {
    if b.Nil? then Nil
    else Cons(PossessNode(b.head, x, d), PossessBranch(b.tail, x + NodeSize(b.head), d))
  }

  /** The verdict of the path analysis on what follows the repeat at offset p. */
  ghost function VerdictInNode(n: Node, t: Branch, c: Ctx, x: nat, p: nat): Verdict
    requires OpenInNode(n, x, p)
  {
    match n
    case Repeat(it, r) => Follow(BaseOf(it, r), t, c)
    case Group(bra, _, alts, _) => VerdictInAlts(alts, t, n, c, x + BraSize(bra), p)
    case Optional(_, g) => VerdictInNode(g, t, c, x + 1, p)
  }

  ghost function VerdictInAlts(a: Alts, t: Branch, g: Node, c: Ctx, x: nat, p: nat): Verdict
    requires OpenInAlts(a, x, p)
  {
    if OpenInBranch(a.branch, x, p) then
      VerdictInBranch(a.branch, In(Later(a), t, g, c), x, p)
    else VerdictInAlts(a.more, t, g, c, x + BranchSize(a.branch) + 1 + LINK_SIZE, p)
  }

  ghost function VerdictInBranch(b: Branch, c: Ctx, x: nat, p: nat): Verdict
    requires OpenInBranch(b, x, p)
  {
    if OpenInNode(b.head, x, p) then VerdictInNode(b.head, b.tail, c, x, p)
    else VerdictInBranch(b.tail, c, x + NodeSize(b.head), p)
  }

  // --- equal continuations give equal results ----------------------------------

  ghost predicate Same(k: Kont, l: Kont) { forall st: State :: k(st) == l(st) }

  lemma {:induction false} RepeatSame(it: Item, lo: nat, hi: int, mode: Mode, e: Env, st: State, k: Kont, l: Kont)
    requires Same(k, l)
    ensures TryRepeat(it, lo, hi, mode, e, st, k) == TryRepeat(it, lo, hi, mode, e, st, l)
    decreases |e.s| - st.pos
  {
    if hi != 0 && MatchesAt(it, e, st.pos) {
      RepeatSame(it, if lo > 0 then lo - 1 else 0, Less(hi), mode, e, At(st, st.pos + 1), k, l);
    }
  }

  lemma {:induction false} NodeSame(n: Node, e: Env, st: State, k: Kont, l: Kont)
    requires Same(k, l)
    ensures TryNode(n, e, st, k) == TryNode(n, e, st, l)
    decreases n, |e.s| - st.pos
  {
    match n
    case Single(it) =>
    case Repeat(it, r) => RepeatSame(it, Lo(r), Hi(r), ModeOf(r), e, st, k, l);
    case Assert(op) =>
    case Optional(op, g) => NodeSame(g, e, st, k, l);
    case Group(_, _, alts, ket) =>
      var k', l' := r => AfterKet(n, e, st.pos, r, k), r => AfterKet(n, e, st.pos, r, l);
      forall r: State ensures k'(r) == l'(r) {
        if st.pos < r.pos <= |e.s| { NodeSame(n, e, Close(n, st.pos, r), k, l); }
      }
      AltsSame(alts, e, st, k', l');
  }

  lemma {:induction false} AltsSame(a: Alts, e: Env, st: State, k: Kont, l: Kont)
    requires Same(k, l)
    ensures TryAlts(a, e, st, k) == TryAlts(a, e, st, l)
    decreases a
  {
    BranchSame(a.branch, e, st, k, l);
    if a.Or? { AltsSame(a.more, e, st, k, l); }
  }

  lemma {:induction false} BranchSame(b: Branch, e: Env, st: State, k: Kont, l: Kont)
    requires Same(k, l)
    ensures TryBranch(b, e, st, k) == TryBranch(b, e, st, l)
    decreases b
  {
    if b.Cons? {
      var k', l' := r => TryBranch(b.tail, e, r, k), r => TryBranch(b.tail, e, r, l);
      forall r: State ensures k'(r) == l'(r) { BranchSame(b.tail, e, r, k, l); }
      NodeSame(b.head, e, st, k', l');
    }
  }

  // --- the rewriting keeps the first match ----------------------------------------

  /** At the repeat itself: only its longest run of characters can lead to a match, or any can. */
  lemma {:induction false} RepeatPossess(it: Item, lo: nat, hi: int, mode: Mode, v: Verdict, e: Env, st: State, k: Kont)
    requires mode != Possessive && v != Fail && Means(v, Base(it, mode == Greedy), e, k)
    ensures TryRepeat(it, lo, hi, mode, e, st, k) == TryRepeat(it, lo, hi, Possessive, e, st, k)
    decreases |e.s| - st.pos
  {
    if hi != 0 && MatchesAt(it, e, st.pos) {
      RepeatPossess(it, if lo > 0 then lo - 1 else 0, Less(hi), mode, v, e, At(st, st.pos + 1), k);
      if lo == 0 && v == Open {
        RepeatTotal(it, Less(hi), mode, e, At(st, st.pos + 1), k);
      }
    }
  }

  /** The repeats to be made possessive are all allowed to. */
  ghost predicate AllowedInNode(n: Node, t: Branch, c: Ctx, x: nat, d: set<nat>) {
    forall p :: p in d && OpenInNode(n, x, p) ==> VerdictInNode(n, t, c, x, p) != Fail
  }

  ghost predicate AllowedInAlts(a: Alts, t: Branch, g: Node, c: Ctx, x: nat, d: set<nat>) {
    forall p :: p in d && OpenInAlts(a, x, p) ==> VerdictInAlts(a, t, g, c, x, p) != Fail
  }

  ghost predicate AllowedInBranch(b: Branch, c: Ctx, x: nat, d: set<nat>) {
    forall p :: p in d && OpenInBranch(b, x, p) ==> VerdictInBranch(b, c, x, p) != Fail
  }

  lemma {:induction false} NodePossess(n: Node, t: Branch, c: Ctx, x: nat, d: set<nat>, e: Env, st: State, rest: Kont)
    requires AllowedInNode(n, t, c, x, d) && OkNode(n) && OkNewline(e.nl) && Sound(t, c, e, rest)
    ensures TryNode(n, e, st, rest) == TryNode(PossessNode(n, x, d), e, st, rest)
    decreases n, |e.s| - st.pos
  {
    match n
    case Single(it) =>
    case Assert(op) =>
    case Repeat(it, r) =>
      if x in d && IsOpenOp(r.op) {
        assert OpenInNode(n, x, x);
        assert Means(Follow(BaseOf(it, r), t, c), BaseOf(it, r), e, rest);
        RepeatPossess(it, Lo(r), Hi(r), ModeOf(r), Follow(BaseOf(it, r), t, c), e, st, rest);
      }
    case Optional(op, g) =>
      assert forall p :: OpenInNode(g, x + 1, p) ==> OpenInNode(n, x, p);
      NodePossess(g, t, c, x + 1, d, e, st, rest);
    case Group(bra, num, alts, ket) =>
      var n' := PossessNode(n, x, d);
      var out, out' := r => AfterKet(n, e, st.pos, r, rest), r => AfterKet(n', e, st.pos, r, rest);
      forall later: Option<Alts> ensures Sound(Nil, In(later, t, n, c), e, out) {
        forall b: Base | OkItem(b.item) ensures Means(Follow(b, Nil, In(later, t, n, c)), b, e, out) {
          assert Means(Follow(b, t, c), b, e, rest);
        }
      }
      assert forall p :: OpenInAlts(alts, x + BraSize(bra), p) ==> OpenInNode(n, x, p);
      AltsPossess(alts, t, n, c, x + BraSize(bra), d, e, st, out);
      forall r: State ensures out(r) == out'(r) {
        if st.pos < r.pos <= |e.s| { NodePossess(n, t, c, x, d, e, Close(n, st.pos, r), rest); }
      }
      AltsSame(n'.alts, e, st, out, out');
  }

  lemma {:induction false} AltsPossess(a: Alts, t: Branch, n: Node, c: Ctx, x: nat, d: set<nat>, e: Env, st: State,
                                       out: Kont)
    requires AllowedInAlts(a, t, n, c, x, d) && OkAlts(a) && OkNewline(e.nl)
    requires forall later: Option<Alts> :: Sound(Nil, In(later, t, n, c), e, out)
    ensures TryAlts(a, e, st, out) == TryAlts(PossessAlts(a, x, d), e, st, out)
    decreases a
  {
    assert forall p :: OpenInBranch(a.branch, x, p) ==> OpenInAlts(a, x, p);
    BranchPossess(a.branch, In(Later(a), t, n, c), x, d, e, st, out);
    if a.Or? {
      var x' := x + BranchSize(a.branch) + 1 + LINK_SIZE;
      forall p | p in d && OpenInAlts(a.more, x', p) ensures VerdictInAlts(a.more, t, n, c, x', p) != Fail {
        OpenSpan(a, x, p);
        assert OpenInAlts(a, x, p);
      }
      AltsPossess(a.more, t, n, c, x', d, e, st, out);
    }
  }

  lemma {:induction false} BranchPossess(b: Branch, c: Ctx, x: nat, d: set<nat>, e: Env, st: State, k: Kont)
    requires AllowedInBranch(b, c, x, d) && OkBranch(b) && OkNewline(e.nl) && Sound(Nil, c, e, k)
    ensures TryBranch(b, e, st, k) == TryBranch(PossessBranch(b, x, d), e, st, k)
    decreases b
  {
    if b.Cons? {
      var x' := x + NodeSize(b.head);
      var rest := r => TryBranch(b.tail, e, r, k);
      var rest' := r => TryBranch(PossessBranch(b.tail, x', d), e, r, k);
      FollowSound(b.tail, c, e, k);
      assert forall p :: OpenInNode(b.head, x, p) ==> OpenInBranch(b, x, p);
      NodePossess(b.head, b.tail, c, x, d, e, st, rest);
      forall p | p in d && OpenInBranch(b.tail, x', p) ensures VerdictInBranch(b.tail, c, x', p) != Fail {
        BranchOpenSpan(b, x, p);
        assert OpenInBranch(b, x, p);
      }
      forall r: State ensures rest(r) == rest'(r) { BranchPossess(b.tail, c, x', d, e, r, k); }
      NodeSame(PossessNode(b.head, x, d), e, st, rest, rest');
    }
  }

  /** The rewriting of a whole pattern: on every subject it finds the same first match, with the same
      end and the same captures. */
  lemma PossessKeepsMatch(pat: Node, d: set<nat>, e: Env, i: nat)
    requires OkNode(pat) && OkNewline(e.nl) && AllowedInNode(pat, Nil, Top, 0, d)
    ensures FirstMatch(PossessNode(pat, 0, d), e, i) == FirstMatch(pat, e, i)
  {
    assert Sound(Nil, Top, e, Accept);
    NodePossess(pat, Nil, Top, 0, d, e, State(i, map[]), Accept);
  }

  /** The three newlines that are one unit long: CR, LF and NUL. */
  predicate SingleNewline(nl: int) { nl == 10 || nl == 13 || nl == 0 }

  /** The pattern \0*$\0, whose repeat the rules let become possessive because NUL is none of the
      characters that they take for newlines. */
  function NulPattern(): Node { Group(OP_BRA, 0, Last(RepeatThenDollar(OP_STAR)), OP_KET) }

  function RepeatThenDollar(op: int): Branch {
    Cons(Repeat(Lit(OP_CHAR, 0), Rep(op, 0, 0)), Cons(Assert(OP_DOLL), Cons(Single(Lit(OP_CHAR, 0)), Nil)))
  }

  lemma NulPossess()
    ensures PossessNode(NulPattern(), 0, {3}) == Group(OP_BRA, 0, Last(RepeatThenDollar(OP_POSSTAR)), OP_KET)
    ensures AllowedInNode(NulPattern(), Nil, Top, 0, {3})
  {
    var b := RepeatThenDollar(OP_STAR);
    assert OpenInNode(b.head, 3, 3);
    assert VerdictInBranch(b, In(None, Nil, NulPattern(), Top), 3, 3) == Dead;
  }

  /** With NUL as the newline the rewriting changes the result: on the subject of one NUL there is a match
      before, which leaves the only character to the end of the pattern, and none afterwards. */
  lemma NulChangesMatch(e: Env)
    requires e.s == [0] && e.nl == 0
    ensures FirstMatch(NulPattern(), e, 0).Some?
    ensures FirstMatch(PossessNode(NulPattern(), 0, {3}), e, 0).None?
  {
    NulPossess();
    var st := State(0, map[]);
    var g, g' := NulPattern(), PossessNode(NulPattern(), 0, {3});
    var k, k' := r => AfterKet(g, e, 0, r, Accept), r => AfterKet(g', e, 0, r, Accept);
    assert TryAlts(g.alts, e, st, k) == TryBranch(RepeatThenDollar(OP_STAR), e, st, k);
    assert TryAlts(g'.alts, e, st, k') == TryBranch(RepeatThenDollar(OP_POSSTAR), e, st, k');
    NulTail(e, k);
    NulTail(e, k');
  }

  /** The subject is one NUL: after the repeat has taken it, or has not. */
  lemma NulTail(e: Env, k: Kont)
    requires e.s == [0] && e.nl == 0
    ensures TryBranch(RepeatThenDollar(OP_STAR), e, State(0, map[]), k) == k(State(1, map[]))
    ensures TryBranch(RepeatThenDollar(OP_POSSTAR), e, State(0, map[]), k).None?
  {
    var tail := Cons(Assert(OP_DOLL), Cons(Single(Lit(OP_CHAR, 0)), Nil));
    var rest := r => TryBranch(tail, e, r, k);
    var last := r => TryBranch(tail.tail, e, r, k);
    assert forall st: State :: rest(st) == if Holds(OP_DOLL, e, st.pos) then last(st) else None;
    assert last(State(1, map[])).None?;
    assert last(State(0, map[])) == k(State(1, map[]));
    var it := Lit(OP_CHAR, 0);
    assert !MatchesAt(it, e, 1);
    assert TryRepeat(it, 0, -1, Greedy, e, State(1, map[]), rest).None?;
    assert TryRepeat(it, 0, -1, Possessive, e, State(1, map[]), rest).None?;
  }

  /** Of the newline settings of one unit, the rewriting is right for exactly those that are not NUL. */
  lemma PossessNewline(nl: Unit)
    requires SingleNewline(nl)
    ensures nl != 0 <==>
      forall pat: Node, d: set<nat>, e: Env, i: nat ::
        OkNode(pat) && AllowedInNode(pat, Nil, Top, 0, d) && e.nl == nl ==>
          FirstMatch(PossessNode(pat, 0, d), e, i) == FirstMatch(pat, e, i)
  {
    if nl == 0 {
      NulPossess();
      NulChangesMatch(Env([0], nl, 0));
    } else {
      forall pat: Node, d: set<nat>, e: Env, i: nat
        | OkNode(pat) && AllowedInNode(pat, Nil, Top, 0, d) && e.nl == nl
        ensures FirstMatch(PossessNode(pat, 0, d), e, i) == FirstMatch(pat, e, i)
      {
        PossessKeepsMatch(pat, d, e, i);
      }
    }
  }

  // --- offsets of different items do not overlap -----------------------------------

  lemma {:induction false} NodeOpenSpan(n: Node, x: nat, p: nat)
    ensures OpenInNode(n, x, p) ==> x <= p < x + NodeSize(n)
    decreases n
  {
    match n
    case Group(bra, _, alts, _) => AltsOpenSpan(alts, x + BraSize(bra), p);
    case Optional(_, g) => NodeOpenSpan(g, x + 1, p);
    case _ =>
  }

  lemma {:induction false} AltsOpenSpan(a: Alts, x: nat, p: nat)
    ensures OpenInAlts(a, x, p) ==> x <= p < x + AltsSize(a)
    decreases a
  {
    BranchOpenSpan(a.branch, x, p);
    if a.Or? { AltsOpenSpan(a.more, x + BranchSize(a.branch) + 1 + LINK_SIZE, p); }
  }

  lemma {:induction false} BranchOpenSpan(b: Branch, x: nat, p: nat)
    ensures OpenInBranch(b, x, p) ==> x <= p < x + BranchSize(b)
    ensures b.Cons? && OpenInBranch(b.tail, x + NodeSize(b.head), p) ==> !OpenInNode(b.head, x, p)
    decreases b
  {
    if b.Cons? {
      NodeOpenSpan(b.head, x, p);
      BranchOpenSpan(b.tail, x + NodeSize(b.head), p);
    }
  }

  lemma OpenSpan(a: Alts, x: nat, p: nat)
    requires a.Or? && OpenInAlts(a.more, x + BranchSize(a.branch) + 1 + LINK_SIZE, p)
    ensures !OpenInBranch(a.branch, x, p)
  {
    BranchOpenSpan(a.branch, x, p);
    AltsOpenSpan(a.more, x + BranchSize(a.branch) + 1 + LINK_SIZE, p);
  }
}
