/** When a repeat of one item may become possessive: the path analysis on patterns, and the
    proof that acting on it leaves the first match unchanged. */
module PossessRule {
  import opened Opcodes
  import opened Regex
  import opened Layout

  const FIRST_AUTOTAB_OP := OP_NOT_DIGIT
  const LAST_AUTOTAB_LEFT_OP := OP_EXTUNI
  const LAST_AUTOTAB_RIGHT_OP := OP_DOLLM

  /** The table of item types. There is a row for each repeated type, and in it a column for each item that may follow;
      rows and columns are in the order of the opcodes, from "not a digit" on. */
  const AUTOPOSSTAB: seq<seq<int>> := [
    [0, 1, 0, 0, 0, 0, 0, 0, 0, 0, 0, 0, 0, 0, 0, 0, 0, 0, 1, 0, 0],
    [1, 0, 0, 1, 1, 0, 0, 0, 0, 0, 0, 1, 0, 1, 0, 1, 0, 1, 1, 1, 1],
    [0, 0, 0, 1, 0, 0, 0, 0, 0, 0, 0, 1, 0, 1, 0, 1, 0, 1, 1, 1, 1],
    [0, 1, 1, 0, 0, 1, 0, 0, 0, 0, 0, 0, 0, 0, 0, 0, 0, 0, 1, 0, 0],
    [0, 1, 0, 0, 0, 1, 0, 0, 0, 0, 0, 0, 0, 0, 0, 0, 0, 0, 1, 0, 0],
    [0, 0, 0, 1, 1, 0, 0, 0, 0, 0, 0, 1, 0, 1, 0, 1, 0, 1, 1, 1, 1],
    [0, 0, 0, 0, 0, 0, 0, 0, 0, 0, 0, 1, 0, 0, 0, 0, 0, 0, 1, 0, 0],
    [0, 0, 0, 0, 0, 0, 0, 0, 0, 0, 0, 0, 0, 0, 0, 0, 0, 0, 1, 0, 0],
    [0, 0, 0, 0, 0, 0, 0, 0, 0, 0, 0, 0, 0, 0, 0, 0, 0, 0, 1, 0, 0],
    [0, 0, 0, 0, 0, 0, 0, 0, 0, 0, 0, 0, 0, 0, 0, 0, 0, 0, 0, 0, 0],
    [0, 0, 0, 0, 0, 0, 0, 0, 0, 0, 0, 0, 0, 0, 0, 0, 0, 0, 0, 0, 0],
    [0, 1, 0, 1, 0, 1, 1, 0, 0, 0, 0, 0, 0, 1, 0, 0, 0, 0, 1, 0, 0],
    [0, 0, 0, 0, 0, 0, 0, 0, 0, 0, 0, 0, 0, 1, 0, 0, 0, 0, 1, 0, 0],
    [0, 1, 1, 0, 0, 1, 0, 0, 0, 0, 0, 1, 1, 0, 0, 1, 0, 0, 1, 0, 0],
    [0, 0, 0, 0, 0, 0, 0, 0, 0, 0, 0, 1, 0, 0, 0, 1, 0, 0, 1, 0, 0],
    [0, 1, 1, 0, 0, 1, 0, 0, 0, 0, 0, 0, 0, 1, 1, 0, 0, 0, 1, 0, 0],
    [0, 0, 0, 0, 0, 0, 0, 0, 0, 0, 0, 0, 0, 0, 0, 0, 0, 0, 1, 0, 0]]

  predicate InTable(left: int, right: int) {
    && FIRST_AUTOTAB_OP <= left <= LAST_AUTOTAB_LEFT_OP
    && FIRST_AUTOTAB_OP <= right <= LAST_AUTOTAB_RIGHT_OP
    && AUTOPOSSTAB[left - FIRST_AUTOTAB_OP][right - FIRST_AUTOTAB_OP] == 1
  }

  /** A literal that is matched by a short list of characters. */
  predicate IsList(it: Item) { it.Lit? && (it.op == OP_CHAR || it.op == OP_CHARI) }

  /** No character of the list can be matched by the other item, or give up on `.`. */
  predicate ListApart(l: Item, y: Item)
    requires IsList(l)
  {
    && !(y.Type? && y.op >= OP_ANY)
    && !Matches(y, 0, l.c)
    && (l.op == OP_CHARI ==> !Matches(y, 0, Flip(l.c)))
  }

  ghost predicate SetApart(x: Item, y: Item) {
    forall c: Unit :: Matches(x, 0, c) ==> !Matches(y, 0, c)
  }

  /** The decision for a repeated item x when item y comes next. */
  ghost predicate Apart(x: Item, y: Item) {
    if IsList(x) then ListApart(x, y)
    else if IsList(y) then ListApart(y, x)
    else if x.Set? || y.Set? then
      !x.Lit? && !y.Lit? && !(x.Type? && x.op >= OP_ANY) && !(y.Type? && y.op >= OP_ANY) && SetApart(x, y)
    else x.Type? && y.Type? && InTable(x.op, y.op)
  }

  predicate NewlineLike(c: int) { 10 <= c <= 13 || c == 0x85 }

  /** The decision for a repeated item x when \Z, \z, $ or multiline $ comes next. */
  predicate ApartAssert(x: Item, op: int) {
    if IsList(x) then
      op == OP_EOD ||
      ((op == OP_DOLL || op == OP_EODN) && !NewlineLike(x.c) && (x.op == OP_CHARI ==> !NewlineLike(Flip(x.c))))
    else x.Type? && InTable(x.op, op)
  }

  // --- the path analysis ------------------------------------------------------

  /** What the code after a repeat can do with the characters of the repeat. `Dead`: nothing can
      start with one. `Open`: only the end of the pattern was reached, which always succeeds. */
  datatype Verdict = Fail | Dead | Open

  datatype Base = Base(item: Item, greedy: bool)

  function Join(v: Verdict, w: Verdict): Verdict {
    if v == Fail || w == Fail then Fail else if v == Open || w == Open then Open else Dead
  }

  /** Whether a repeat can match the empty string. */
  predicate Skippable(r: Rep) { Lo(r) == 0 }

  function Weight(n: Node): (w: nat)
    ensures w > 0
  {
    match n
    case Group(_, _, alts, _) => 3 + AltsWeight(alts)
    case Optional(_, g) => 1 + Weight(g)
    case _ => 1
  }

  function AltsWeight(a: Alts): nat {
    1 + BranchWeight(a.branch) + (if a.Or? then AltsWeight(a.more) else 0)
  }

  function BranchWeight(b: Branch): nat { if b.Nil? then 0 else Weight(b.head) + BranchWeight(b.tail) }

  function CtxWeight(c: Ctx): nat { if c.Top? then 0 else 1 + BranchWeight(c.rest) + CtxWeight(c.up) }

  /** The verdict on what follows a repeat: the rest q of its branch, which stands in context c. */
  ghost function Follow(b: Base, q: Branch, c: Ctx): Verdict
    decreases BranchWeight(q) + CtxWeight(c)
  {
    match q
    case Nil =>
      if !b.greedy then Fail
      else if c.Top? then Open
      else if c.group.Group? && c.group.ket == OP_KET then Follow(b, c.rest, c.up)
      else Fail
    case Cons(n, t) =>
      assert BranchWeight(q) == Weight(n) + BranchWeight(t);
      match n
      case Single(it) => if Apart(b.item, it) then Dead else Fail
      case Repeat(it, r) =>
        if !Apart(b.item, it) then Fail else if Skippable(r) then Follow(b, t, c) else Dead
      case Assert(op) => if OP_EODN <= op <= OP_DOLLM && ApartAssert(b.item, op) then Dead else Fail
      case Group(bra, _, alts, _) =>
        if bra == OP_BRA || bra == OP_CBRA then FollowAlts(b, alts, t, n, c) else Fail
      case Optional(op, g) =>
        if op == OP_SKIPZERO || !g.Group? || !(g.bra == OP_BRA || g.bra == OP_CBRA) then Fail
        else
          assert BranchWeight(Cons(g, t)) == Weight(g) + BranchWeight(t) < BranchWeight(q);
          Join(Follow(b, t, c), Follow(b, Cons(g, t), c))
  }

  ghost function FollowAlts(b: Base, a: Alts, t: Branch, g: Node, c: Ctx): Verdict
    decreases AltsWeight(a) + 1 + BranchWeight(t) + CtxWeight(c)
  {
    var here := Follow(b, a.branch, In(Later(a), t, g, c));
    if a.Or? then Join(here, FollowAlts(b, a.more, t, g, c)) else here
  }

  // --- what the verdicts mean -----------------------------------------------------

  /** The newline settings for which the decisions about $ and \Z are right. */
  predicate OkNewline(nl: int) { nl == 10 || nl == 13 }

  ghost predicate DeadOn(b: Base, e: Env, k: Kont) {
    forall st: State :: MatchesAt(b.item, e, st.pos) ==> k(st).None?
  }

  ghost predicate Total(k: Kont) { forall st: State :: k(st).Some? }

  ghost predicate Means(v: Verdict, b: Base, e: Env, k: Kont) {
    match v
    case Fail => true
    case Dead => DeadOn(b, e, k)
    case Open => b.greedy && Total(k)
  }

  /** Continuation k does what the pattern does from q in context c on. */
  ghost predicate Sound(q: Branch, c: Ctx, e: Env, k: Kont) {
    forall b: Base :: OkItem(b.item) ==> Means(Follow(b, q, c), b, e, k)
  }

  lemma TableSound(l: int, r: int, nl: Unit, c: Unit)
    requires IsType(l) && IsType(r) && InTable(l, r) && MatchesType(l, nl, c)
    ensures !MatchesType(r, nl, c)
  {
  }

  lemma TableEndSound(l: int, r: int, e: Env, i: nat)
    requires IsType(l) && OP_EODN <= r <= OP_DOLLM && InTable(l, r)
    requires OkNewline(e.nl) && i < |e.s| && MatchesType(l, e.nl, e.s[i])
    ensures !Holds(r, e, i)
  {
  }

  lemma ApartSound(x: Item, y: Item, nl: Unit, c: Unit)
    requires OkItem(x) && OkItem(y) && Apart(x, y) && Matches(x, nl, c)
    ensures !Matches(y, nl, c)
  {
    if IsList(x) || IsList(y) {
    } else if x.Set? || y.Set? {
      assert Matches(x, 0, c);
    } else {
      TableSound(x.op, y.op, nl, c);
    }
  }

  lemma ApartAssertSound(x: Item, op: int, e: Env, i: nat)
    requires OkItem(x) && OP_EODN <= op <= OP_DOLLM && ApartAssert(x, op) && OkNewline(e.nl) && MatchesAt(x, e, i)
    ensures !Holds(op, e, i)
  {
    if !IsList(x) { TableEndSound(x.op, op, e, i); }
  }

  lemma {:induction false} RepeatTotal(it: Item, hi: int, mode: Mode, e: Env, st: State, k: Kont)
    requires Total(k)
    ensures TryRepeat(it, 0, hi, mode, e, st, k).Some?
    decreases |e.s| - st.pos
  {
    if hi != 0 && MatchesAt(it, e, st.pos) {
      RepeatTotal(it, Less(hi), mode, e, At(st, st.pos + 1), k);
    }
  }

  /** The analysis is right: what it says of the rest q of a branch holds of q followed by k,
      provided it is right about k. */
  lemma {:induction false} FollowSound(q: Branch, c: Ctx, e: Env, k: Kont)
    requires OkBranch(q) && OkNewline(e.nl) && Sound(Nil, c, e, k)
    ensures Sound(q, c, e, r => TryBranch(q, e, r, k))
    decreases q
  {
    var all := r => TryBranch(q, e, r, k);
    if q.Cons? {
      var rest := r => TryBranch(q.tail, e, r, k);
      FollowSound(q.tail, c, e, k);
      forall b: Base | OkItem(b.item) ensures Means(Follow(b, q, c), b, e, all) {
        forall st: State ensures Obeys(Follow(b, q, c), b, e, st, all(st)) {
          HeadSound(b, q, c, e, st, rest);
        }
        assert Obeys(Follow(b, q, c), b, e, State(0, map[]), all(State(0, map[])));
      }
    } else {
      forall b: Base | OkItem(b.item) ensures Means(Follow(b, q, c), b, e, all) {
        assert Means(Follow(b, Nil, c), b, e, k);
      }
    }
  }

  /** What a verdict says of one state. */
  ghost predicate Obeys(v: Verdict, b: Base, e: Env, st: State, m: Option<State>) {
    && (v == Dead && MatchesAt(b.item, e, st.pos) ==> m.None?)
    && (v == Open ==> b.greedy && m.Some?)
  }

  lemma {:induction false} HeadSound(b: Base, q: Branch, c: Ctx, e: Env, st: State, rest: Kont)
    requires q.Cons? && OkBranch(q) && OkNewline(e.nl) && OkItem(b.item) && Sound(q.tail, c, e, rest)
    ensures Obeys(Follow(b, q, c), b, e, st, TryNode(q.head, e, st, rest))
    decreases q.head, 2
  {
    var n, t := q.head, q.tail;
    var v := Follow(b, q, c);
    assert Means(Follow(b, t, c), b, e, rest);
    match n
    case Single(it) =>
      if v == Dead && MatchesAt(b.item, e, st.pos) { ApartSound(b.item, it, e.nl, e.s[st.pos]); }
    case Repeat(it, r) =>
      if v == Open {
        RepeatTotal(it, Hi(r), ModeOf(r), e, st, rest);
      } else if v == Dead && MatchesAt(b.item, e, st.pos) {
        ApartSound(b.item, it, e.nl, e.s[st.pos]);
      }
    case Assert(op) =>
      if v == Dead && MatchesAt(b.item, e, st.pos) { ApartAssertSound(b.item, op, e, st.pos); }
    case Group(_, _, alts, _) => if v != Fail { GroupSound(b, n, t, c, e, st, rest); }
    case Optional(op, g) => if v != Fail { HeadSound(b, Cons(g, t), c, e, st, rest); }
  }

  lemma {:induction false} GroupSound(b: Base, n: Node, t: Branch, c: Ctx, e: Env, st: State, rest: Kont)
    requires n.Group? && OkNode(n) && OkNewline(e.nl) && OkItem(b.item) && Sound(t, c, e, rest)
    ensures Obeys(FollowAlts(b, n.alts, t, n, c), b, e, st, TryNode(n, e, st, rest))
    decreases n, 1
  {
    var out := r => AfterKet(n, e, st.pos, r, rest);
    forall later: Option<Alts> ensures Sound(Nil, In(later, t, n, c), e, out) {
      forall b: Base | OkItem(b.item) ensures Means(Follow(b, Nil, In(later, t, n, c)), b, e, out) {
        assert Means(Follow(b, t, c), b, e, rest);
      }
    }
    AltsFollowSound(b, n.alts, t, n, c, e, st, out);
  }

  lemma {:induction false} AltsFollowSound(b: Base, a: Alts, t: Branch, n: Node, c: Ctx, e: Env, st: State, out: Kont)
    requires OkAlts(a) && OkNewline(e.nl) && OkItem(b.item)
    requires forall later: Option<Alts> :: Sound(Nil, In(later, t, n, c), e, out)
    ensures Obeys(FollowAlts(b, a, t, n, c), b, e, st, TryAlts(a, e, st, out))
    decreases a
  {
    var cc := In(Later(a), t, n, c);
    var here := r => TryBranch(a.branch, e, r, out);
    FollowSound(a.branch, cc, e, out);
    assert Means(Follow(b, a.branch, cc), b, e, here) && here(st) == TryBranch(a.branch, e, st, out);
    if a.Or? { AltsFollowSound(b, a.more, t, n, c, e, st, out); }
  }
}
