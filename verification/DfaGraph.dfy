/** The states of the set-of-states matcher and the steps between them, and that following the
    steps from the start of a pattern finds exactly the slices of its language. */
module DfaGraph {
  import opened Folding
  import opened Opcodes
  import opened Regex
  import opened Language
  import opened Layout

  /** A state: the offset of an opcode and, at a repeat, the number of items already matched. */
  datatype Block = Block(offset: nat, count: nat)

  /** What is at an offset of the code: an item or an opening bracket that starts at x; the end of an
      alternative that is not the last of its bracket; or the closing bracket of group g, opened at x. */
  datatype Spot = AtNode(n: Node, x: nat) | AtAlt(ket: nat) | AtKet(g: Node, x: nat) | Nowhere

  function KetOffset(n: Node, x: nat): nat
    requires n.Group?
  {
    x + BraSize(n.bra) + AltsSize(n.alts)
  }

  function FindNode(n: Node, x: nat, p: nat): Spot
    decreases n
  {
    if p == x then AtNode(n, x)
    else
      match n
      case Optional(_, g) => FindNode(g, x + 1, p)
      case Group(bra, _, alts, _) =>
        if p == KetOffset(n, x) then AtKet(n, x)
        else if p < x + BraSize(bra) || p > KetOffset(n, x) then Nowhere
        else FindAlts(alts, x + BraSize(bra), KetOffset(n, x), p)
      case _ => Nowhere
  }

  function FindAlts(a: Alts, x: nat, ket: nat, p: nat): Spot
    decreases a
  {
    var end := x + BranchSize(a.branch);
    if p < end then FindBranch(a.branch, x, p)
    else if a.Last? then Nowhere
    else if p == end then AtAlt(ket)
    else if p < end + 1 + LINK_SIZE then Nowhere
    else FindAlts(a.more, end + 1 + LINK_SIZE, ket, p)
  }

  function FindBranch(b: Branch, x: nat, p: nat): Spot
    decreases b
  {
    if b.Nil? then Nowhere
    else if p < x + NodeSize(b.head) then FindNode(b.head, x, p)
    else FindBranch(b.tail, x + NodeSize(b.head), p)
  }

  /** What is at an offset of a whole pattern, its last closing bracket apart. */
  function SpotOf(pat: Node, p: nat): Spot
    requires pat.Group?
  {
    FindAlts(pat.alts, BraSize(pat.bra), KetOffset(pat, 0), p)
  }

  // --- the steps ------------------------------------------------------------

  function Starts(a: Alts, x: nat): seq<Block> {
    [Block(x, 0)] + (if a.Or? then Starts(a.more, x + BranchSize(a.branch) + 1 + LINK_SIZE) else [])
  }

  /** The states added for the current character. */
  function Eps(sp: Spot, s: Block, e: Env, i: nat): seq<Block> {
    match sp
    case Nowhere => []
    case AtAlt(ket) => [Block(ket, 0)]
    case AtKet(g, x) => [Block(s.offset + 1 + LINK_SIZE, 0)]
                          + (if g.Group? && g.ket != OP_KET then [Block(x, 0)] else [])
    case AtNode(n, x) =>
      var next := [Block(x + NodeSize(n), 0)];
      match n
      case Single(_) => []
      case Repeat(_, r) => if s.count >= Lo(r) then next else []
      case Assert(op) => if Holds(op, e, i) then next else []
      case Group(bra, _, alts, _) => Starts(alts, x + BraSize(bra))
      case Optional(op, _) => (if op != OP_SKIPZERO then [Block(x + 1, 0)] else []) + next
  }

  /** A star keeps no count. */
  predicate IsStar(r: Rep) { Lo(r) == 0 && Hi(r) < 0 }

  /** The states added for the next character. */
  function Move(sp: Spot, s: Block, e: Env, i: nat): seq<Block> {
    if !sp.AtNode? then []
    else
      var next := [Block(sp.x + NodeSize(sp.n), 0)];
      match sp.n
      case Single(it) => if MatchesAt(it, e, i) then next else []
      case Repeat(it, r) =>
        if !MatchesAt(it, e, i) then []
        else if 0 <= Hi(r) <= s.count + 1 then next
        else [Block(sp.x, if IsStar(r) then 0 else s.count + 1)]
      case _ => []
  }

  /** A step from state s at offset i, over d characters. */
  predicate Step(sp: Spot, s: Block, t: Block, e: Env, i: nat, d: nat) {
    (d == 0 && t in Eps(sp, s, e, i)) || (d == 1 && t in Move(sp, s, e, i))
  }

  /** Only unfinished repeats have a count. */
  predicate CountOk(sp: Spot, s: Block) {
    if sp.AtNode? && sp.n.Repeat? then Hi(sp.n.rep) < 0 || s.count < Hi(sp.n.rep) else s.count == 0
  }

  // --- what a state can still match ---------------------------------------------

  function Minus(lo: nat, c: nat): nat { if lo < c then 0 else lo - c }

  function HiMinus(hi: int, c: nat): int { if hi < 0 then hi else hi - c }

  ghost predicate AfterGroup(n: Node, e: Env, m: nat, j: nat)
    requires n.Group?
  {
    m == j || (n.ket != OP_KET && InNode(n, e, m, j))
  }

  /** From state s of node n at offset i, the node can end at j. Its end is a state too. */
  ghost predicate EndsNode(n: Node, x: nat, s: Block, e: Env, i: nat, j: nat)
    decreases n
  {
    if s.offset == x + NodeSize(n) then i == j
    else if s.offset == x then
      (match n
       case Repeat(it, r) => InRepeat(it, Minus(Lo(r), s.count), HiMinus(Hi(r), s.count), e, i, j)
       case _ => InNode(n, e, i, j))
    else
      match n
      case Optional(_, g) => EndsNode(g, x + 1, s, e, i, j)
      case Group(bra, _, alts, _) =>
        exists m: nat :: m <= |e.s| && EndsAlts(alts, x + BraSize(bra), s, e, i, m) && AfterGroup(n, e, m, j)
      case _ => false
  }

  /** The same for alternatives, whose end is the closing bracket. */
  ghost predicate EndsAlts(a: Alts, x: nat, s: Block, e: Env, i: nat, j: nat)
    decreases a
  {
    var end := x + BranchSize(a.branch);
    if s.offset < end then EndsBranch(a.branch, x, s, e, i, j)
    else if s.offset == end then i == j
    else a.Or? && EndsAlts(a.more, end + 1 + LINK_SIZE, s, e, i, j)
  }

  ghost predicate EndsBranch(b: Branch, x: nat, s: Block, e: Env, i: nat, j: nat)
    decreases b
  {
    if b.Nil? then s.offset == x && i == j
    else if s.offset < x + NodeSize(b.head) then
      exists m: nat :: m <= |e.s| && EndsNode(b.head, x, s, e, i, m) && InBranch(b.tail, e, m, j)
    else EndsBranch(b.tail, x + NodeSize(b.head), s, e, i, j)
  }

  lemma NodeFirst(n: Node, x: nat, e: Env, i: nat, j: nat)
    ensures EndsNode(n, x, Block(x, 0), e, i, j) <==> InNode(n, e, i, j)
  {
  }

  lemma BranchFirst(b: Branch, x: nat, e: Env, i: nat, j: nat)
    requires i <= |e.s|
    ensures EndsBranch(b, x, Block(x, 0), e, i, j) <==> InBranch(b, e, i, j)
  {
    if b.Cons? {
      forall m: nat | m <= |e.s| && InNode(b.head, e, i, m) ensures i <= m { NodeSpan(b.head, e, i, m); }
      forall m: nat ensures EndsNode(b.head, x, Block(x, 0), e, i, m) <==> InNode(b.head, e, i, m) {
        NodeFirst(b.head, x, e, i, m);
      }
    }
  }

  // --- a step is never to a state that can match more ---------------------------------------

  /** State t is a state of the node, or its end. */
  predicate StaysNode(n: Node, x: nat, t: Block) {
    t == Block(x + NodeSize(n), 0) ||
    (x <= t.offset < x + NodeSize(n) && FindNode(n, x, t.offset) != Nowhere && CountOk(FindNode(n, x, t.offset), t))
  }

  predicate StaysAlts(a: Alts, x: nat, ket: nat, t: Block) {
    t == Block(ket, 0) ||
    (x <= t.offset < x + AltsSize(a) && FindAlts(a, x, ket, t.offset) != Nowhere
     && CountOk(FindAlts(a, x, ket, t.offset), t))
  }

  predicate StaysBranch(b: Branch, x: nat, t: Block) {
    t == Block(x + BranchSize(b), 0) ||
    (x <= t.offset < x + BranchSize(b) && FindBranch(b, x, t.offset) != Nowhere
     && CountOk(FindBranch(b, x, t.offset), t))
  }

  lemma RepeatBack(n: Node, x: nat, s: Block, t: Block, e: Env, i: nat, d: nat, j: nat)
    requires n.Repeat? && OkNode(n) && s.offset == x && CountOk(AtNode(n, x), s) && Step(AtNode(n, x), s, t, e, i, d)
    ensures StaysNode(n, x, t)
    ensures EndsNode(n, x, t, e, i + d, j) ==> EndsNode(n, x, s, e, i, j)
  {
  }

  lemma {:induction false} StartsInside(a: Alts, x: nat, ket: nat, t: Block)
    requires t in Starts(a, x) && ket == x + AltsSize(a) && OkAlts(a)
    ensures StaysAlts(a, x, ket, t)
    decreases a
  {
    if t == Block(x, 0) {
      StartInside(a, x, ket);
    } else {
      var next := LaterStart(a, x, ket, t);
      StartsInside(a.more, next, ket, t);
      StartsAfter(a.more, next, t);
      StaysMore(a, x, next, ket, t);
    }
  }

  lemma LaterStart(a: Alts, x: nat, ket: nat, t: Block) returns (next: nat)
    requires t in Starts(a, x) && t != Block(x, 0) && ket == x + AltsSize(a) && OkAlts(a)
    ensures a.Or? && next == x + BranchSize(a.branch) + 1 + LINK_SIZE && t in Starts(a.more, next)
    ensures ket == next + AltsSize(a.more) && OkAlts(a.more)
  {
    next := x + BranchSize(a.branch) + 1 + LINK_SIZE;
    StartsAre(a, x, next);
    SizeLater(a, x, next);
  }

  lemma StartsAre(a: Alts, x: nat, next: nat)
    requires next == x + BranchSize(a.branch) + 1 + LINK_SIZE
    ensures Starts(a, x) == [Block(x, 0)] + if a.Or? then Starts(a.more, next) else []
  {
  }

  lemma SizeLater(a: Alts, x: nat, next: nat)
    requires next == x + BranchSize(a.branch) + 1 + LINK_SIZE
    ensures a.Or? ==> x + AltsSize(a) == next + AltsSize(a.more)
  {
  }

  lemma StartInside(a: Alts, x: nat, ket: nat)
    requires ket == x + AltsSize(a) && OkAlts(a)
    ensures StaysAlts(a, x, ket, Block(x, 0))
  {
    if a.branch.Cons? { BranchFirstSpot(a.branch, x); }
  }

  lemma StaysMore(a: Alts, x: nat, next: nat, ket: nat, t: Block)
    requires a.Or? && next == x + BranchSize(a.branch) + 1 + LINK_SIZE && next <= t.offset
             && StaysAlts(a.more, next, ket, t)
    ensures StaysAlts(a, x, ket, t)
  {
  }

  lemma BranchFirstSpot(b: Branch, x: nat)
    requires b.Cons? && OkBranch(b)
    ensures BranchSize(b) > 0 && FindBranch(b, x, x) == AtNode(b.head, x) && CountOk(AtNode(b.head, x), Block(x, 0))
  {
  }

  lemma {:induction false} StartsBack(a: Alts, x: nat, t: Block, e: Env, i: nat, j: nat)
    requires t in Starts(a, x) && i <= |e.s| && EndsAlts(a, x, t, e, i, j)
    ensures InAlts(a, e, i, j)
    decreases a
  {
    if t == Block(x, 0) {
      BranchFirst(a.branch, x, e, i, j);
    } else {
      var next := x + BranchSize(a.branch) + 1 + LINK_SIZE;
      StartsAfter(a.more, next, t);
      StartsBack(a.more, next, t, e, i, j);
    }
  }

  lemma {:induction false} StartsAfter(a: Alts, x: nat, t: Block)
    requires t in Starts(a, x)
    ensures x <= t.offset && t.count == 0
    decreases a
  {
    if t != Block(x, 0) { StartsAfter(a.more, x + BranchSize(a.branch) + 1 + LINK_SIZE, t); }
  }

  /** A step from a state of the node leads to a state of the node or to its end, and whatever can be
      matched from there can be matched from the first state. */
  lemma {:induction false} BackNode(n: Node, x: nat, s: Block, t: Block, e: Env, i: nat, d: nat, j: nat)
    requires OkNode(n) && x <= s.offset < x + NodeSize(n) && i <= |e.s| && j <= |e.s|
    requires var sp := FindNode(n, x, s.offset); CountOk(sp, s) && Step(sp, s, t, e, i, d)
    ensures StaysNode(n, x, t)
    ensures EndsNode(n, x, t, e, i + d, j) ==> EndsNode(n, x, s, e, i, j)
    decreases n
  {
    match n
    case Repeat(_, _) => RepeatBack(n, x, s, t, e, i, d, j);
    case Optional(_, g) =>
      if s.offset != x { BackNode(g, x + 1, s, t, e, i, d, j); } else { NodeFirst(g, x + 1, e, i, j); }
    case Group(_, _, _, _) => BackGroup(n, x, s, t, e, i, d, j);
    case _ =>
  }

  /** The alternatives end at m, and then the group at j. */
  lemma GroupEnds(n: Node, x: nat, s: Block, e: Env, i: nat, m: nat, j: nat)
    requires n.Group? && x < s.offset <= KetOffset(n, x) && m <= |e.s|
    requires EndsAlts(n.alts, x + BraSize(n.bra), s, e, i, m) && AfterGroup(n, e, m, j)
    ensures EndsNode(n, x, s, e, i, j)
  {
  }

  lemma GroupSplit(n: Node, x: nat, s: Block, e: Env, i: nat, j: nat) returns (m: nat)
    requires n.Group? && x < s.offset <= KetOffset(n, x) && EndsNode(n, x, s, e, i, j)
    ensures m <= |e.s| && EndsAlts(n.alts, x + BraSize(n.bra), s, e, i, m) && AfterGroup(n, e, m, j)
  {
    m :| m <= |e.s| && EndsAlts(n.alts, x + BraSize(n.bra), s, e, i, m) && AfterGroup(n, e, m, j);
  }

  lemma {:induction false} BackGroup(n: Node, x: nat, s: Block, t: Block, e: Env, i: nat, d: nat, j: nat)
    requires n.Group? && OkNode(n) && x <= s.offset < x + NodeSize(n) && i <= |e.s| && j <= |e.s|
    requires var sp := FindNode(n, x, s.offset); CountOk(sp, s) && Step(sp, s, t, e, i, d)
    ensures StaysNode(n, x, t)
    ensures EndsNode(n, x, t, e, i + d, j) ==> EndsNode(n, x, s, e, i, j)
    decreases n, 0
  {
    var ket := KetOffset(n, x);
    if s.offset == x {
      BackOpen(n, x, s, t, e, i, j);
    } else if s.offset == ket {
      BackClose(n, x, s, t, e, i, j);
    } else {
      var y := x + BraSize(n.bra);
      BackAlts(n.alts, y, ket, s, t, e, i, d, j);
      if EndsNode(n, x, t, e, i + d, j) {
        var m := GroupSplit(n, x, t, e, i + d, j);
        BackAlts(n.alts, y, ket, s, t, e, i, d, m);
        GroupEnds(n, x, s, e, i, m, j);
      }
    }
  }

  lemma BackOpen(n: Node, x: nat, s: Block, t: Block, e: Env, i: nat, j: nat)
    requires n.Group? && OkNode(n) && s.offset == x && i <= |e.s| && t in Starts(n.alts, x + BraSize(n.bra))
    ensures StaysNode(n, x, t)
    ensures EndsNode(n, x, t, e, i, j) ==> EndsNode(n, x, s, e, i, j)
  {
    var y, ket := x + BraSize(n.bra), KetOffset(n, x);
    StartsInside(n.alts, y, ket, t);
    if EndsNode(n, x, t, e, i, j) {
      var m := GroupSplit(n, x, t, e, i, j);
      StartsBack(n.alts, y, t, e, i, m);
      AltsSpan(n.alts, e, i, m);
    }
  }

  lemma BackClose(n: Node, x: nat, s: Block, t: Block, e: Env, i: nat, j: nat)
    requires n.Group? && OkNode(n) && s == Block(KetOffset(n, x), 0) && i <= |e.s|
    requires t in Eps(AtKet(n, x), s, e, i)
    ensures StaysNode(n, x, t)
    ensures EndsNode(n, x, t, e, i, j) ==> EndsNode(n, x, s, e, i, j)
  {
    assert KetOffset(n, x) + 1 + LINK_SIZE == x + NodeSize(n);
    if t.offset != x {
      assert t == Block(x + NodeSize(n), 0);
      CloseEnds(n, x, e, i, j);
    } else {
      NodeFirst(n, x, e, i, j);
      CloseEnds(n, x, e, i, j);
    }
  }

  lemma CloseEnds(n: Node, x: nat, e: Env, i: nat, j: nat)
    requires n.Group? && i <= |e.s|
    ensures AfterGroup(n, e, i, j) ==> EndsNode(n, x, Block(KetOffset(n, x), 0), e, i, j)
  {
    KetEnds(n.alts, x + BraSize(n.bra), Block(KetOffset(n, x), 0), e, i);
    if AfterGroup(n, e, i, j) { GroupEnds(n, x, Block(KetOffset(n, x), 0), e, i, i, j); }
  }

  /** The end of the first alternative, and where the next one starts. */
  lemma AltsBounds(a: Alts, x: nat, ket: nat)
    requires ket == x + AltsSize(a)
    ensures var end := x + BranchSize(a.branch);
            end <= ket && (a.Last? ==> ket == end)
                && (a.Or? ==> end + 1 + LINK_SIZE <= ket == end + 1 + LINK_SIZE + AltsSize(a.more))
  {
  }

  lemma {:induction false} KetOnly(a: Alts, x: nat, t: Block, e: Env, i: nat, j: nat)
    requires t.offset == x + AltsSize(a) && EndsAlts(a, x, t, e, i, j)
    ensures i == j
    decreases a
  {
    AltsBounds(a, x, t.offset);
    if a.Or? { KetOnly(a.more, x + BranchSize(a.branch) + 1 + LINK_SIZE, t, e, i, j); }
  }

  lemma KetMore(a: Alts, x: nat, t: Block, e: Env, i: nat)
    requires a.Or? && t.offset > x + BranchSize(a.branch)
    requires EndsAlts(a.more, x + BranchSize(a.branch) + 1 + LINK_SIZE, t, e, i, i)
    ensures EndsAlts(a, x, t, e, i, i)
  {
    assert !(t.offset < x + BranchSize(a.branch));
  }

  lemma {:induction false} KetEnds(a: Alts, x: nat, t: Block, e: Env, i: nat)
    requires t.offset == x + AltsSize(a)
    ensures EndsAlts(a, x, t, e, i, i)
    decreases a
  {
    AltsBounds(a, x, t.offset);
    if a.Or? {
      KetEnds(a.more, x + BranchSize(a.branch) + 1 + LINK_SIZE, t, e, i);
      KetMore(a, x, t, e, i);
    }
  }

  lemma {:induction false} BranchLast(b: Branch, x: nat, e: Env, i: nat, j: nat)
    ensures EndsBranch(b, x, Block(x + BranchSize(b), 0), e, i, j) <==> i == j
    decreases b
  {
    if b.Cons? { BranchLast(b.tail, x + NodeSize(b.head), e, i, j); }
  }

  lemma {:induction false} BackAlts(a: Alts, x: nat, ket: nat, s: Block, t: Block, e: Env, i: nat, d: nat, j: nat)
    requires OkAlts(a) && x <= s.offset < ket && ket == x + AltsSize(a) && i <= |e.s| && j <= |e.s|
    requires var sp := FindAlts(a, x, ket, s.offset); CountOk(sp, s) && Step(sp, s, t, e, i, d)
    ensures StaysAlts(a, x, ket, t)
    ensures EndsAlts(a, x, t, e, i + d, j) ==> EndsAlts(a, x, s, e, i, j)
    decreases a
  {
    var end := x + BranchSize(a.branch);
    if s.offset < end {
      BackBranch(a.branch, x, s, t, e, i, d, j);
      BranchLast(a.branch, x, e, i + d, j);
    } else if s.offset == end {
      if EndsAlts(a, x, t, e, i + d, j) { KetOnly(a, x, t, e, i, j); }
    } else {
      BackAlts(a.more, end + 1 + LINK_SIZE, ket, s, t, e, i, d, j);
    }
  }

  lemma {:induction false} BackBranch(b: Branch, x: nat, s: Block, t: Block, e: Env, i: nat, d: nat, j: nat)
    requires OkBranch(b) && x <= s.offset < x + BranchSize(b) && i <= |e.s| && j <= |e.s|
    requires var sp := FindBranch(b, x, s.offset); CountOk(sp, s) && Step(sp, s, t, e, i, d)
    ensures StaysBranch(b, x, t)
    ensures EndsBranch(b, x, t, e, i + d, j) ==> EndsBranch(b, x, s, e, i, j)
    decreases b
  {
    var x' := x + NodeSize(b.head);
    if s.offset < x' {
      forall m: nat | m <= |e.s|
        ensures StaysNode(b.head, x, t)
        ensures EndsNode(b.head, x, t, e, i + d, m) ==> EndsNode(b.head, x, s, e, i, m)
      {
        BackNode(b.head, x, s, t, e, i, d, m);
      }
      BackNode(b.head, x, s, t, e, i, d, 0);
      if t == Block(x', 0) {
        MoveInside(b.head, x, s, t, e, i, d);
        BranchFirst(b.tail, x', e, i + d, j);
        if b.tail.Cons? { BranchFirstSpot(b.tail, x'); }
        assert EndsNode(b.head, x, t, e, i + d, i + d);
      }
    } else {
      BackBranch(b.tail, x', s, t, e, i, d, j);
    }
  }

  lemma MoveInside(n: Node, x: nat, s: Block, t: Block, e: Env, i: nat, d: nat)
    requires Step(FindNode(n, x, s.offset), s, t, e, i, d) && i <= |e.s|
    ensures i + d <= |e.s|
  {
  }

  // --- following all the steps finds every slice ------------------------------------------

  /** The states met at each offset of the subject. */
  type Trace = seq<set<Block>>

  /** All the steps from the states at offsets below L have been followed. */
  ghost predicate Closed(pat: Node, e: Env, T: Trace, L: nat)
    requires pat.Group?
  {
    |T| == L + 1 && forall k: int {:trigger Look(k)} :: Look(k) ==> IsClosed(pat, e, T, L)
  }

  ghost predicate IsClosed(pat: Node, e: Env, T: Trace, L: nat)
    requires pat.Group? && |T| == L + 1
  {
    forall i: nat, s: Block {:trigger s in T[i]} :: i < L && s in T[i] ==> Followed(pat, e, i, s, T[i], T[i + 1])
  }

  ghost predicate Followed(pat: Node, e: Env, i: nat, s: Block, here: set<Block>, next: set<Block>)
    requires pat.Group?
  {
    && (forall t {:trigger t in here} :: t in Eps(SpotOf(pat, s.offset), s, e, i) ==> t in here)
    && (forall t {:trigger t in next} :: t in Move(SpotOf(pat, s.offset), s, e, i) ==> t in next)
  }

  /** The node is the part of the pattern that starts at offset x. */
  ghost predicate PartNode(pat: Node, n: Node, x: nat)
    requires pat.Group?
  {
    OkNode(n) && forall p: nat {:trigger FindNode(n, x, p)} :: x <= p < x + NodeSize(n) ==>
        SpotOf(pat, p) == FindNode(n, x, p)
  }

  ghost predicate PartAlts(pat: Node, a: Alts, x: nat, ket: nat)
    requires pat.Group?
  {
    && OkAlts(a) && ket == x + AltsSize(a)
    && forall p: nat {:trigger FindAlts(a, x, ket, p)} :: x <= p < ket ==> SpotOf(pat, p) == FindAlts(a, x, ket, p)
  }

  ghost predicate PartBranch(pat: Node, b: Branch, x: nat)
    requires pat.Group?
  {
    OkBranch(b) && forall p: nat {:trigger FindBranch(b, x, p)} :: x <= p < x + BranchSize(b) ==>
        SpotOf(pat, p) == FindBranch(b, x, p)
  }

  lemma PartOfBranch(pat: Node, b: Branch, x: nat)
    requires pat.Group? && PartBranch(pat, b, x) && b.Cons?
    ensures PartNode(pat, b.head, x) && PartBranch(pat, b.tail, x + NodeSize(b.head))
  {
    forall p: nat | x <= p < x + NodeSize(b.head) ensures SpotOf(pat, p) == FindNode(b.head, x, p) {
      assert FindBranch(b, x, p) == FindNode(b.head, x, p);
    }
    forall p: nat | x + NodeSize(b.head) <= p < x + BranchSize(b)
      ensures SpotOf(pat, p) == FindBranch(b.tail, x + NodeSize(b.head), p) {
      assert FindBranch(b, x, p) == FindBranch(b.tail, x + NodeSize(b.head), p);
    }
  }

  lemma PartOfAlts(pat: Node, a: Alts, x: nat, ket: nat)
    requires pat.Group? && PartAlts(pat, a, x, ket)
    ensures PartBranch(pat, a.branch, x)
    ensures a.Or? ==>
              PartAlts(pat, a.more, x + BranchSize(a.branch) + 1 + LINK_SIZE, ket)
              && SpotOf(pat, x + BranchSize(a.branch)) == AtAlt(ket)
  {
    var end := x + BranchSize(a.branch);
    forall p: nat | x <= p < end ensures SpotOf(pat, p) == FindBranch(a.branch, x, p) {
      assert FindAlts(a, x, ket, p) == FindBranch(a.branch, x, p);
    }
    if a.Or? {
      assert FindAlts(a, x, ket, end) == AtAlt(ket);
      forall p: nat | end + 1 + LINK_SIZE <= p < ket
        ensures SpotOf(pat, p) == FindAlts(a.more, end + 1 + LINK_SIZE, ket, p) {
        assert FindAlts(a, x, ket, p) == FindAlts(a.more, end + 1 + LINK_SIZE, ket, p);
      }
    }
  }

  lemma PartOfNode(pat: Node, n: Node, x: nat)
    requires pat.Group? && PartNode(pat, n, x)
    ensures SpotOf(pat, x) == AtNode(n, x)
    ensures n.Optional? ==> PartNode(pat, n.group, x + 1)
    ensures n.Group? ==> PartAlts(pat, n.alts, x + BraSize(n.bra), KetOffset(n, x))
                         && SpotOf(pat, KetOffset(n, x)) == AtKet(n, x)
  {
    assert FindNode(n, x, x) == AtNode(n, x);
    if n.Optional? {
      forall p: nat | x + 1 <= p < x + NodeSize(n) ensures SpotOf(pat, p) == FindNode(n.group, x + 1, p) {
        assert FindNode(n, x, p) == FindNode(n.group, x + 1, p);
      }
    }
    if n.Group? {
      assert FindNode(n, x, KetOffset(n, x)) == AtKet(n, x);
      forall p: nat | x + BraSize(n.bra) <= p < KetOffset(n, x)
        ensures SpotOf(pat, p) == FindAlts(n.alts, x + BraSize(n.bra), KetOffset(n, x), p)
      {
        assert FindNode(n, x, p) == FindAlts(n.alts, x + BraSize(n.bra), KetOffset(n, x), p);
      }
    }
  }

  /** A step from a state of a closed trace. */
  lemma FollowStep(pat: Node, e: Env, T: Trace, L: nat, i: nat, s: Block, t: Block, d: nat)
    requires pat.Group? && Closed(pat, e, T, L) && i < L && s in T[i]
    requires Step(SpotOf(pat, s.offset), s, t, e, i, d)
    ensures i + d <= L && t in T[i + d]
  {
    assert Look(0);
    assert Followed(pat, e, i, s, T[i], T[i + 1]);
  }

  lemma {:induction false} RepeatFlow(pat: Node, e: Env, T: Trace, L: nat, n: Node, x: nat, c: nat, i: nat, j: nat)
    requires pat.Group? && Closed(pat, e, T, L) && n.Repeat? && OkNode(n) && SpotOf(pat, x) == AtNode(n, x)
    requires i <= j < L && Block(x, c) in T[i] && CountOk(AtNode(n, x), Block(x, c))
    requires InRepeat(n.item, Minus(Lo(n.rep), c), HiMinus(Hi(n.rep), c), e, i, j)
    ensures Block(x + NodeSize(n), 0) in T[j]
    decreases j - i
  {
    var s, next := Block(x, c), Block(x + NodeSize(n), 0);
    var r := n.rep;
    if i == j {
      FollowStep(pat, e, T, L, i, s, next, 0);
    } else {
      assert MatchesAt(n.item, e, i);
      var t := if 0 <= Hi(r) <= c + 1 then next else Block(x, if IsStar(r) then 0 else c + 1);
      FollowStep(pat, e, T, L, i, s, t, 1);
      if t == next {
        assert Hi(r) == c + 1;
      } else {
        RepeatFlow(pat, e, T, L, n, x, t.count, i + 1, j);
      }
    }
  }

  lemma {:induction false} NodeFlow(pat: Node, e: Env, T: Trace, L: nat, n: Node, x: nat, i: nat, j: nat)
    requires pat.Group? && Closed(pat, e, T, L) && PartNode(pat, n, x)
    requires i <= j < L && i <= |e.s| && Block(x, 0) in T[i] && InNode(n, e, i, j)
    ensures Block(x + NodeSize(n), 0) in T[j]
    decreases n, |e.s| - i
  {
    var s, next := Block(x, 0), Block(x + NodeSize(n), 0);
    PartOfNode(pat, n, x);
    match n
    case Single(_) => FollowStep(pat, e, T, L, i, s, next, 1);
    case Assert(_) => FollowStep(pat, e, T, L, i, s, next, 0);
    case Repeat(_, _) => RepeatFlow(pat, e, T, L, n, x, 0, i, j);
    case Optional(_, g) =>
      if i == j {
        FollowStep(pat, e, T, L, i, s, next, 0);
      } else {
        FollowStep(pat, e, T, L, i, s, Block(x + 1, 0), 0);
        NodeFlow(pat, e, T, L, g, x + 1, i, j);
      }
    case Group(_, _, _, _) => GroupFlow(pat, e, T, L, n, x, i, j);
  }

  lemma {:induction false} GroupFlow(pat: Node, e: Env, T: Trace, L: nat, n: Node, x: nat, i: nat, j: nat)
    requires n.Group? && pat.Group? && Closed(pat, e, T, L) && PartNode(pat, n, x)
    requires i <= j < L && i <= |e.s| && Block(x, 0) in T[i] && InNode(n, e, i, j)
    ensures Block(x + NodeSize(n), 0) in T[j]
    decreases n, |e.s| - i, 0
  {
    var y, ket := x + BraSize(n.bra), KetOffset(n, x);
    PartOfNode(pat, n, x);
    forall t | t in Starts(n.alts, y) ensures t in T[i] { FollowStep(pat, e, T, L, i, Block(x, 0), t, 0); }
    AllStart(n.alts, y, T[i]);
    var m := j;
    if !InAlts(n.alts, e, i, j) {
      m :| i < m <= |e.s| && InAlts(n.alts, e, i, m) && InNode(n, e, m, j);
      NodeSpan(n, e, m, j);
    }
    AltsFlow(pat, e, T, L, n.alts, y, ket, i, m);
    if m == j {
      FollowStep(pat, e, T, L, j, Block(ket, 0), Block(x + NodeSize(n), 0), 0);
    } else {
      FollowStep(pat, e, T, L, m, Block(ket, 0), Block(x, 0), 0);
      NodeFlow(pat, e, T, L, n, x, m, j);
    }
  }

  /** The states at the start of all the alternatives are in the set. */
  ghost predicate StartsIn(a: Alts, x: nat, here: set<Block>) {
    Block(x, 0) in here && (a.Or? ==> StartsIn(a.more, x + BranchSize(a.branch) + 1 + LINK_SIZE, here))
  }

  lemma {:induction false} AllStart(a: Alts, x: nat, here: set<Block>)
    requires forall t {:trigger t in here} :: t in Starts(a, x) ==> t in here
    ensures StartsIn(a, x, here)
    decreases a
  {
    assert Block(x, 0) in Starts(a, x);
    if a.Or? {
      forall t | t in Starts(a.more, x + BranchSize(a.branch) + 1 + LINK_SIZE) ensures t in here {
        assert t in Starts(a, x);
      }
      AllStart(a.more, x + BranchSize(a.branch) + 1 + LINK_SIZE, here);
    }
  }

  lemma {:induction false} AltsFlow(pat: Node, e: Env, T: Trace, L: nat, a: Alts, x: nat, ket: nat, i: nat, j: nat)
    requires pat.Group? && Closed(pat, e, T, L) && PartAlts(pat, a, x, ket)
    requires i <= j < L && i <= |e.s| && StartsIn(a, x, T[i]) && InAlts(a, e, i, j)
    ensures Block(ket, 0) in T[j]
    decreases a
  {
    var end := x + BranchSize(a.branch);
    PartOfAlts(pat, a, x, ket);
    if InBranch(a.branch, e, i, j) {
      BranchFlow(pat, e, T, L, a.branch, x, i, j);
      if a.Or? { FollowStep(pat, e, T, L, j, Block(end, 0), Block(ket, 0), 0); }
    } else {
      AltsFlow(pat, e, T, L, a.more, end + 1 + LINK_SIZE, ket, i, j);
    }
  }

  lemma {:induction false} BranchFlow(pat: Node, e: Env, T: Trace, L: nat, b: Branch, x: nat, i: nat, j: nat)
    requires pat.Group? && Closed(pat, e, T, L) && PartBranch(pat, b, x)
    requires i <= j < L && i <= |e.s| && Block(x, 0) in T[i] && InBranch(b, e, i, j)
    ensures Block(x + BranchSize(b), 0) in T[j]
    decreases b
  {
    if b.Cons? {
      PartOfBranch(pat, b, x);
      var m: nat :| i <= m <= |e.s| && InNode(b.head, e, i, m) && InBranch(b.tail, e, m, j);
      BranchSpan(b.tail, e, m, j);
      NodeFlow(pat, e, T, L, b.head, x, i, m);
      BranchFlow(pat, e, T, L, b.tail, x + NodeSize(b.head), m, j);
    }
  }
}
