/** How many calls the path analysis makes. One limit holds for all the repeats of a pattern, so the number of calls
    decides how far the rewriting gets. */
module PossessCalls {
  import opened Opcodes
  import opened Regex
  import opened Layout
  import opened PossessRule
  import opened PossessRewrite

  const REC_LIMIT := 1000

  ghost predicate Passes(b: Base, q: Branch, c: Ctx) { Follow(b, q, c) != Fail }

  /** The calls made below the one that starts at q in context c: one for each alternative but the last, and one for
      what comes after an optional group, until the verdict is known. */
  ghost function Used(b: Base, q: Branch, c: Ctx): nat
    decreases BranchWeight(q) + CtxWeight(c)
  {
    match q
    case Nil => if b.greedy && c.In? && c.group.Group? && c.group.ket == OP_KET then Used(b, c.rest, c.up) else 0
    case Cons(n, t) =>
      assert BranchWeight(q) == Weight(n) + BranchWeight(t);
      match n
      case Single(_) => 0
      case Repeat(it, r) => if Apart(b.item, it) && Skippable(r) then Used(b, t, c) else 0
      case Assert(_) => 0
      case Group(bra, _, alts, _) => if bra == OP_BRA || bra == OP_CBRA then UsedAlts(b, alts, t, n, c) else 0
      case Optional(op, g) =>
        if op == OP_SKIPZERO || !g.Group? || !(g.bra == OP_BRA || g.bra == OP_CBRA) then 0
        else
          assert BranchWeight(Cons(g, t)) == Weight(g) + BranchWeight(t) < BranchWeight(q);
          1 + Used(b, t, c) + (if Passes(b, t, c) then Used(b, Cons(g, t), c) else 0)
  }

  ghost function UsedAlts(b: Base, a: Alts, t: Branch, g: Node, c: Ctx): nat
    decreases AltsWeight(a) + 1 + BranchWeight(t) + CtxWeight(c)
  {
    var z := In(Later(a), t, g, c);
    var here := Used(b, a.branch, z);
    if a.Last? then here
    else 1 + here + (if Passes(b, a.branch, z) then UsedAlts(b, a.more, t, g, c) else 0)
  }

  /** The calls made for the repeat at offset p. */
  ghost function CallsInNode(n: Node, t: Branch, c: Ctx, x: nat, p: nat): nat
    requires OpenInNode(n, x, p)
  {
    match n
    case Repeat(it, r) => 1 + Used(BaseOf(it, r), t, c)
    case Group(bra, _, alts, _) => CallsInAlts(alts, t, n, c, x + BraSize(bra), p)
    case Optional(_, g) => CallsInNode(g, t, c, x + 1, p)
  }

  ghost function CallsInAlts(a: Alts, t: Branch, g: Node, c: Ctx, x: nat, p: nat): nat
    requires OpenInAlts(a, x, p)
  {
    if OpenInBranch(a.branch, x, p) then CallsInBranch(a.branch, In(Later(a), t, g, c), x, p)
    else CallsInAlts(a.more, t, g, c, x + BranchSize(a.branch) + 1 + LINK_SIZE, p)
  }

  ghost function CallsInBranch(b: Branch, c: Ctx, x: nat, p: nat): nat
    requires OpenInBranch(b, x, p)
  {
    if OpenInNode(b.head, x, p) then CallsInNode(b.head, b.tail, c, x, p)
    else CallsInBranch(b.tail, c, x + NodeSize(b.head), p)
  }

  ghost function CallsFor(pat: Node, p: nat): nat
    requires OpenInNode(pat, 0, p)
  {
    CallsInNode(pat, Nil, Top, 0, p)
  }

  /** The calls made for all the repeats before offset p of a pattern. */
  ghost function CallsUpTo(pat: Node, p: nat): nat {
    if p == 0 then 0 else CallsUpTo(pat, p - 1) + (if OpenInNode(pat, 0, p - 1) then CallsFor(pat, p - 1) else 0)
  }

  lemma {:induction false} NoCallsBetween(pat: Node, p: nat, q: nat)
    requires p <= q && forall d: nat :: p <= d < q ==> !OpenInNode(pat, 0, d)
    ensures CallsUpTo(pat, q) == CallsUpTo(pat, p)
    decreases q
  {
    if p < q { NoCallsBetween(pat, p, q - 1); }
  }

  lemma {:induction false} CallsGrow(pat: Node, p: nat, q: nat)
    requires p <= q
    ensures CallsUpTo(pat, p) <= CallsUpTo(pat, q)
    decreases q
  {
    if p < q { CallsGrow(pat, p, q - 1); }
  }

  /** What is left of a limit after so many calls; once it has run out, it may go on falling. */
  predicate Left(limit: int, from: int, used: nat) { if used < from then limit == from - used else limit <= 0 }

  // --- a bound that does not depend on verdicts ---------------------------------------------------

  /** All the calls there can be: one for each optional group and each alternative but the last, on every path. */
  ghost function Most(q: Branch, c: Ctx): nat
    decreases BranchWeight(q) + CtxWeight(c)
  {
    match q
    case Nil => if c.In? then Most(c.rest, c.up) else 0
    case Cons(n, t) =>
      assert BranchWeight(q) == Weight(n) + BranchWeight(t);
      match n
      case Single(_) => 0
      case Repeat(_, r) => if Skippable(r) then Most(t, c) else 0
      case Assert(_) => 0
      case Group(_, _, alts, _) => MostAlts(alts, t, n, c)
      case Optional(_, g) =>
        assert BranchWeight(Cons(g, t)) == Weight(g) + BranchWeight(t) < BranchWeight(q);
        1 + Most(t, c) + Most(Cons(g, t), c)
  }

  ghost function MostAlts(a: Alts, t: Branch, g: Node, c: Ctx): nat
    decreases AltsWeight(a) + 1 + BranchWeight(t) + CtxWeight(c)
  {
    var here := Most(a.branch, In(Later(a), t, g, c));
    if a.Last? then here else 1 + here + MostAlts(a.more, t, g, c)
  }

  lemma {:induction false} UsedAtMost(b: Base, q: Branch, c: Ctx)
    ensures Used(b, q, c) <= Most(q, c)
    decreases BranchWeight(q) + CtxWeight(c)
  {
    if q.Nil? {
      if c.In? { UsedAtMost(b, c.rest, c.up); }
    } else {
      var n, t := q.head, q.tail;
      assert BranchWeight(q) == Weight(n) + BranchWeight(t);
      match n
      case Repeat(_, r) => UsedAtMost(b, t, c);
      case Group(_, _, alts, _) => UsedAltsAtMost(b, alts, t, n, c);
      case Optional(_, g) =>
        assert BranchWeight(Cons(g, t)) == Weight(g) + BranchWeight(t) < BranchWeight(q);
        UsedAtMost(b, t, c);
        UsedAtMost(b, Cons(g, t), c);
      case _ =>
    }
  }

  lemma {:induction false} UsedAltsAtMost(b: Base, a: Alts, t: Branch, g: Node, c: Ctx)
    ensures UsedAlts(b, a, t, g, c) <= MostAlts(a, t, g, c)
    decreases AltsWeight(a) + 1 + BranchWeight(t) + CtxWeight(c)
  {
    UsedAtMost(b, a.branch, In(Later(a), t, g, c));
    if a.Or? { UsedAltsAtMost(b, a.more, t, g, c); }
  }

  // --- a pattern without groups in it --------------------------------------------------------------

  predicate Flat(b: Branch) { b.Cons? ==> !b.head.Group? && !b.head.Optional? && Flat(b.tail) }

  /** Repeats that could become possessive. */
  function Repeats(b: Branch): nat {
    if b.Nil? then 0 else (if b.head.Repeat? && IsOpenOp(b.head.rep.op) then 1 else 0) + Repeats(b.tail)
  }

  lemma {:induction false} FlatUsed(b: Base, q: Branch, g: Node)
    requires Flat(q)
    ensures Used(b, q, In(None, Nil, g, Top)) == 0
    decreases q
  {
    if q.Nil? { assert Used(b, Nil, Top) == 0; } else { FlatUsed(b, q.tail, g); }
  }

  lemma {:induction false} FlatCalls(b: Branch, g: Node, x: nat, p: nat)
    requires Flat(b) && OpenInBranch(b, x, p)
    ensures CallsInBranch(b, In(None, Nil, g, Top), x, p) == 1
    decreases b
  {
    if OpenInNode(b.head, x, p) {
      FlatUsed(BaseOf(b.head.item, b.head.rep), b.tail, g);
    } else {
      FlatCalls(b.tail, g, x + NodeSize(b.head), p);
    }
  }

  lemma {:induction false} FlatSpan(pat: Node, b: Branch, x: nat, y: nat)
    requires Flat(b) && y == x + BranchSize(b)
    requires forall p: nat :: x <= p < y ==> (OpenInNode(pat, 0, p) <==> OpenInBranch(b, x, p))
    requires forall p: nat :: OpenInNode(pat, 0, p) ==> CallsFor(pat, p) == 1
    ensures CallsUpTo(pat, y) == CallsUpTo(pat, x) + Repeats(b)
    decreases b
  {
    if b.Cons? {
      var z := x + NodeSize(b.head);
      assert OpenInNode(b.head, x, x) <==> b.head.Repeat? && IsOpenOp(b.head.rep.op);
      forall p: nat | x <= p < y ensures OpenInNode(pat, 0, p) <==> (p == x && OpenInNode(b.head, x, x))
                                                                    || (p >= z && OpenInBranch(b.tail, z, p)) {
        BranchOpenSpan(b.tail, z, p);
        assert OpenInBranch(b, x, p) <==> OpenInNode(b.head, x, p) || OpenInBranch(b.tail, z, p);
        assert OpenInNode(b.head, x, p) ==> p == x;
      }
      assert z > x && z <= y;
      BranchOpenSpan(b.tail, z, x);
      assert CallsUpTo(pat, x + 1) == CallsUpTo(pat, x) + if OpenInNode(b.head, x, x) then 1 else 0;
      NoCallsBetween(pat, x + 1, z);
      FlatSpan(pat, b.tail, z, y);
    }
  }

  /** Without groups in it, a pattern takes as many calls as it has repeats that could become possessive. */
  lemma FlatPattern(pat: Node)
    requires pat.Group? && pat.alts.Last? && Flat(pat.alts.branch)
    ensures CallsUpTo(pat, NodeSize(pat)) == Repeats(pat.alts.branch)
  {
    var b, x := pat.alts.branch, BraSize(pat.bra);
    forall p: nat | OpenInNode(pat, 0, p) ensures x <= p < x + BranchSize(b) && CallsFor(pat, p) == 1 {
      assert OpenInAlts(pat.alts, x, p);
      BranchOpenSpan(b, x, p);
      FlatCalls(b, pat, x, p);
      assert CallsFor(pat, p) == CallsInAlts(pat.alts, Nil, pat, Top, x, p);
    }
    NoCallsBetween(pat, 0, x);
    FlatSpan(pat, b, x, x + BranchSize(b));
    NoCallsBetween(pat, x + BranchSize(b), NodeSize(pat));
  }
}
