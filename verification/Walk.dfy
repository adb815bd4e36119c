/** Linear walks over the code: where opcodes start, and how the fixed length of each opcode leads
    to the next one. */
module Walk {
  import opened Opcodes
  import opened Regex
  import opened Layout

  /** An opcode starts at offset p of the node laid at x. */
  predicate StopInNode(n: Node, x: nat, p: nat) {
    p == x ||
    match n
    case Repeat(it, _) => it.Set? && p == x + 1 + CLASS_SIZE
    case Group(bra, _, alts, _) => StopInAlts(alts, x + BraSize(bra), p)
    case Optional(_, g) => StopInNode(g, x + 1, p)
    case _ => false
  }

  predicate StopInAlts(a: Alts, x: nat, p: nat) {
    var end := x + BranchSize(a.branch);
    StopInBranch(a.branch, x, p) || p == end || (a.Or? && StopInAlts(a.more, end + 1 + LINK_SIZE, p))
  }

  predicate StopInBranch(b: Branch, x: nat, p: nat) {
    b.Cons? && (StopInNode(b.head, x, p) || StopInBranch(b.tail, x + NodeSize(b.head), p))
  }

  lemma {:induction false} NodeStopSpan(n: Node, x: nat, p: nat)
    ensures StopInNode(n, x, p) ==> x <= p < x + NodeSize(n)
    decreases n
  {
    match n
    case Group(bra, _, alts, _) => AltsStopSpan(alts, x + BraSize(bra), p);
    case Optional(_, g) => NodeStopSpan(g, x + 1, p);
    case _ =>
  }

  lemma {:induction false} AltsStopSpan(a: Alts, x: nat, p: nat)
    ensures StopInAlts(a, x, p) ==> x <= p <= x + AltsSize(a)
    decreases a
  {
    BranchStopSpan(a.branch, x, p);
    if a.Or? { AltsStopSpan(a.more, x + BranchSize(a.branch) + 1 + LINK_SIZE, p); }
  }

  lemma {:induction false} BranchStopSpan(b: Branch, x: nat, p: nat)
    ensures StopInBranch(b, x, p) ==> x <= p < x + BranchSize(b)
    decreases b
  {
    if b.Cons? {
      NodeStopSpan(b.head, x, p);
      BranchStopSpan(b.tail, x + NodeSize(b.head), p);
    }
  }

  /** A unit with the opcode of an item or a bracket; only classes carry a bit map. */
  predicate IsItemUnit(u: Cell) {
    IsOpcode(u) && OpOf(u) != OP_END && (u.WithMap? <==> OpOf(u) == OP_CLASS || OpOf(u) == OP_NCLASS)
  }

  lemma LeafStep(code: seq<Cell>, n: Node, x: nat, p: nat)
    requires (n.Single? || n.Repeat? || n.Assert?) && LaidNode(code, x, n) && OkNode(n) && StopInNode(n, x, p)
    ensures p < x + NodeSize(n) && IsItemUnit(code[p])
    ensures var q := p + OpLength(OpOf(code[p])); StopInNode(n, x, q) || q == x + NodeSize(n)
  {
  }

  /** Adding the length of the opcode leads from one opcode to the next. */
  lemma {:induction false} NodeStep(code: seq<Cell>, n: Node, x: nat, p: nat)
    requires LaidNode(code, x, n) && OkNode(n) && StopInNode(n, x, p)
    ensures p < x + NodeSize(n) && IsItemUnit(code[p])
    ensures var q := p + OpLength(OpOf(code[p])); StopInNode(n, x, q) || q == x + NodeSize(n)
    decreases n
  {
    NodeStopSpan(n, x, p);
    match n
    case Group(bra, _, alts, _) =>
      AltsFirst(alts, x + BraSize(bra));
      if p != x { AltsStep(code, alts, x + BraSize(bra), p); }
    case Optional(_, g) =>
      if p == x { assert StopInNode(g, x + 1, x + 1); } else { NodeStep(code, g, x + 1, p); }
    case _ => LeafStep(code, n, x, p);
  }

  lemma AltsFirst(a: Alts, x: nat)
    ensures StopInAlts(a, x, x)
  {
  }

  lemma {:induction false} AltsStep(code: seq<Cell>, a: Alts, x: nat, p: nat)
    requires LaidAlts(code, x, a) && OkAlts(a) && StopInAlts(a, x, p)
    requires code[x + AltsSize(a)].WithLink? && IsKet(OpOf(code[x + AltsSize(a)]))
    ensures p <= x + AltsSize(a) < |code| && IsItemUnit(code[p])
    ensures var q := p + OpLength(OpOf(code[p]));
            StopInAlts(a, x, q) || q == x + AltsSize(a) + 1 + LINK_SIZE
    decreases a
  {
    var end := x + BranchSize(a.branch);
    if StopInBranch(a.branch, x, p) {
      BranchStep(code, a.branch, x, p);
    } else if p != end {
      AltsStep(code, a.more, end + 1 + LINK_SIZE, p);
    } else if a.Or? {
      AltsFirst(a.more, end + 1 + LINK_SIZE);
    }
  }

  lemma {:induction false} BranchStep(code: seq<Cell>, b: Branch, x: nat, p: nat)
    requires LaidBranch(code, x, b) && OkBranch(b) && StopInBranch(b, x, p)
    ensures p < x + BranchSize(b) && IsItemUnit(code[p])
    ensures var q := p + OpLength(OpOf(code[p])); StopInBranch(b, x, q) || q == x + BranchSize(b)
    decreases b
  {
    var x' := x + NodeSize(b.head);
    if StopInNode(b.head, x, p) {
      NodeStep(code, b.head, x, p);
      if b.tail.Cons? { assert StopInNode(b.tail.head, x', x'); }
    } else {
      BranchStep(code, b.tail, x', p);
    }
  }

  // --- no opcode starts inside another ------------------------------------------------

  lemma LeafGap(code: seq<Cell>, n: Node, x: nat, p: nat, d: nat)
    requires (n.Single? || n.Repeat? || n.Assert?) && LaidNode(code, x, n) && OkNode(n)
    requires StopInNode(n, x, p) && StopInNode(n, x, d) && p < d
    ensures p + OpLength(OpOf(code[p])) <= d
  {
  }

  lemma {:induction false} NodeGap(code: seq<Cell>, n: Node, x: nat, p: nat, d: nat)
    requires LaidNode(code, x, n) && OkNode(n) && StopInNode(n, x, p) && StopInNode(n, x, d) && p < d
    ensures p < |code| && p + OpLength(OpOf(code[p])) <= d
    decreases n
  {
    NodeStopSpan(n, x, p);
    NodeStopSpan(n, x, d);
    match n
    case Group(bra, _, alts, _) =>
      AltsStopSpan(alts, x + BraSize(bra), d);
      AltsStopSpan(alts, x + BraSize(bra), p);
      if p != x { AltsGap(code, alts, x + BraSize(bra), p, d); }
    case Optional(_, g) =>
      NodeStopSpan(g, x + 1, p);
      if p != x { NodeGap(code, g, x + 1, p, d); }
    case _ => LeafGap(code, n, x, p, d);
  }

  lemma {:induction false} AltsGap(code: seq<Cell>, a: Alts, x: nat, p: nat, d: nat)
    requires LaidAlts(code, x, a) && OkAlts(a) && StopInAlts(a, x, p) && StopInAlts(a, x, d) && p < d
    ensures p < |code| && p + OpLength(OpOf(code[p])) <= d
    decreases a
  {
    var end := x + BranchSize(a.branch);
    AltsStopSpan(a, x, d);
    BranchStopSpan(a.branch, x, d);
    if a.Or? { AltsStopSpan(a.more, end + 1 + LINK_SIZE, d); AltsStopSpan(a.more, end + 1 + LINK_SIZE, p); }
    if StopInBranch(a.branch, x, p) {
      if StopInBranch(a.branch, x, d) { BranchGap(code, a.branch, x, p, d); }
      else { BranchStep(code, a.branch, x, p); BranchStopSpan(a.branch, x, p + OpLength(OpOf(code[p]))); }
    } else if p != end {
      AltsGap(code, a.more, end + 1 + LINK_SIZE, p, d);
    }
  }

  lemma {:induction false} BranchGap(code: seq<Cell>, b: Branch, x: nat, p: nat, d: nat)
    requires LaidBranch(code, x, b) && OkBranch(b) && StopInBranch(b, x, p) && StopInBranch(b, x, d) && p < d
    ensures p < |code| && p + OpLength(OpOf(code[p])) <= d
    decreases b
  {
    var x' := x + NodeSize(b.head);
    NodeStopSpan(b.head, x, p);
    NodeStopSpan(b.head, x, d);
    BranchStopSpan(b.tail, x', p);
    BranchStopSpan(b.tail, x', d);
    if StopInNode(b.head, x, p) {
      if StopInNode(b.head, x, d) { NodeGap(code, b.head, x, p, d); }
      else { NodeStep(code, b.head, x, p); NodeStopSpan(b.head, x, p + OpLength(OpOf(code[p]))); }
    } else {
      BranchGap(code, b.tail, x', p, d);
    }
  }
}
