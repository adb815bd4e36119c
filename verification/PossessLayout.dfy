/** The possessive rewriting seen in the code: which unit changes, where the repeats are, and what
    stands after each of them. */
module PossessLayout {
  import opened Opcodes
  import opened Regex
  import opened Layout
  import opened Walk
  import opened PossessRule
  import opened PossessRewrite
  import opened PossessCalls

  // --- the rewriting keeps sizes -----------------------------------

  lemma {:induction false} NodePossessSize(n: Node, x: nat, d: set<nat>)
    ensures NodeSize(PossessNode(n, x, d)) == NodeSize(n)
    ensures OkNode(n) ==> OkNode(PossessNode(n, x, d))
    decreases n
  {
    match n
    case Group(bra, _, alts, _) => AltsPossessSize(alts, x + BraSize(bra), d);
    case Optional(_, g) => NodePossessSize(g, x + 1, d);
    case _ =>
  }

  lemma {:induction false} AltsPossessSize(a: Alts, x: nat, d: set<nat>)
    ensures AltsSize(PossessAlts(a, x, d)) == AltsSize(a)
    ensures BranchSize(PossessAlts(a, x, d).branch) == BranchSize(a.branch)
    ensures OkAlts(a) ==> OkAlts(PossessAlts(a, x, d))
    decreases a
  {
    BranchPossessSize(a.branch, x, d);
    if a.Or? { AltsPossessSize(a.more, x + BranchSize(a.branch) + 1 + LINK_SIZE, d); }
  }

  lemma {:induction false} BranchPossessSize(b: Branch, x: nat, d: set<nat>)
    ensures BranchSize(PossessBranch(b, x, d)) == BranchSize(b)
    ensures OkBranch(b) ==> OkBranch(PossessBranch(b, x, d))
    decreases b
  {
    if b.Cons? {
      NodePossessSize(b.head, x, d);
      BranchPossessSize(b.tail, x + NodeSize(b.head), d);
    }
  }

  // --- one unit of the code changes -----------------------------------------------

  /** The unit that holds the repeat opcode of the item at p. */
  function RepeatUnit(code: seq<Cell>, p: nat): nat
    requires p < |code|
  {
    if code[p].WithMap? then p + 1 + CLASS_SIZE else p
  }

  /** The repeat opcode, moved to the OP_STAR block unless it belongs to a class. */
  function Normal(c: int): int { if IsRepeat(c) then c - RepeatBase(c) + OP_STAR else c }

  /** The possessive repeat: only the opcode changes, its operands stay. */
  function Possessed(u: Cell): Cell
    requires IsOpenOp(Normal(OpOf(u)))
  {
    u.(op := u.op + PossessiveOp(Normal(u.op)) - Normal(u.op))
  }

  /** Whether the opcode at p starts a repeat that could become possessive. */
  predicate OpenCode(code: seq<Cell>, p: nat)
    requires p < |code|
  {
    var u := RepeatUnit(code, p);
    if u == p then IsRepeat(OpOf(code[p])) && Normal(OpOf(code[p])) <= OP_MINUPTO
    else u < |code| && OP_CRSTAR <= OpOf(code[u]) <= OP_CRMINRANGE
  }

  /** The unit at offset i once the repeats at the offsets of d have been overwritten. */
  function NewUnit(code: seq<Cell>, i: nat, d: set<nat>): Cell
    requires i < |code|
  {
    var u := code[i];
    var c := OpOf(u);
    var mine := if IsClassRepeat(c) then i > CLASS_SIZE && i - 1 - CLASS_SIZE in d && code[i - 1 - CLASS_SIZE].WithMap?
                else !u.WithMap? && i in d;
    if mine && IsOpenOp(Normal(c)) then Possessed(u) else u
  }

  predicate Rewritten(code: seq<Cell>, code': seq<Cell>, d: set<nat>) {
    |code'| == |code| && forall i: nat {:trigger NewUnit(code, i, d)} :: i < |code| ==> code'[i] == NewUnit(code, i, d)
  }

  /** Overwriting one more opcode. */
  lemma RewriteOne(code: seq<Cell>, code': seq<Cell>, p: nat, d: set<nat>)
    requires Rewritten(code, code', d) && p < |code| && p !in d && OpenCode(code, p)
    ensures var u := RepeatUnit(code, p);
            OpOf(code'[u]) == OpOf(code[u]) && Rewritten(code, code'[u := Possessed(code[u])], d + {p})
  {
    var u := RepeatUnit(code, p);
    var code'' := code'[u := Possessed(code[u])];
    assert code'[u] == NewUnit(code, u, d);
    forall i: nat {:trigger NewUnit(code, i, d + {p})} | i < |code| ensures code''[i] == NewUnit(code, i, d + {p}) {
      assert code'[i] == NewUnit(code, i, d);
    }
  }

  lemma RepeatRewritten(it: Item, r: Rep)
    requires OkItem(it) && OkRep(it, r) && IsOpenOp(r.op)
    ensures IsOpenOp(Normal(OpOf(RepeatCell(it, r))))
    ensures Possessed(RepeatCell(it, r)) == RepeatCell(it, r.(op := PossessiveOp(r.op)))
  {
  }

  /** The opcodes of brackets, single items and assertions stay. */
  lemma FixedUnit(code: seq<Cell>, code': seq<Cell>, i: nat, d: set<nat>)
    requires Rewritten(code, code', d) && i < |code| && !IsOpenOp(Normal(OpOf(code[i])))
    ensures code'[i] == code[i]
  {
    assert code'[i] == NewUnit(code, i, d);
  }

  lemma LeafRewritten(code: seq<Cell>, code': seq<Cell>, it: Item, r: Rep, x: nat, d: set<nat>)
    requires LaidNode(code, x, Repeat(it, r)) && OkItem(it) && OkRep(it, r) && Rewritten(code, code', d)
    ensures LaidNode(code', x, PossessNode(Repeat(it, r), x, d))
  {
    var u := if it.Set? then x + 1 + CLASS_SIZE else x;
    assert code'[u] == NewUnit(code, u, d);
    if it.Set? { FixedUnit(code, code', x, d); }
    if IsOpenOp(r.op) { RepeatRewritten(it, r); }
  }

  lemma BracketsRewritten(code: seq<Cell>, code': seq<Cell>, n: Node, x: nat, d: set<nat>)
    requires n.Group? && LaidNode(code, x, n) && OkNode(n) && Rewritten(code, code', d)
    ensures code'[x] == code[x]
    ensures var k := x + BraSize(n.bra) + AltsSize(n.alts); k < |code| && code'[k] == code[k]
  {
    FixedUnit(code, code', x, d);
    FixedUnit(code, code', x + BraSize(n.bra) + AltsSize(n.alts), d);
  }

  /** A group whose alternatives change, but neither their sizes nor the brackets. */
  lemma GroupLaid(code: seq<Cell>, code': seq<Cell>, n: Node, alts: Alts, x: nat)
    requires n.Group? && LaidNode(code, x, n) && OkNode(n) && |code'| == |code|
    requires AltsSize(alts) == AltsSize(n.alts) && BranchSize(alts.branch) == BranchSize(n.alts.branch)
    requires LaidAlts(code', x + BraSize(n.bra), alts)
    requires code'[x] == code[x]
    requires var k := x + BraSize(n.bra) + AltsSize(n.alts); code'[k] == code[k]
    ensures LaidNode(code', x, n.(alts := alts))
  {
    var k := GroupOpen(code, x, n);
    GroupFold(code', x, k, n.bra, n.number, alts, n.ket);
  }

  lemma {:induction false} GroupRewritten(code: seq<Cell>, code': seq<Cell>, n: Node, x: nat, d: set<nat>)
    requires n.Group? && LaidNode(code, x, n) && OkNode(n) && Rewritten(code, code', d)
    ensures LaidNode(code', x, PossessNode(n, x, d))
    decreases n, 0
  {
    var y := x + BraSize(n.bra);
    AltsPossessSize(n.alts, y, d);
    AltsRewritten(code, code', n.alts, y, d);
    BracketsRewritten(code, code', n, x, d);
    GroupLaid(code, code', n, PossessAlts(n.alts, y, d), x);
  }

  /** The overwritten code is the code of the rewritten pattern. */
  lemma {:induction false} NodeRewritten(code: seq<Cell>, code': seq<Cell>, n: Node, x: nat, d: set<nat>)
    requires LaidNode(code, x, n) && OkNode(n) && Rewritten(code, code', d)
    ensures LaidNode(code', x, PossessNode(n, x, d))
    decreases n, 1
  {
    match n
    case Single(it) => FixedUnit(code, code', x, d);
    case Assert(op) => FixedUnit(code, code', x, d);
    case Repeat(it, r) => LeafRewritten(code, code', it, r, x, d);
    case Optional(_, g) =>
      NodePossessSize(g, x + 1, d);
      FixedUnit(code, code', x, d);
      NodeRewritten(code, code', g, x + 1, d);
    case Group(_, _, _, _) => GroupRewritten(code, code', n, x, d);
  }

  lemma {:induction false} AltsRewritten(code: seq<Cell>, code': seq<Cell>, a: Alts, x: nat, d: set<nat>)
    requires LaidAlts(code, x, a) && OkAlts(a) && Rewritten(code, code', d)
    ensures LaidAlts(code', x, PossessAlts(a, x, d))
    decreases a
  {
    var end := x + BranchSize(a.branch);
    AltsPossessSize(a, x, d);
    BranchRewritten(code, code', a.branch, x, d);
    if a.Or? {
      AltsPossessSize(a.more, end + 1 + LINK_SIZE, d);
      AltsRewritten(code, code', a.more, end + 1 + LINK_SIZE, d);
      FixedUnit(code, code', end, d);
    }
  }

  lemma {:induction false} BranchRewritten(code: seq<Cell>, code': seq<Cell>, b: Branch, x: nat, d: set<nat>)
    requires LaidBranch(code, x, b) && OkBranch(b) && Rewritten(code, code', d)
    ensures LaidBranch(code', x, PossessBranch(b, x, d))
    decreases b
  {
    BranchPossessSize(b, x, d);
    if b.Cons? {
      NodePossessSize(b.head, x, d);
      NodeRewritten(code, code', b.head, x, d);
      BranchRewritten(code, code', b.tail, x + NodeSize(b.head), d);
    }
  }

  // --- what stands after a repeat -----------------------------------------------------

  /** At offset p there is an open repeat of an item; q is the rest of its branch, in context z. */
  predicate IsSpot(code: seq<Cell>, p: nat, it: Item, r: Rep, q: Branch, z: Ctx) {
    && IsOpenOp(r.op)
    && OkNode(Repeat(it, r))
    && LaidNode(code, p, Repeat(it, r))
    && Standing(code, p + NodeSize(Repeat(it, r)), q, z)
  }

  lemma {:induction false} NodeLocate(code: seq<Cell>, n: Node, t: Branch, c: Ctx, x: nat, p: nat)
      returns (it: Item, r: Rep, q: Branch, z: Ctx)
    requires LaidNode(code, x, n) && OkNode(n) && OpenInNode(n, x, p) && Standing(code, x + NodeSize(n), t, c)
    ensures IsSpot(code, p, it, r, q, z) && VerdictInNode(n, t, c, x, p) == Follow(BaseOf(it, r), q, z)
    ensures CallsInNode(n, t, c, x, p) == 1 + Used(BaseOf(it, r), q, z)
    decreases n
  {
    match n
    case Repeat(i, rep) => it, r, q, z := i, rep, t, c;
    case Optional(_, g) => it, r, q, z := NodeLocate(code, g, t, c, x + 1, p);
    case Group(bra, _, alts, _) =>
      var ket := GroupKet(code, x, n, t, c, None);
      it, r, q, z := AltsLocate(code, alts, t, n, c, x + BraSize(bra), ket, p);
  }

  lemma {:induction false} AltsLocate(code: seq<Cell>, a: Alts, t: Branch, g: Node, c: Ctx, x: nat, ket: nat, p: nat)
      returns (it: Item, r: Rep, q: Branch, z: Ctx)
    requires LaidAlts(code, x, a) && OkAlts(a) && OpenInAlts(a, x, p)
    requires ket == x + AltsSize(a) && KetLaid(code, ket, In(None, t, g, c))
    ensures IsSpot(code, p, it, r, q, z) && VerdictInAlts(a, t, g, c, x, p) == Follow(BaseOf(it, r), q, z)
    ensures CallsInAlts(a, t, g, c, x, p) == 1 + Used(BaseOf(it, r), q, z)
    decreases a
  {
    if OpenInBranch(a.branch, x, p) {
      KetOther(code, ket, In(None, t, g, c), Later(a));
      AltsStanding(code, x, ket, a, t, g, c);
      it, r, q, z := BranchLocate(code, a.branch, In(Later(a), t, g, c), x, p);
    } else {
      var k, next := FirstAlt(code, x, a);
      it, r, q, z := AltsLocate(code, a.more, t, g, c, next, ket, p);
    }
  }

  lemma {:induction false} BranchLocate(code: seq<Cell>, b: Branch, c: Ctx, x: nat, p: nat)
      returns (it: Item, r: Rep, q: Branch, z: Ctx)
    requires Standing(code, x, b, c) && OpenInBranch(b, x, p)
    ensures IsSpot(code, p, it, r, q, z) && VerdictInBranch(b, c, x, p) == Follow(BaseOf(it, r), q, z)
    ensures CallsInBranch(b, c, x, p) == 1 + Used(BaseOf(it, r), q, z)
    decreases b
  {
    StandingTail(code, x, b, c);
    if OpenInNode(b.head, x, p) { it, r, q, z := NodeLocate(code, b.head, b.tail, c, x, p); }
    else { it, r, q, z := BranchLocate(code, b.tail, c, x + NodeSize(b.head), p); }
  }

  // --- an opcode of the code is an open repeat exactly when the pattern has one there ---

  lemma {:induction false} NodeOpenIff(code: seq<Cell>, n: Node, x: nat, p: nat)
    requires LaidNode(code, x, n) && OkNode(n) && StopInNode(n, x, p) && NoClassRepeat(code, x + NodeSize(n))
    ensures x <= p < |code| && (OpenInNode(n, x, p) <==> OpenCode(code, p))
    decreases n
  {
    NodeStopSpan(n, x, p);
    match n
    case Group(bra, _, alts, _) =>
      AltsOpenSpan(alts, x + BraSize(bra), p);
      var k := GroupOpen(code, x, n);
      if p != x { AltsOpenIff(code, alts, x + BraSize(bra), k, p); }
    case Optional(_, g) =>
      NodeOpenSpan(g, x + 1, p);
      if p != x { NodeOpenIff(code, g, x + 1, p); }
    case _ =>
  }

  lemma {:induction false} AltsOpenIff(code: seq<Cell>, a: Alts, x: nat, ket: nat, p: nat)
    requires LaidAlts(code, x, a) && OkAlts(a) && StopInAlts(a, x, p)
    requires ket == x + AltsSize(a) && code[ket].WithLink? && IsKet(OpOf(code[ket]))
    ensures x <= p < |code| && (OpenInAlts(a, x, p) <==> OpenCode(code, p))
    decreases a
  {
    BranchOpenSpan(a.branch, x, p);
    BranchStopSpan(a.branch, x, p);
    if a.Last? {
      LastOpenIff(code, a.branch, x, ket, p);
    } else {
      var k, next := FirstAlt(code, x, a);
      AltsOpenSpan(a.more, next, p);
      if StopInBranch(a.branch, x, p) || p == k {
        LastOpenIff(code, a.branch, x, k, p);
      } else {
        AltsStopSpan(a.more, next, p);
        AltsOpenIff(code, a.more, next, ket, p);
      }
    }
  }

  lemma {:induction false} LastOpenIff(code: seq<Cell>, b: Branch, x: nat, end: nat, p: nat)
    requires LaidBranch(code, x, b) && OkBranch(b) && (StopInBranch(b, x, p) || p == end) && end == x + BranchSize(b)
    requires end < |code| && code[end].WithLink? && (IsKet(OpOf(code[end])) || OpOf(code[end]) == OP_ALT)
    ensures x <= p <= end && (OpenInBranch(b, x, p) <==> OpenCode(code, p))
    decreases b, 1
  {
    BranchOpenSpan(b, x, p);
    BranchStopSpan(b, x, p);
    if StopInBranch(b, x, p) { BranchOpenIff(code, b, x, end, p); }
  }

  lemma {:induction false} BranchOpenIff(code: seq<Cell>, b: Branch, x: nat, end: nat, p: nat)
    requires LaidBranch(code, x, b) && OkBranch(b) && StopInBranch(b, x, p) && end == x + BranchSize(b)
             && NoClassRepeat(code, end)
    ensures x <= p < |code| && (OpenInBranch(b, x, p) <==> OpenCode(code, p))
    decreases b, 0
  {
    var x' := x + NodeSize(b.head);
    if b.tail.Cons? { NodeHead(code, x', b.tail.head); }
    NodeOpenSpan(b.head, x, p);
    BranchOpenSpan(b.tail, x', p);
    if StopInNode(b.head, x, p) {
      NodeStopSpan(b.head, x, p);
      NodeOpenIff(code, b.head, x, p);
    } else {
      BranchStopSpan(b.tail, x', p);
      BranchOpenIff(code, b.tail, x', end, p);
    }
  }

  /** A repeat starts where an opcode starts. */
  lemma {:induction false} NodeOpenStop(n: Node, x: nat, p: nat)
    ensures OpenInNode(n, x, p) ==> StopInNode(n, x, p)
    decreases n
  {
    match n
    case Group(bra, _, alts, _) => AltsOpenStop(alts, x + BraSize(bra), p);
    case Optional(_, g) => NodeOpenStop(g, x + 1, p);
    case _ =>
  }

  lemma {:induction false} AltsOpenStop(a: Alts, x: nat, p: nat)
    ensures OpenInAlts(a, x, p) ==> StopInAlts(a, x, p)
    decreases a
  {
    BranchOpenStop(a.branch, x, p);
    if a.Or? { AltsOpenStop(a.more, x + BranchSize(a.branch) + 1 + LINK_SIZE, p); }
  }

  lemma {:induction false} BranchOpenStop(b: Branch, x: nat, p: nat)
    ensures OpenInBranch(b, x, p) ==> StopInBranch(b, x, p)
    decreases b
  {
    if b.Cons? {
      NodeOpenStop(b.head, x, p);
      BranchOpenStop(b.tail, x + NodeSize(b.head), p);
    }
  }

  /** One step of a scan from opcode to opcode: what is known about the opcode at p, and that the scan does
      not pass over a repeat. */
  lemma ScanStep(code: seq<Cell>, pat: Node, p: nat)
    requires Compiled(code, pat) && StopInNode(pat, 0, p)
    ensures p < NodeSize(pat) && IsItemUnit(code[p])
    ensures OpenInNode(pat, 0, p) <==> OpenCode(code, p)
    ensures var q := p + OpLength(OpOf(code[p]));
            && (StopInNode(pat, 0, q) || q == NodeSize(pat))
            && q <= NodeSize(pat)
            && forall d: nat :: OpenInNode(pat, 0, d) && d < q ==> d <= p
  {
    NodeStep(code, pat, 0, p);
    NodeOpenIff(code, pat, 0, p);
    NodeStopSpan(pat, 0, p + OpLength(OpOf(code[p])));
    forall d: nat | OpenInNode(pat, 0, d) && p < d ensures p + OpLength(OpOf(code[p])) <= d {
      NodeOpenStop(pat, 0, d);
      NodeGap(code, pat, 0, p, d);
    }
  }
}
