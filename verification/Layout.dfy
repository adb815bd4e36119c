/** How a pattern lies in the compiled code: a flat vector of units in which BRA, ALT and KET
    carry links to one another. */
module Layout {
  import opened Folding
  import opened Opcodes
  import opened Regex

  /** A unit of the compiled code. An opcode is kept together with its operands, which the units
      after it make room for: `Operand` units, as many as the opcode's length says. */
  datatype Cell =
    | Plain(op: int)
    | WithChar(op: int, arg: int)
    | WithCount(op: int, n: nat, arg: int)
    | WithRange(op: int, m: nat, n: nat)
    | WithMap(op: int, bits: Bitmap)
    | WithLink(op: int, link: int)
    | WithCapture(op: int, link: int, num: nat)
    | Operand

  /** The opcode at the start of an item. */
  function OpOf(u: Cell): int { if u.Operand? then -1 else u.op }

  /** The unit with its opcode overwritten. */
  function WithOp(u: Cell, op: int): Cell { if u.Operand? then u else u.(op := op) }

  /** The link of a bracket or of an ALT. */
  function Link(u: Cell): int { if u.WithLink? || u.WithCapture? then u.link else 0 }

  function ItemSize(it: Item): nat {
    match it
    case Lit(_, _) => 2
    case Type(_) => 1
    case Set(_, _) => 1 + CLASS_SIZE
  }

  function BraSize(bra: int): nat { if IsCapture(bra) then 1 + LINK_SIZE + IMM2_SIZE else 1 + LINK_SIZE }

  /** The size of a repeat; for a class, of the repeat that follows it. */
  function RepSize(it: Item, r: Rep): nat {
    if it.Set? then (if IsRange(r.op) then 1 + 2 * IMM2_SIZE else 1)
    else if HasCount(r.op) then 2 + IMM2_SIZE
    else 2
  }

  function NodeSize(n: Node): (size: nat)
    ensures size > 0
  {
    match n
    case Single(it) => ItemSize(it)
    case Repeat(it, r) => if it.Set? then 1 + CLASS_SIZE + RepSize(it, r) else RepSize(it, r)
    case Assert(_) => 1
    case Group(bra, _, alts, _) => BraSize(bra) + AltsSize(alts) + 1 + LINK_SIZE
    case Optional(_, g) => 1 + NodeSize(g)
  }

  function AltsSize(a: Alts): nat {
    BranchSize(a.branch) + (if a.Or? then 1 + LINK_SIZE + AltsSize(a.more) else 0)
  }

  function BranchSize(b: Branch): nat {
    if b.Nil? then 0 else NodeSize(b.head) + BranchSize(b.tail)
  }

  /** The opcode that starts the thirteen repeats of an item. */
  function BlockOf(it: Item): int {
    match it
    case Lit(op, _) =>
      if op == OP_CHAR then OP_STAR else if op == OP_CHARI then OP_STARI
      else if op == OP_NOT then OP_NOTSTAR else OP_NOTSTARI
    case Type(_) => OP_TYPESTAR
    case Set(op, _) => op
  }

  /** The operand of a repeat opcode: the character or the type opcode. */
  function OperandOf(it: Item): int { if it.Lit? then it.c else it.op }

  function ItemCell(it: Item): Cell {
    match it
    case Lit(op, c) => WithChar(op, c)
    case Type(op) => Plain(op)
    case Set(op, bits) => WithMap(op, bits)
  }

  /** The opcode of a repeat: for a class, the one that follows the class. */
  function RepeatCell(it: Item, r: Rep): Cell {
    if it.Set? then (if IsRange(r.op) then WithRange(r.op, r.m, r.n) else Plain(r.op))
    else
      var op := BlockOf(it) + r.op - OP_STAR;
      if HasCount(r.op) then WithCount(op, r.n, OperandOf(it)) else WithChar(op, OperandOf(it))
  }

  function BraCell(bra: int, num: nat, link: int): Cell {
    if IsCapture(bra) then WithCapture(bra, link, num) else WithLink(bra, link)
  }

  /** Node n is laid out in the code from offset p. */
  predicate LaidNode(code: seq<Cell>, p: nat, n: Node)
    decreases n
  {
    && p + NodeSize(n) <= |code|
    && match n
       case Single(it) => code[p] == ItemCell(it)
       case Repeat(it, r) =>
         if it.Set? then code[p] == ItemCell(it) && code[p + 1 + CLASS_SIZE] == RepeatCell(it, r)
         else code[p] == RepeatCell(it, r)
       case Assert(op) => code[p] == Plain(op)
       case Group(bra, num, alts, ket) =>
         && code[p] == BraCell(bra, num, BranchSize(alts.branch) + BraSize(bra))
         && LaidAlts(code, p + BraSize(bra), alts)
         && code[p + BraSize(bra) + AltsSize(alts)] == WithLink(ket, BraSize(bra) + AltsSize(alts))
       case Optional(op, g) => code[p] == Plain(op) && LaidNode(code, p + 1, g)
  }

  /** Alternatives from offset p up to the closing bracket. The link of each ALT leads to the next
      ALT, and that of the last one to the KET. */
  predicate LaidAlts(code: seq<Cell>, p: nat, a: Alts)
    decreases a
  {
    && p + AltsSize(a) < |code|
    && LaidBranch(code, p, a.branch)
    && (a.Or? ==>
          && code[p + BranchSize(a.branch)] == WithLink(OP_ALT, 1 + LINK_SIZE + BranchSize(a.more.branch))
          && LaidAlts(code, p + BranchSize(a.branch) + 1 + LINK_SIZE, a.more))
  }

  predicate LaidBranch(code: seq<Cell>, p: nat, b: Branch)
    decreases b
  {
    && p + BranchSize(b) <= |code|
    && (b.Cons? ==> LaidNode(code, p, b.head) && LaidBranch(code, p + NodeSize(b.head), b.tail))
  }

  /** A compiled pattern: one bracket that holds everything, then OP_END. */
  predicate Compiled(code: seq<Cell>, p: Node) {
    && p.Group? && p.bra == OP_BRA && p.ket == OP_KET && OkNode(p)
    && LaidNode(code, 0, p)
    && NodeSize(p) < |code|
    && code[NodeSize(p)] == Plain(OP_END)
  }

  /** Where a branch stands in the pattern: `later` are the alternatives after it in its bracket
      `group`, `rest` is what follows that bracket, and `up` is where the bracket itself stands. */
  datatype Ctx = Top | In(later: Option<Alts>, rest: Branch, group: Node, up: Ctx)

  /** At offset p a branch that stands in context c has ended. */
  predicate CtxLaid(code: seq<Cell>, p: nat, c: Ctx)
    decreases c, 1
  {
    if c.Top? then p < |code| && code[p] == Plain(OP_END)
    else if c.later.None? then KetLaid(code, p, c)
    else LaterLaid(code, p, c.later.value) && KetLaid(code, p + 1 + LINK_SIZE + AltsSize(c.later.value), c)
  }

  /** At offset p is an ALT with the alternatives after it. */
  predicate LaterLaid(code: seq<Cell>, p: nat, a: Alts) {
    && p < |code|
    && code[p] == WithLink(OP_ALT, 1 + LINK_SIZE + BranchSize(a.branch))
    && LaidAlts(code, p + 1 + LINK_SIZE, a)
    && OkAlts(a)
  }

  /** At offset p is the closing bracket of the context's group, and after it what follows the group. */
  predicate KetLaid(code: seq<Cell>, p: nat, c: Ctx)
    requires c.In?
    decreases c, 0
  {
    && p < |code|
    && c.group.Group? && OkNode(c.group)
    && code[p] == WithLink(c.group.ket, BraSize(c.group.bra) + AltsSize(c.group.alts))
    && LaidBranch(code, p + 1 + LINK_SIZE, c.rest)
    && OkBranch(c.rest)
    && CtxLaid(code, p + 1 + LINK_SIZE + BranchSize(c.rest), c.up)
  }

  /** A branch q starts at offset x and stands in context c. */
  predicate Standing(code: seq<Cell>, x: nat, q: Branch, c: Ctx) {
    LaidBranch(code, x, q) && OkBranch(q) && CtxLaid(code, x + BranchSize(q), c)
  }

  /** Standing, folded: proofs that only pass it on do not look inside. */
  ghost predicate Here(code: seq<Cell>, x: nat, q: Branch, c: Ctx) {
    forall k: int {:trigger Look(k)} :: Look(k) ==> Standing(code, x, q, c)
  }

  lemma Unfold(code: seq<Cell>, x: nat, q: Branch, c: Ctx)
    requires Here(code, x, q, c)
    ensures Standing(code, x, q, c)
  {
    assert Look(0);
  }

  lemma StandingTail(code: seq<Cell>, x: nat, q: Branch, c: Ctx)
    requires Standing(code, x, q, c) && q.Cons?
    ensures LaidNode(code, x, q.head) && OkNode(q.head) && Standing(code, x + NodeSize(q.head), q.tail, c)
  {
  }

  lemma KetFold(code: seq<Cell>, k: nat, next: nat, n: Node, t: Branch, c: Ctx, later: Option<Alts>)
    requires n.Group? && OkNode(n) && k < |code| && code[k] == WithLink(n.ket, BraSize(n.bra) + AltsSize(n.alts))
    requires next == k + 1 + LINK_SIZE && Standing(code, next, t, c)
    ensures KetLaid(code, k, In(later, t, n, c))
  {
  }

  lemma GroupOpen(code: seq<Cell>, x: nat, n: Node) returns (k: nat)
    requires n.Group? && LaidNode(code, x, n)
    ensures LaidAlts(code, x + BraSize(n.bra), n.alts)
    ensures x < |code| && code[x] == BraCell(n.bra, n.number, BranchSize(n.alts.branch) + BraSize(n.bra))
    ensures k == x + BraSize(n.bra) + AltsSize(n.alts) && k + 1 + LINK_SIZE == x + NodeSize(n)
            && x + NodeSize(n) <= |code|
    ensures code[k] == WithLink(n.ket, BraSize(n.bra) + AltsSize(n.alts))
  {
    k := x + BraSize(n.bra) + AltsSize(n.alts);
  }

  /** Inside a group: its first branch, where its closing bracket is, and what comes after it. */
  lemma GroupKet(code: seq<Cell>, x: nat, n: Node, t: Branch, c: Ctx, later: Option<Alts>) returns (k: nat)
    requires n.Group? && LaidNode(code, x, n) && OkNode(n) && Standing(code, x + NodeSize(n), t, c)
    ensures LaidAlts(code, x + BraSize(n.bra), n.alts) && OkAlts(n.alts)
    ensures k == x + BraSize(n.bra) + AltsSize(n.alts) && KetLaid(code, k, In(later, t, n, c))
  {
    var next := x + NodeSize(n);
    k := GroupOpen(code, x, n);
    KetFold(code, k, next, n, t, c, later);
  }

  /** The first branch of some alternatives ends at an ALT, and the others come after it. */
  lemma FirstAlt(code: seq<Cell>, x: nat, a: Alts) returns (k: nat, next: nat)
    requires LaidAlts(code, x, a) && a.Or?
    ensures k == x + BranchSize(a.branch) && next == k + 1 + LINK_SIZE && k < |code|
    ensures code[k] == WithLink(OP_ALT, 1 + LINK_SIZE + BranchSize(a.more.branch)) && LaidAlts(code, next, a.more)
    ensures next + AltsSize(a.more) == x + AltsSize(a)
  {
    k := x + BranchSize(a.branch);
    next := k + 1 + LINK_SIZE;
  }

  lemma AltsFold(code: seq<Cell>, x: nat, k: nat, next: nat, b: Branch, more: Alts)
    requires LaidBranch(code, x, b) && k == x + BranchSize(b) && next == k + 1 + LINK_SIZE && k < |code|
    requires code[k] == WithLink(OP_ALT, 1 + LINK_SIZE + BranchSize(more.branch)) && LaidAlts(code, next, more)
    ensures LaidAlts(code, x, Or(b, more)) && x + AltsSize(Or(b, more)) == next + AltsSize(more)
  {
  }

  lemma GroupFold(code: seq<Cell>, x: nat, k: nat, bra: int, num: nat, alts: Alts, ket: int)
    requires x < |code| && code[x] == BraCell(bra, num, BranchSize(alts.branch) + BraSize(bra))
             && LaidAlts(code, x + BraSize(bra), alts)
    requires k == x + BraSize(bra) + AltsSize(alts) && k + 1 + LINK_SIZE <= |code| && code[k] == WithLink(ket, k - x)
    ensures LaidNode(code, x, Group(bra, num, alts, ket))
            && k + 1 + LINK_SIZE == x + NodeSize(Group(bra, num, alts, ket))
  {
  }

  /** The first of some alternatives stands in the context of its bracket. */
  lemma AltsStanding(code: seq<Cell>, x: nat, ket: nat, a: Alts, t: Branch, g: Node, c: Ctx)
    requires LaidAlts(code, x, a) && OkAlts(a) && ket == x + AltsSize(a) && KetLaid(code, ket, In(Later(a), t, g, c))
    ensures Standing(code, x, a.branch, In(Later(a), t, g, c))
  {
    var z := In(Later(a), t, g, c);
    if a.Or? {
      var k, next := FirstAlt(code, x, a);
      LaterFold(code, k, next, ket, z);
    } else {
      assert ket == x + BranchSize(a.branch);
      NoneFold(code, ket, z);
    }
  }

  lemma LaterFold(code: seq<Cell>, k: nat, next: nat, ket: nat, c: Ctx)
    requires c.In? && c.later.Some? && OkAlts(c.later.value) && next == k + 1 + LINK_SIZE
    requires k < |code| && code[k] == WithLink(OP_ALT, 1 + LINK_SIZE + BranchSize(c.later.value.branch))
             && LaidAlts(code, next, c.later.value)
    requires ket == next + AltsSize(c.later.value) && KetLaid(code, ket, c)
    ensures CtxLaid(code, k, c)
  {
  }

  lemma NoneFold(code: seq<Cell>, k: nat, c: Ctx)
    requires c.In? && c.later.None? && KetLaid(code, k, c)
    ensures CtxLaid(code, k, c)
  {
  }

  lemma LaterOpen(code: seq<Cell>, k: nat, c: Ctx) returns (ket: nat)
    requires c.In? && c.later.Some? && CtxLaid(code, k, c)
    ensures LaterLaid(code, k, c.later.value) && ket == k + 1 + LINK_SIZE + AltsSize(c.later.value)
            && KetLaid(code, ket, c)
  {
    ket := k + 1 + LINK_SIZE + AltsSize(c.later.value);
  }

  lemma KetOther(code: seq<Cell>, k: nat, c: Ctx, later: Option<Alts>)
    requires c.In? && KetLaid(code, k, c)
    ensures KetLaid(code, k, c.(later := later))
  {
  }

  /** At the end of a branch that is not the last one of its bracket: the next one stands after the ALT. */
  lemma NextStanding(code: seq<Cell>, x: nat, c: Ctx)
    requires CtxLaid(code, x, c) && c.In? && c.later.Some?
    ensures var a := c.later.value;
            && x < |code| && code[x] == WithLink(OP_ALT, 1 + LINK_SIZE + BranchSize(a.branch))
            && OkAlts(a) && Standing(code, x + 1 + LINK_SIZE, a.branch, c.(later := Later(a)))
  {
    var a := c.later.value;
    var ket := LaterOpen(code, x, c);
    KetOther(code, ket, c, Later(a));
    AltsStanding(code, x + 1 + LINK_SIZE, ket, a, c.rest, c.group, c.up);
  }

  /** The first branch of a group. */
  lemma FirstStanding(code: seq<Cell>, x: nat, n: Node, t: Branch, c: Ctx)
    requires n.Group? && Standing(code, x, Cons(n, t), c)
    ensures x < |code| && code[x] == BraCell(n.bra, n.number, BranchSize(n.alts.branch) + BraSize(n.bra))
            && OkAlts(n.alts)
    ensures Standing(code, x + BraSize(n.bra), n.alts.branch, In(Later(n.alts), t, n, c))
    ensures Standing(code, x + NodeSize(n), t, c) && LaidNode(code, x, n) && OkNode(n)
  {
    StandingTail(code, x, Cons(n, t), c);
    var ket := GroupKet(code, x, n, t, c, Later(n.alts));
    AltsStanding(code, x + BraSize(n.bra), ket, n.alts, t, n, c);
  }

  function Later(a: Alts): Option<Alts> { if a.Or? then Some(a.more) else None }

  /** Two code vectors hold the same units from lo to hi. */
  predicate Agree(code: seq<Cell>, code': seq<Cell>, lo: int, hi: int) {
    |code'| == |code| && forall i :: 0 <= lo <= i < hi && i < |code| ==> code'[i] == code[i]
  }

  lemma {:induction false} NodeAgree(code: seq<Cell>, code': seq<Cell>, x: nat, n: Node)
    requires LaidNode(code, x, n) && Agree(code, code', x, x + NodeSize(n))
    ensures LaidNode(code', x, n)
    decreases n
  {
    match n
    case Optional(_, g) => NodeAgree(code, code', x + 1, g);
    case Group(_, _, _, _) => GroupAgree(code, code', x, n);
    case _ =>
  }

  lemma {:induction false} GroupAgree(code: seq<Cell>, code': seq<Cell>, x: nat, n: Node)
    requires n.Group? && LaidNode(code, x, n) && Agree(code, code', x, x + NodeSize(n))
    ensures LaidNode(code', x, n)
    decreases n, 0
  {
    var y := x + BraSize(n.bra);
    var k := GroupOpen(code, x, n);
    assert code'[x] == code[x] && code'[k] == code[k];
    AgreePart(code, code', x, x + NodeSize(n), y, k);
    AltsAgree(code, code', y, n.alts);
    GroupFold(code', x, k, n.bra, n.number, n.alts, n.ket);
  }

  lemma {:induction false} AltsAgree(code: seq<Cell>, code': seq<Cell>, x: nat, a: Alts)
    requires LaidAlts(code, x, a) && Agree(code, code', x, x + AltsSize(a))
    ensures LaidAlts(code', x, a)
    decreases a
  {
    BranchAgree(code, code', x, a.branch);
    if a.Or? {
      var k, next := FirstAlt(code, x, a);
      assert code'[k] == code[k];
      AltsAgree(code, code', next, a.more);
      AltsFold(code', x, k, next, a.branch, a.more);
    }
  }

  lemma {:induction false} BranchAgree(code: seq<Cell>, code': seq<Cell>, x: nat, b: Branch)
    requires LaidBranch(code, x, b) && Agree(code, code', x, x + BranchSize(b))
    ensures LaidBranch(code', x, b)
    decreases b
  {
    if b.Cons? {
      NodeAgree(code, code', x, b.head);
      BranchAgree(code, code', x + NodeSize(b.head), b.tail);
    }
  }

  lemma {:induction false} CtxAgree(code: seq<Cell>, code': seq<Cell>, x: nat, c: Ctx)
    requires CtxLaid(code, x, c) && Agree(code, code', x, |code|)
    ensures CtxLaid(code', x, c)
    decreases c, 1
  {
    if c.In? && c.later.Some? {
      LaterAgree(code, code', x, c.later.value);
      KetAgree(code, code', x + 1 + LINK_SIZE + AltsSize(c.later.value), c);
    } else if c.In? {
      KetAgree(code, code', x, c);
    }
  }

  lemma LaterAgree(code: seq<Cell>, code': seq<Cell>, x: nat, a: Alts)
    requires LaterLaid(code, x, a) && Agree(code, code', x, |code|)
    ensures LaterLaid(code', x, a)
  {
    var y := x + 1 + LINK_SIZE;
    AgreePart(code, code', x, |code|, y, y + AltsSize(a));
    AltsAgree(code, code', y, a);
  }

  lemma AgreePart(code: seq<Cell>, code': seq<Cell>, lo: nat, hi: nat, lo': nat, hi': nat)
    requires Agree(code, code', lo, hi) && lo <= lo' && (hi' <= hi || |code| <= hi)
    ensures Agree(code, code', lo', hi')
  {
  }

  lemma {:induction false} KetAgree(code: seq<Cell>, code': seq<Cell>, x: nat, c: Ctx)
    requires c.In? && KetLaid(code, x, c) && Agree(code, code', x, |code|)
    ensures KetLaid(code', x, c)
    decreases c, 0
  {
    var y := x + 1 + LINK_SIZE;
    BranchAgree(code, code', y, c.rest);
    CtxAgree(code, code', y + BranchSize(c.rest), c.up);
  }

  /** What stands at x depends only on the code from x on. */
  lemma StandingAgree(code: seq<Cell>, code': seq<Cell>, x: nat, q: Branch, c: Ctx)
    requires Standing(code, x, q, c) && Agree(code, code', x, |code|)
    ensures Standing(code', x, q, c)
  {
    BranchAgree(code, code', x, q);
    CtxAgree(code, code', x + BranchSize(q), c);
  }

  /** A repeat opcode says which item is repeated and how. */
  lemma RepeatOpcode(it: Item, r: Rep)
    requires OkItem(it) && OkRep(it, r) && !it.Set?
    ensures var u := RepeatCell(it, r); var op := OpOf(u);
            && IsRepeat(op) && RepeatBase(op) == BlockOf(it) && op - BlockOf(it) + OP_STAR == r.op
               && OpLength(op) == RepSize(it, r)
            && (u.WithChar? || u.WithCount?) && u.arg == OperandOf(it)
            && (HasCount(r.op) ==> u.WithCount? && u.n == r.n)
  {
  }

  predicate IsOpcode(u: Cell) { 0 <= OpOf(u) < OP_TABLE_LENGTH }

  /** The opcode at p is not the repeat of a class. */
  predicate NoClassRepeat(code: seq<Cell>, p: nat) { p < |code| && !IsClassRepeat(OpOf(code[p])) }

  /** Which kind of item an opcode starts. */
  predicate StartsNode(op: int, n: Node) {
    && op != OP_ALT && op != OP_END && !IsKet(op)
    && (IsBracket(op) <==> n.Group?)
    && (IsZero(op) <==> n.Optional?)
    && (IsRepeat(op) <==> n.Repeat? && !n.item.Set?)
    && (IsAssertion(op) <==> n.Assert?)
    && (op == OP_CLASS || op == OP_NCLASS <==> (n.Single? || n.Repeat?) && n.item.Set?)
    && (IsType(op) <==> n.Single? && n.item.Type?)
    && (OP_CHAR <= op <= OP_NOTI <==> n.Single? && n.item.Lit?)
    && (n.Group? ==> op == n.bra) && (n.Optional? ==> op == n.op)
  }

  lemma NodeClass(code: seq<Cell>, p: nat, n: Node)
    requires LaidNode(code, p, n) && OkNode(n)
    ensures StartsNode(OpOf(code[p]), n)
  {
  }

  /** What the first unit of an item or of the end of a branch can be. */
  lemma NodeHead(code: seq<Cell>, p: nat, n: Node)
    requires LaidNode(code, p, n) && OkNode(n)
    ensures IsOpcode(code[p]) && !IsClassRepeat(OpOf(code[p]))
  {
  }

  lemma CtxHead(code: seq<Cell>, p: nat, c: Ctx)
    requires CtxLaid(code, p, c)
    ensures p < |code| && IsOpcode(code[p]) && !IsClassRepeat(OpOf(code[p]))
  {
    if c.In? { assert IsKet(c.group.ket); }
  }

  lemma StandingHead(code: seq<Cell>, p: nat, q: Branch, c: Ctx)
    requires Standing(code, p, q, c)
    ensures p < |code| && IsOpcode(code[p]) && !IsClassRepeat(OpOf(code[p]))
  {
    if q.Cons? { NodeHead(code, p, q.head); } else { CtxHead(code, p, c); }
  }

  /** From the opening bracket of a group from link to link as long as there is an ALT: this ends at the closing
      bracket. */
  method SkipAlternatives(code: seq<Cell>, x: nat, ghost n: Node) returns (k: nat)
    requires n.Group? && OkNode(n) && LaidNode(code, x, n)
    ensures k == x + NodeSize(n) - 1 - LINK_SIZE && code[k] == WithLink(n.ket, k - x)
  {
    ghost var end: nat, rest, y: nat := x + BraSize(n.bra) + AltsSize(n.alts), n.alts, x + BraSize(n.bra);
    k := x + Link(code[x]);
    while OpOf(code[k]) == OP_ALT
      invariant LaidAlts(code, y, rest) && k == y + BranchSize(rest.branch) && y + AltsSize(rest) == end
      invariant k < |code| && (rest.Last? ==> k == end)
      decreases rest
    {
      ghost var z, next := FirstAlt(code, y, rest);
      k := k + Link(code[k]);
      y, rest := next, rest.more;
    }
    if rest.Or? { ghost var z, next := FirstAlt(code, y, rest); }
  }

  // --- what a scan of the code sees, in the folded form ------------------------

  lemma EndAt(code: seq<Cell>, x: nat, c: Ctx)
    requires CtxLaid(code, x, c) && c.In?
    ensures x < |code| && (if c.later.Some? then OpOf(code[x]) == OP_ALT else IsKet(OpOf(code[x])))
  {
    if c.later.Some? { NextStanding(code, x, c); } else { assert KetLaid(code, x, c); }
  }

  /** What the opcode at cc says about the rest of the branch. */
  lemma OpcodeAt(code: seq<Cell>, cc: nat, q: Branch, c: Ctx)
    requires Here(code, cc, q, c) && c.In?
    ensures cc < |code|
    ensures var op := OpOf(code[cc]);
            && (q.Nil? <==> op == OP_ALT || IsKet(op)) && (q.Nil? ==> (op == OP_ALT <==> c.later.Some?))
            && (IsBracket(op) <==> q.Cons? && q.head.Group?) && (IsZero(op) <==> q.Cons? && q.head.Optional?)
  {
    Unfold(code, cc, q, c);
    if q.Cons? {
      NodeClass(code, cc, q.head);
    } else {
      EndAt(code, cc, c);
    }
  }

  lemma BracketAt(code: seq<Cell>, x: nat, n: Node, t: Branch, c: Ctx)
    requires n.Group? && Here(code, x, Cons(n, t), c)
    ensures x < |code| && OpOf(code[x]) == n.bra && (IsCapture(n.bra) ==>
                                                       code[x].WithCapture? && code[x].num == n.number)
    ensures IsBracket(n.bra) && Link(code[x]) == BraSize(n.bra) + BranchSize(n.alts.branch)
    ensures Here(code, x + BraSize(n.bra), n.alts.branch, In(Later(n.alts), t, n, c))
  {
    Unfold(code, x, Cons(n, t), c);
    FirstStanding(code, x, n, t, c);
  }

  lemma NextHere(code: seq<Cell>, x: nat, c: Ctx)
    requires Here(code, x, Nil, c) && c.In? && c.later.Some?
    ensures var a := c.later.value;
            && x < |code| && Link(code[x]) == 1 + LINK_SIZE + BranchSize(a.branch)
            && Here(code, x + 1 + LINK_SIZE, a.branch, c.(later := Later(a)))
  {
    Unfold(code, x, Nil, c);
    NextStanding(code, x, c);
  }

  /** Past a group: along its links, and past the closing bracket. */
  method PastGroup(code: seq<Cell>, x: nat, ghost n: Node, ghost t: Branch, ghost c: Ctx) returns (next: nat)
    requires n.Group? && Here(code, x, Cons(n, t), c)
    ensures next == x + NodeSize(n) && Here(code, next, t, c)
  {
    Unfold(code, x, Cons(n, t), c);
    FirstStanding(code, x, n, t, c);
    next := SkipAlternatives(code, x, n);
    next := next + 1 + LINK_SIZE;
  }

  /** Past an optional group. */
  method PastOptional(code: seq<Cell>, x: nat, ghost q: Branch, ghost c: Ctx) returns (next: nat)
    requires q.Cons? && q.head.Optional? && Here(code, x, q, c)
    ensures next == x + NodeSize(q.head) && Here(code, next, q.tail, c)
  {
    Unfold(code, x, q, c);
    StandingTail(code, x, q, c);
    next := SkipAlternatives(code, x + 1, q.head.group);
    next := next + 1 + LINK_SIZE;
  }

  lemma ItemHere(code: seq<Cell>, cc: nat, q: Branch, c: Ctx)
    requires Here(code, cc, q, c) && q.Cons?
    ensures Here(code, cc + NodeSize(q.head), q.tail, c)
  {
    Unfold(code, cc, q, c);
    StandingTail(code, cc, q, c);
  }

  lemma OptionalHere(code: seq<Cell>, x: nat, q: Branch, c: Ctx)
    requires Here(code, x, q, c) && q.Cons? && q.head.Optional?
    ensures x < |code| && OpOf(code[x]) == q.head.op && q.head.group.Group?
            && Here(code, x + 1, Cons(q.head.group, q.tail), c)
  {
    Unfold(code, x, q, c);
    StandingTail(code, x, q, c);
  }

  lemma NilHere(code: seq<Cell>, k: nat, c: Ctx)
    requires CtxLaid(code, k, c)
    ensures Here(code, k, Nil, c)
  {
    assert LaidBranch(code, k, Nil) && BranchSize(Nil) == 0;
  }

  lemma StandingEnd(code: seq<Cell>, x: nat, q: Branch, c: Ctx) returns (k: nat)
    requires Here(code, x, q, c)
    ensures k == x + BranchSize(q) && CtxLaid(code, k, c)
  {
    assert Look(0);
    k := x + BranchSize(q);
  }

  lemma BranchEnd(code: seq<Cell>, x: nat, q: Branch, c: Ctx) returns (k: nat)
    requires Here(code, x, q, c) && c.In?
    ensures k == x + BranchSize(q) && k < |code| && (OpOf(code[k]) == OP_ALT <==> c.later.Some?)
    ensures Here(code, k, Nil, c)
  {
    k := StandingEnd(code, x, q, c);
    EndAt(code, k, c);
    NilHere(code, k, c);
  }

  /** The alternatives of group n are being gone through: `cur` are left, the first of them starts at p, and the link at
      `at` leads to its end. */
  ghost predicate AltsAt(code: seq<Cell>, at: nat, p: nat, cur: Alts, n: Node, t: Branch, c: Ctx) {
    forall k: int {:trigger Look(k)} :: Look(k) ==>
      && at < |code| && at + Link(code[at]) == p + BranchSize(cur.branch) && n.Group?
      && Here(code, p, cur.branch, In(Later(cur), t, n, c))
  }

  lemma AltsStart(code: seq<Cell>, x: nat, n: Node, t: Branch, c: Ctx)
    requires n.Group? && Here(code, x, Cons(n, t), c)
    ensures x < |code| && OpOf(code[x]) == n.bra && IsBracket(n.bra)
            && AltsAt(code, x, x + BraSize(n.bra), n.alts, n, t, c)
  {
    BracketAt(code, x, n, t, c);
  }

  lemma AltsBranch(code: seq<Cell>, at: nat, p: nat, cur: Alts, n: Node, t: Branch, c: Ctx)
    requires AltsAt(code, at, p, cur, n, t, c)
    ensures Here(code, p, cur.branch, In(Later(cur), t, n, c)) && at < |code|
            && at + Link(code[at]) == p + BranchSize(cur.branch)
  {
    assert Look(0);
  }

  /** The end of a branch: an ALT, unless it is the last. */
  lemma AltsTurn(code: seq<Cell>, at: nat, p: nat, cur: Alts, n: Node, t: Branch, c: Ctx) returns (k: nat)
    requires AltsAt(code, at, p, cur, n, t, c)
    ensures at < |code| && k == at + Link(code[at]) && k == p + BranchSize(cur.branch) && k < |code|
            && (OpOf(code[k]) == OP_ALT <==> cur.Or?)
    ensures cur.Or? ==> AltsAt(code, k, k + 1 + LINK_SIZE, cur.more, n, t, c)
  {
    assert Look(0);
    k := BranchEnd(code, p, cur.branch, In(Later(cur), t, n, c));
    if cur.Or? { NextHere(code, k, In(Later(cur), t, n, c)); }
  }
}
