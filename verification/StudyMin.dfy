/** The minimum length of a match, found by scanning the code of each group. */
module StudyMin {
  import opened Folding
  import opened Opcodes
  import opened Regex
  import opened Language
  import opened Layout
  import opened BracketCount

  const UINT16_MAX := 65535

  // --- the shortest match, by structure ------------------------------------------------

  function Shortest(n: Node): nat {
    match n
    case Single(_) => 1
    case Repeat(_, r) => Lo(r)
    case Assert(_) => 0
    case Optional(_, _) => 0
    case Group(_, _, alts, _) => ShortestAlts(alts)
  }

  function ShortestAlts(a: Alts): nat {
    var here := ShortestBranch(a.branch);
    if a.Or? && ShortestAlts(a.more) < here then ShortestAlts(a.more) else here
  }

  function ShortestBranch(b: Branch): nat { if b.Nil? then 0 else Shortest(b.head) + ShortestBranch(b.tail) }

  lemma {:induction false} ShortestSound(n: Node, e: Env, i: nat, j: nat)
    requires i <= |e.s| && InNode(n, e, i, j)
    ensures i + Shortest(n) <= j
    decreases n, |e.s| - i
  {
    match n
    case Optional(_, g) => NodeSpan(n, e, i, j);
    case Group(_, _, alts, _) =>
      if InAlts(alts, e, i, j) {
        ShortestAltsSound(alts, e, i, j);
      } else {
        var m: nat :| i < m <= |e.s| && InAlts(alts, e, i, m) && InNode(n, e, m, j);
        ShortestSound(n, e, m, j);
      }
    case _ =>
  }

  lemma {:induction false} ShortestAltsSound(a: Alts, e: Env, i: nat, j: nat)
    requires i <= |e.s| && InAlts(a, e, i, j)
    ensures i + ShortestAlts(a) <= j
    decreases a
  {
    if InBranch(a.branch, e, i, j) {
      ShortestBranchSound(a.branch, e, i, j);
    } else {
      ShortestAltsSound(a.more, e, i, j);
    }
  }

  lemma {:induction false} ShortestBranchSound(b: Branch, e: Env, i: nat, j: nat)
    requires i <= |e.s| && InBranch(b, e, i, j)
    ensures i + ShortestBranch(b) <= j
    decreases b
  {
    if b.Cons? {
      var m: nat :| i <= m <= |e.s| && InNode(b.head, e, i, m) && InBranch(b.tail, e, m, j);
      ShortestSound(b.head, e, i, m);
      ShortestBranchSound(b.tail, e, m, j);
    }
  }

  // --- what the scan relies on ----------------------------------------------------------

  /** Brackets in the S form can match an empty string, and all the groups with one number have the same
      shortest length, as len tells, unless `dup` says that numbers have been used twice. */
  ghost predicate Tidy(n: Node, dup: bool, len: nat -> nat) {
    match n
    case Group(bra, number, a, _) =>
      && TidyAlts(a, dup, len)
      && ((bra == OP_SBRA || bra == OP_SCBRA) ==> ShortestAlts(a) == 0)
      && (IsCapture(bra) && !dup ==> ShortestAlts(a) == len(number))
    case Optional(_, g) => Tidy(g, dup, len)
    case _ => true
  }

  ghost predicate TidyAlts(a: Alts, dup: bool, len: nat -> nat) {
    TidyBranch(a.branch, dup, len) && (a.Or? ==> TidyAlts(a.more, dup, len))
  }

  ghost predicate TidyBranch(b: Branch, dup: bool, len: nat -> nat) {
    b.Nil? || (Tidy(b.head, dup, len) && TidyBranch(b.tail, dup, len))
  }

  function Clamp(n: nat): nat { if n > UINT16_MAX then UINT16_MAX else n }

  // --- the scan -----------------------------------------------------------------------------

  /** What the length of a single item or an assertion adds, and what its code takes up. */
  method ItemLength(code: seq<Cell>, cc: nat, ghost q: Branch, ghost c: Ctx) returns (d: nat, next: nat)
    requires Here(code, cc, q, c) && q.Cons? && !q.head.Group? && !q.head.Optional?
    ensures d == Shortest(q.head) && next == cc + NodeSize(q.head)
  {
    Unfold(code, cc, q, c);
    StandingTail(code, cc, q, c);
    StandingHead(code, cc + NodeSize(q.head), q.tail, c);
    NodeClass(code, cc, q.head);
    var u := code[cc];
    var op := OpOf(u);
    if IsAssertion(op) { return 0, cc + 1; }
    if IsRepeat(op) {
      RepeatOpcode(q.head.item, q.head.rep);
      var k := op - RepeatBase(op) + OP_STAR;
      d := if k == OP_PLUS || k == OP_MINPLUS || k == OP_POSPLUS then 1 else if k == OP_EXACT then u.n else 0;
      return d, cc + OpLength(op);
    }
    if op == OP_CLASS || op == OP_NCLASS {
      next := cc + 1 + CLASS_SIZE;
      var r := OpOf(code[next]);
      if r == OP_CRPLUS || r == OP_CRMINPLUS || r == OP_CRPOSPLUS { return 1, next + 1; }
      if r == OP_CRSTAR || r == OP_CRMINSTAR || r == OP_CRQUERY || r == OP_CRMINQUERY || r == OP_CRPOSSTAR
         || r == OP_CRPOSQUERY {
        return 0, next + 1;
      }
      if IsRange(r) { return code[next].m, next + 1 + 2 * IMM2_SIZE; }
      return 1, next;
    }
    return 1, cc + OpLength(op);
  }

  /** The remembered length of the last capturing group. */
  ghost predicate Remembered(prevRecno: int, prevD: int, dup: bool, len: nat -> nat) {
    prevD >= 0 && (prevRecno >= 0 && !dup ==> prevD == Clamp(len(prevRecno)))
  }

  /** Branch b is being scanned: q is what is left of it, at cc, and nextbranch is where it ends. */
  ghost predicate Counted(code: seq<Cell>, cc: nat, nextbranch: nat, branchlength: nat, b: Branch, q: Branch, c: Ctx,
                          dup: bool, len: nat -> nat) {
    && Here(code, cc, q, c) && nextbranch == cc + BranchSize(q) && TidyBranch(q, dup, len)
    && Clamp(branchlength + ShortestBranch(q)) == Clamp(ShortestBranch(b))
  }

  ghost predicate Scan(code: seq<Cell>, cc: nat, nextbranch: nat, branchlength: nat, b: Branch, q: Branch, c: Ctx,
                       dup: bool, len: nat -> nat) {
    forall k: int {:trigger Look(k)} :: Look(k) ==> Counted(code, cc, nextbranch, branchlength, b, q, c, dup, len)
  }

  /** The length has passed 16 bits: the rest of the branch is skipped. */
  lemma ScanOver(code: seq<Cell>, cc: nat, nextbranch: nat, branchlength: nat, b: Branch, q: Branch, c: Ctx, dup: bool,
                 len: nat -> nat)
    requires Scan(code, cc, nextbranch, branchlength, b, q, c, dup, len) && branchlength >= UINT16_MAX
    ensures Scan(code, nextbranch, nextbranch, UINT16_MAX, b, Nil, c, dup, len)
  {
    assert Look(0);
    Unfold(code, cc, q, c);
  }

  lemma ScanHere(code: seq<Cell>, cc: nat, nextbranch: nat, branchlength: nat, b: Branch, q: Branch, c: Ctx, dup: bool,
                 len: nat -> nat)
    requires Scan(code, cc, nextbranch, branchlength, b, q, c, dup, len)
    ensures Here(code, cc, q, c) && (q.Cons? ==> Tidy(q.head, dup, len))
    ensures q.Nil? ==> Clamp(branchlength) == Clamp(ShortestBranch(b)) && cc == nextbranch
  {
    assert Look(0);
  }

  /** One item has been dealt with, and its length added. */
  lemma ScanStep(code: seq<Cell>, cc: nat, nextbranch: nat, branchlength: nat, d: nat, b: Branch, q: Branch, c: Ctx,
                 dup: bool, len: nat -> nat)
    requires Scan(code, cc, nextbranch, branchlength, b, q, c, dup, len)
    requires q.Cons? && (d == Shortest(q.head) || d == Clamp(Shortest(q.head)))
    ensures Scan(code, cc + NodeSize(q.head), nextbranch, branchlength + d, b, q.tail, c, dup, len)
  {
    assert Look(0);
    ItemHere(code, cc, q, c);
  }

  /** Adds up the lengths of the items of a branch, up to 16 bits. */
  method BranchMinLength(code: seq<Cell>, x: nat, nextbranch: nat, dup: bool, count0: int, prevRecno0: int, prevD0: int,
                         ghost b: Branch, ghost c: Ctx, ghost len: nat -> nat)
      returns (d: int, count: int, prevRecno: int, prevD: int)
    requires c.In? && Here(code, x, b, c) && nextbranch == x + BranchSize(b) && TidyBranch(b, dup, len)
    requires Remembered(prevRecno0, prevD0, dup, len)
    ensures d >= 0 ==> d == Clamp(ShortestBranch(b)) && Remembered(prevRecno, prevD, dup, len)
    ensures d < 0 ==> d == -1 && count > 1001
    ensures count0 <= count <= count0 + BracketsBranch(b)
    decreases b
  {
    count, prevRecno, prevD := count0, prevRecno0, prevD0;
    var cc: nat, branchlength: nat := x, 0;
    ghost var q := b;
    while true
      invariant Scan(code, cc, nextbranch, branchlength, b, q, c, dup, len)
      invariant Remembered(prevRecno, prevD, dup, len) && (q == b || q < b)
      invariant count0 <= count && count + BracketsBranch(q) <= count0 + BracketsBranch(b)
      decreases q
    {
      ScanHere(code, cc, nextbranch, branchlength, b, q, c, dup, len);
      if branchlength >= UINT16_MAX {
        ScanOver(code, cc, nextbranch, branchlength, b, q, c, dup, len);
        branchlength, cc := UINT16_MAX, nextbranch;
        ScanHere(code, cc, nextbranch, branchlength, b, Nil, c, dup, len);
        return branchlength, count, prevRecno, prevD;
      }
      OpcodeAt(code, cc, q, c);
      var op := OpOf(code[cc]);
      if op == OP_ALT || IsKet(op) { return branchlength, count, prevRecno, prevD; }
      var add: int, next: nat;
      add, next, count, prevRecno, prevD := OneItem(code, cc, dup, count, prevRecno, prevD, q, c, len);
      if add < 0 { return add, count, prevRecno, prevD; }
      ScanStep(code, cc, nextbranch, branchlength, add, b, q, c, dup, len);
      branchlength := branchlength + add;
      cc, q := next, q.tail;
    }
  }

  /** The length of the item at cc, and where the next one starts. */
  method OneItem(code: seq<Cell>, cc: nat, dup: bool, count0: int, prevRecno0: int, prevD0: int,
                 ghost q: Branch, ghost c: Ctx, ghost len: nat -> nat)
      returns (d: int, next: nat, count: int, prevRecno: int, prevD: int)
    requires c.In? && Here(code, cc, q, c) && q.Cons? && Tidy(q.head, dup, len)
    requires Remembered(prevRecno0, prevD0, dup, len)
    ensures d >= 0 ==> (d == Shortest(q.head) || d == Clamp(Shortest(q.head))) && next == cc + NodeSize(q.head)
    ensures d >= 0 ==> Remembered(prevRecno, prevD, dup, len)
    ensures d < 0 ==> d == -1 && count > 1001
    ensures count0 <= count <= count0 + Brackets(q.head)
    decreases q.head, 2
  {
    next, count, prevRecno, prevD := cc, count0, prevRecno0, prevD0;
    OpcodeAt(code, cc, q, c);
    var op := OpOf(code[cc]);
    if IsBracket(op) {
      d, count, prevRecno, prevD := GroupLength(code, cc, dup, count, prevRecno, prevD, q.head, q.tail, c, len);
      if d >= 0 { next := PastGroup(code, cc, q.head, q.tail, c); }
    } else if IsZero(op) {
      d := 0;
      next := PastOptional(code, cc, q, c);
    } else {
      d, next := ItemLength(code, cc, q, c);
    }
  }

  /** A nested group: the length of the previous capturing group is remembered, so that copies of it are not scanned
      again. */
  method GroupLength(code: seq<Cell>, x: nat, dup: bool, count0: int, prevRecno0: int, prevD0: int,
                     ghost n: Node, ghost t: Branch, ghost c: Ctx, ghost len: nat -> nat)
      returns (d: int, count: int, prevRecno: int, prevD: int)
    requires n.Group? && Here(code, x, Cons(n, t), c) && Tidy(n, dup, len)
    requires Remembered(prevRecno0, prevD0, dup, len)
    ensures d >= 0 ==> d == Clamp(Shortest(n)) && Remembered(prevRecno, prevD, dup, len)
    ensures d < 0 ==> d == -1 && count > 1001
    ensures count0 <= count <= count0 + Brackets(n)
    decreases n, 1
  {
    BracketAt(code, x, n, t, c);
    count, prevRecno, prevD := count0, prevRecno0, prevD0;
    var op := OpOf(code[x]);
    if IsCapture(op) {
      var recno := code[x].num;
      if dup || recno != prevRecno {
        prevRecno := recno;
        prevD, count := FindMinLength(code, x, dup, count, n, t, c, len);
        if prevD < 0 { return prevD, count, prevRecno, prevD; }
      }
      d := prevD;
    } else {
      d, count := FindMinLength(code, x, dup, count, n, t, c, len);
    }
  }

  /** The shortest of the branches that have been scanned, or the shortest of those to come. */
  ghost predicate BestSoFar(length: int, n: Node, rest: Option<Alts>)
    requires n.Group?
  {
    && -1 <= length <= UINT16_MAX && (rest.None? ==> length >= 0)
    && Clamp(Shortest(n)) ==
       if rest.None? then length
       else if 0 <= length <= Clamp(ShortestAlts(rest.value)) then length
       else Clamp(ShortestAlts(rest.value))
  }

  lemma Better(length: int, d: nat, n: Node, cur: Alts)
    requires n.Group? && BestSoFar(length, n, Some(cur)) && d == Clamp(ShortestBranch(cur.branch))
    ensures var best := if length < 0 || d < length then d else length;
            BestSoFar(best, n, Later(cur)) && (best == 0 ==> Clamp(Shortest(n)) == 0)
  {
  }

  /** Scans the group at x and returns the length of its shortest match, or -1 when the pattern has too many groups.
      `count` is the number of groups that have been looked at. */
  method FindMinLength(code: seq<Cell>, x: nat, dup: bool, count0: int, ghost n: Node, ghost t: Branch, ghost c: Ctx,
                       ghost len: nat -> nat)
      returns (d: int, count: int)
    requires n.Group? && Here(code, x, Cons(n, t), c) && Tidy(n, dup, len)
    ensures d >= 0 ==> d == Clamp(Shortest(n))
    ensures d < 0 ==> d == -1 && count > 1001
    ensures count0 <= count <= count0 + Brackets(n)
    decreases n, 0
  {
    count := count0;
    AltsStart(code, x, n, t, c);
    var op := OpOf(code[x]);
    if op == OP_SBRA || op == OP_SCBRA { return 0, count; }
    AltsBranch(code, x, x + BraSize(n.bra), n.alts, n, t, c);
    var cc: nat, nextbranch: nat := x + 1 + LINK_SIZE, x + Link(code[x]);
    if op == OP_CBRA { cc := cc + IMM2_SIZE; }
    count := count + 1;
    if count - 1 > 1000 { return -1, count; }
    ghost var cur, at := n.alts, x;
    var length, prevRecno, prevD := -1, -1, 0;
    while true
      invariant AltsAt(code, at, cc, cur, n, t, c) && nextbranch == cc + BranchSize(cur.branch)
      invariant TidyAlts(cur, dup, len) && BestSoFar(length, n, Some(cur)) && (cur == n.alts || cur < n.alts)
      invariant Remembered(prevRecno, prevD, dup, len)
      invariant count0 <= count && count + BracketsAlts(cur) <= count0 + Brackets(n)
      decreases cur
    {
      AltsBranch(code, at, cc, cur, n, t, c);
      d, count, prevRecno, prevD := BranchMinLength(code, cc, nextbranch, dup, count, prevRecno, prevD, cur.branch,
                                                    In(Later(cur), t, n, c), len);
      if d < 0 { return; }
      Better(length, d, n, cur);
      if length < 0 || d < length { length := d; }
      at := AltsTurn(code, at, cc, cur, n, t, c);
      if OpOf(code[nextbranch]) != OP_ALT || length == 0 { return length, count; }
      cc := nextbranch + 1 + LINK_SIZE;
      AltsBranch(code, at, cc, cur.more, n, t, c);
      nextbranch := nextbranch + Link(code[nextbranch]);
      cur := cur.more;
    }
  }
}
