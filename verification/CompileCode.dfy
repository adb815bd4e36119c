/** The pass that writes the code of a pattern into the memory that the pre-pass has measured. */
module CompileCode {
  import opened Folding
  import opened Opcodes
  import opened Regex
  import opened Layout
  import opened Source
  import opened Unroll
  import opened PrePass
  import opened EmitCode

  // --- items ----------------------------------------------------------------------

  lemma EmitItemJoin(a: Atom, q: Quant, t: Branch)
    requires OkAtom(a) && OkQuant(q)
    ensures EmitItem(a, q, t) == Join(EmitItem(a, q, Nil), t)
  {
    match a
    case Zero(_) =>
    case One(it) =>
      if q.Times? {
        if it.Set? {
          assert EmitClass(it, q.min, q.max, q.lazy, t) == Join(EmitClass(it, q.min, q.max, q.lazy, Nil), t);
        }
        else { EmitSingleJoin(it, q.min, q.max, q.lazy, t); }
      }
    case Paren(_, _) => if q.Times? { EmitGroupJoin(EmitParen(a), q.min, q.max, q.lazy, AltsConsume(a.alts), t); }
  }

  lemma EmitSingleJoin(it: Item, min: nat, max: int, lazy: bool, t: Branch)
    requires max < 0 || min <= max
    ensures EmitSingle(it, min, max, lazy, t) == Join(EmitSingle(it, min, max, lazy, Nil), t)
  {
    var b := EmitSingle(it, min, max, lazy, Nil);
    if b.Cons? && b.tail.Cons? { assert Join(b.tail, t) == Cons(b.tail.head, t); }
  }

  lemma EmitGroupJoin(g: Node, min: nat, max: int, lazy: bool, consumes: bool, t: Branch)
    requires g.Group? && (max < 0 || min <= max)
    ensures EmitGroup(g, min, max, lazy, consumes, t) == Join(EmitGroup(g, min, max, lazy, consumes, Nil), t)
  {
    if (min == 1 && max == 1) || max == 0 {
    } else if max < 0 {
      if min > 0 { CopiesTail(g, min - 1, Cons(Looped(g, lazy, consumes), Nil), t); }
    } else if max > min {
      CopiesTail(g, min, Cons(Nest(g, max - min, lazy), Nil), t);
    } else {
      CopiesTail(g, min, Nil, t);
    }
  }

  lemma {:induction false} CopiesTail(g: Node, n: nat, b: Branch, t: Branch)
    ensures Copies(g, n, Join(b, t)) == Join(Copies(g, n, b), t)
    decreases n
  {
    if n > 0 { CopiesTail(g, n - 1, b, t); }
  }

  /** A literal, a type or a class. */
  method WriteItem(code: array<Cell>, p: nat, it: Item)
    requires OkItem(it) && p + ItemSize(it) <= code.Length
    modifies code
    ensures LaidBranch(code[..], p, Cons(Single(it), Nil)) && BranchSize(Cons(Single(it), Nil)) == ItemSize(it)
    ensures Agree(old(code[..]), code[..], 0, p)
  {
    match it {
      case Lit(op, c) => code[p] := WithChar(op, c);
      case Type(op) => code[p] := Plain(op);
      case Set(op, bits) => code[p] := WithMap(op, bits);
    }
    OneLaid(code[..], p, Single(it));
  }

  /** Writes a repeat: its opcode, the count if there is one, and the character or type. */
  method WriteRepeat(code: array<Cell>, p: nat, it: Item, op: int, n: nat) returns (end: nat)
    requires !it.Set? && OkItem(it) && OP_STAR <= op <= OP_EXACT
    requires p + RepSize(it, Rep(op, 0, n)) <= code.Length
    modifies code
    ensures LaidNode(code[..], p, Repeat(it, Rep(op, 0, n))) && end == p + NodeSize(Repeat(it, Rep(op, 0, n)))
    ensures Agree(old(code[..]), code[..], 0, p)
  {
    var opType := BlockOf(it) - OP_STAR;
    if op == OP_UPTO || op == OP_MINUPTO || op == OP_EXACT {
      code[p] := WithCount(op + opType, n, OperandOf(it));
      end := p + 2 + IMM2_SIZE;
    } else {
      code[p] := WithChar(op + opType, OperandOf(it));
      end := p + 2;
    }
  }

  /** The quantifier of a literal or a type at `previous`: one or two repeat opcodes in its place. */
  method QuantifySingle(code: array<Cell>, previous: nat, it: Item, min: nat, max: int, lazy: bool) returns (end: nat)
    requires !it.Set? && OkItem(it) && OkQuant(Times(min, max, lazy))
    requires LaidBranch(code[..], previous, Cons(Single(it), Nil))
    requires previous + BranchSize(EmitSingle(it, min, max, lazy, Nil)) <= code.Length
    modifies code
    ensures LaidBranch(code[..], previous, EmitSingle(it, min, max, lazy, Nil))
    ensures end == previous + BranchSize(EmitSingle(it, min, max, lazy, Nil))
    ensures Agree(old(code[..]), code[..], 0, previous)
  {
    if max == 0 { return previous; }
    if min == 1 && max >= 1 {
      end := QuantifyOnce(code, previous, it, max, lazy);
    } else if min <= 1 {
      end := WriteOptional(code, previous, it, min, max, lazy);
      OneNode(EmitSingle(it, min, max, lazy, Nil), Nil);
      OneLaid(code[..], previous, EmitSingle(it, min, max, lazy, Nil).head);
    } else {
      end := QuantifyExact(code, previous, it, min, max, lazy);
    }
  }

  /** STAR, PLUS, QUERY or UPTO */
  method WriteOptional(code: array<Cell>, p: nat, it: Item, min: nat, max: int, lazy: bool) returns (end: nat)
    requires !it.Set? && OkItem(it) && min <= 1 && max != 0 && max >= -1 && (min == 1 ==> max < 0)
    requires p + NodeSize(EmitSingle(it, min, max, lazy, Nil).head) <= code.Length
    modifies code
    ensures var n := EmitSingle(it, min, max, lazy, Nil).head; LaidNode(code[..], p, n) && end == p + NodeSize(n)
    ensures Agree(old(code[..]), code[..], 0, p)
  {
    var d := if lazy then 1 else 0;
    if max < 0 { end := WriteRepeat(code, p, it, (if min == 0 then OP_STAR else OP_PLUS) + d, 0); }
    else if max == 1 { end := WriteRepeat(code, p, it, OP_QUERY + d, 0); }
    else { end := WriteRepeat(code, p, it, OP_UPTO + d, max); }
  }

  /** {1,max}: the item stays, and UPTO follows. */
  method QuantifyOnce(code: array<Cell>, previous: nat, it: Item, max: int, lazy: bool) returns (end: nat)
    requires !it.Set? && OkItem(it) && 1 <= max <= MAX_REPEAT && LaidBranch(code[..], previous, Cons(Single(it), Nil))
    requires previous + BranchSize(EmitSingle(it, 1, max, lazy, Nil)) <= code.Length
    modifies code
    ensures LaidBranch(code[..], previous, EmitSingle(it, 1, max, lazy, Nil))
    ensures end == previous + BranchSize(EmitSingle(it, 1, max, lazy, Nil))
    ensures Agree(old(code[..]), code[..], 0, previous)
  {
    SingleSizes(it, max, lazy);
    end := previous + ItemSize(it);
    if max > 1 {
      ghost var c0 := code[..];
      end := WriteRepeat(code, end, it, if lazy then OP_MINUPTO else OP_UPTO, max - 1);
      TwoLaid(c0, code[..], previous, Single(it), EmitSingle(it, 1, max, lazy, Nil).tail.head);
    }
  }

  /** {min,max} with min greater than one: EXACT, and then what may follow. */
  method QuantifyExact(code: array<Cell>, previous: nat, it: Item, min: nat, max: int, lazy: bool) returns (end: nat)
    requires !it.Set? && OkItem(it) && OkQuant(Times(min, max, lazy)) && min > 1
    requires previous + BranchSize(EmitSingle(it, min, max, lazy, Nil)) <= code.Length
    modifies code
    ensures LaidBranch(code[..], previous, EmitSingle(it, min, max, lazy, Nil))
    ensures end == previous + BranchSize(EmitSingle(it, min, max, lazy, Nil))
    ensures Agree(old(code[..]), code[..], 0, previous)
  {
    ghost var b := EmitSingle(it, min, max, lazy, Nil);
    if max != min { TwoNodes(b, Nil); } else { OneNode(b, Nil); }
    end := WriteRepeat(code, previous, it, OP_EXACT, min);
    ghost var c0 := code[..];
    OneLaid(c0, previous, b.head);
    if max != min {
      end := WriteOptional(code, end, it, 0, if max < 0 then max else max - min, lazy);
      TwoLaid(c0, code[..], previous, b.head, b.tail.head);
      AgreeTwice(old(code[..]), c0, code[..], previous, previous + NodeSize(b.head));
    }
  }

  lemma SingleSizes(it: Item, max: int, lazy: bool)
    requires !it.Set? && max >= 1
    ensures var b := EmitSingle(it, 1, max, lazy, Nil);
            && b.Cons? && b.head == Single(it)
            && (max == 1 ==> b == Cons(Single(it), Nil) && BranchSize(b) == ItemSize(it))
            && (max > 1 ==> b.tail.Cons? && b.tail.tail == Nil && BranchSize(b) == ItemSize(it) + NodeSize(b.tail.head))
  {
    if max > 1 { TwoNodes(EmitSingle(it, 1, max, lazy, Nil), Nil); }
  }

  lemma TwoLaid(code: seq<Cell>, code': seq<Cell>, x: nat, n: Node, m: Node)
    requires LaidBranch(code, x, Cons(n, Nil)) && Agree(code, code', 0, x + NodeSize(n))
             && LaidNode(code', x + NodeSize(n), m)
    ensures LaidBranch(code', x, Cons(n, Cons(m, Nil)))
            && BranchSize(Cons(n, Cons(m, Nil))) == NodeSize(n) + NodeSize(m)
  {
    NodeAgree(code, code', x, n);
    OneLaid(code', x + NodeSize(n), m);
  }

  /** The quantifier of a class, which goes after it. */
  method QuantifyClass(code: array<Cell>, previous: nat, it: Item, min: nat, max: int, lazy: bool) returns (end: nat)
    requires it.Set? && OkItem(it) && OkQuant(Times(min, max, lazy))
    requires LaidBranch(code[..], previous, Cons(Single(it), Nil))
    requires previous + BranchSize(EmitClass(it, min, max, lazy, Nil)) <= code.Length
    modifies code
    ensures LaidBranch(code[..], previous, EmitClass(it, min, max, lazy, Nil))
    ensures end == previous + BranchSize(EmitClass(it, min, max, lazy, Nil))
    ensures Agree(old(code[..]), code[..], 0, previous)
  {
    var d := if lazy then 1 else 0;
    ghost var b := EmitClass(it, min, max, lazy, Nil);
    if max == 0 { return previous; }
    OneNode(b, Nil);
    end := previous + ItemSize(it);
    if min == 1 && max == 1 { return; }
    if min == 0 && max < 0 { code[end] := Plain(OP_CRSTAR + d); end := end + 1; }
    else if min == 1 && max < 0 { code[end] := Plain(OP_CRPLUS + d); end := end + 1; }
    else if min == 0 && max == 1 { code[end] := Plain(OP_CRQUERY + d); end := end + 1; }
    else {
      code[end] := WithRange(OP_CRRANGE + d, min, if max < 0 then 0 else max);
      end := end + 1 + 2 * IMM2_SIZE;
    }
    OneLaid(code[..], previous, b.head);
  }

  // --- the chain of open alternatives ---------------------------------------------------

  /** The size of the opcode that starts alternative number m. */
  function OpenerSize(bra: int, m: nat): nat { if m == 0 then BraSize(bra) else 1 + LINK_SIZE }

  /** Some branches of a bracket that is still open, the last of which starts at p. The link of its opener leads back to
      the opener before it; that of the bracket itself is 0. */
  ghost predicate OpenChain(code: seq<Cell>, bra: int, num: nat, start: nat, p: nat, bs: seq<Branch>)
    decreases |bs|
  {
    && |bs| > 0 && p < |code|
    && var m := |bs| - 1;
       && LaidBranch(code, p + OpenerSize(bra, m), bs[m])
       && if m == 0 then p == start && code[p] == BraCell(bra, num, 0)
          else
            && code[p].WithLink? && code[p].op == OP_ALT && start + Link(code[p]) <= p
            && p == (p - Link(code[p])) + OpenerSize(bra, m - 1) + BranchSize(bs[m - 1])
            && OpenChain(code, bra, num, start, p - Link(code[p]), bs[..m])
  }

  lemma {:induction false} ChainKept(code: seq<Cell>, code': seq<Cell>, bra: int, num: nat, start: nat, p: nat,
                                     bs: seq<Branch>)
    requires OpenChain(code, bra, num, start, p, bs)
    requires Agree(code, code', start, p + OpenerSize(bra, |bs| - 1) + BranchSize(bs[|bs| - 1]))
    ensures OpenChain(code', bra, num, start, p, bs)
    decreases |bs|
  {
    var m := |bs| - 1;
    ChainStart(code, bra, num, start, p, bs);
    BranchAgree(code, code', p + OpenerSize(bra, m), bs[m]);
    assert code'[p] == code[p];
    if m > 0 { ChainKept(code, code', bra, num, start, p - Link(code[p]), bs[..m]); }
  }

  lemma ChainStart(code: seq<Cell>, bra: int, num: nat, start: nat, p: nat, bs: seq<Branch>)
    requires OpenChain(code, bra, num, start, p, bs)
    ensures start <= p
  {
  }

  /** The alternatives that the branches make, before others. */
  function Rebuild(bs: seq<Branch>, rest: Option<Alts>): Option<Alts>
    decreases |bs|
  {
    if bs == [] then rest
    else
      var m := |bs| - 1;
      Rebuild(bs[..m], Some(if rest.None? then Last(bs[m]) else Or(bs[m], rest.value)))
  }

  lemma RebuildNext(bs: seq<Branch>, b: Branch, rest: Option<Alts>)
    ensures Rebuild(bs + [b], rest) == Rebuild(bs, Some(if rest.None? then Last(b) else Or(b, rest.value)))
  {
    assert (bs + [b])[..|bs|] == bs;
  }

  // --- turning the chain round ---------------------------------------------------------

  /** The opener at p now leads forward; `alts` are the alternatives from there on, and end at `end`. */
  ghost predicate Forward(code: seq<Cell>, bra: int, num: nat, p: nat, m: nat, alts: Alts, end: nat) {
    && p < |code| && end < |code| && end == p + OpenerSize(bra, m) + AltsSize(alts)
    && code[p] == (if m == 0 then BraCell(bra, num, OpenerSize(bra, m) + BranchSize(alts.branch))
                   else WithLink(OP_ALT, OpenerSize(bra, m) + BranchSize(alts.branch)))
    && LaidAlts(code, p + OpenerSize(bra, m), alts)
  }

  /** What comes after the branch that is to be linked next: nothing yet, or alternatives that are linked already. */
  ghost predicate After(code: seq<Cell>, bra: int, num: nat, q: nat, m: nat, rest: Option<Alts>, end: nat) {
    if rest.None? then q == end && end < |code| else Forward(code, bra, num, q, m + 1, rest.value, end)
  }

  function PutLink(u: Cell, link: int): Cell {
    match u
    case WithLink(op, _) => WithLink(op, link)
    case WithCapture(op, _, num) => WithCapture(op, link, num)
    case _ => u
  }

  /** The vector with the link at p filled in. */
  function Linked(code: seq<Cell>, p: nat, link: int): (c: seq<Cell>)
    requires p < |code|
    ensures |c| == |code|
  {
    code[p := PutLink(code[p], link)]
  }

  lemma LinkedUnits(code: seq<Cell>, p: nat, link: int)
    requires p < |code|
    ensures var c := Linked(code, p, link);
            Agree(code, c, 0, p) && Agree(code, c, p + 1, |code|) && c[p] == PutLink(code[p], link)
  {
  }

  lemma TurnChain(code: seq<Cell>, bra: int, num: nat, start: nat, p: nat, bs: seq<Branch>, link: int)
    requires OpenChain(code, bra, num, start, p, bs) && IsBracket(bra)
    ensures Link(code[p]) >= 0 && (Link(code[p]) == 0 <==> |bs| == 1) && (|bs| == 1 ==> p == start)
    ensures |bs| > 1 ==>
              var m := |bs| - 1;
              && start <= p - Link(code[p]) && Link(code[p]) == OpenerSize(bra, m - 1) + BranchSize(bs[m - 1])
              && OpenChain(Linked(code, p, link), bra, num, start, p - Link(code[p]), bs[..m])
  {
    var m := |bs| - 1;
    LinkedUnits(code, p, link);
    if m > 0 {
      ChainKept(code, Linked(code, p, link), bra, num, start, p - Link(code[p]), bs[..m]);
      ChainStart(code, bra, num, start, p - Link(code[p]), bs[..m]);
    }
  }

  lemma TurnForward(code: seq<Cell>, c: seq<Cell>, bra: int, num: nat, p: nat, m: nat, x: nat, q: nat, b: Branch,
                    rest: Option<Alts>, end: nat)
    requires IsBracket(bra) && p < x && x == p + OpenerSize(bra, m) && q == x + BranchSize(b) && p < |code| == |c|
    requires Agree(code, c, p + 1, |code|) && c[p] == PutLink(code[p], OpenerSize(bra, m) + BranchSize(b))
             && LaidBranch(code, x, b)
    requires if m == 0 then code[p] == BraCell(bra, num, 0) else code[p].WithLink? && code[p].op == OP_ALT
    requires After(code, bra, num, q, m, rest, end)
    ensures Forward(c, bra, num, p, m, if rest.None? then Last(b) else Or(b, rest.value), end)
  {
    AgreeFrom(code, c, p + 1, x);
    BranchAgree(code, c, x, b);
    if rest.None? {
      LastFold(c, x, b);
      ForwardFold(c, bra, num, p, m, x, Last(b), end, code[p]);
    } else {
      var next := ForwardParts(code, bra, num, q, m + 1, rest.value, end);
      TurnMore(code, c, bra, num, p, m, x, q, next, b, rest.value, end, code[p]);
    }
  }

  lemma LastFold(code: seq<Cell>, x: nat, b: Branch)
    requires LaidBranch(code, x, b) && x + BranchSize(b) < |code|
    ensures LaidAlts(code, x, Last(b)) && AltsSize(Last(b)) == BranchSize(b)
  {
  }

  lemma TurnMore(code: seq<Cell>, c: seq<Cell>, bra: int, num: nat, p: nat, m: nat, x: nat, q: nat, next: nat,
                 b: Branch, alts: Alts, end: nat, u: Cell)
    requires IsBracket(bra) && p < x == p + OpenerSize(bra, m) && q == x + BranchSize(b) && next == q + 1 + LINK_SIZE
             && p < |c| == |code|
    requires Agree(code, c, x, |code|) && LaidBranch(c, x, b)
    requires if m == 0 then u == BraCell(bra, num, 0) else u.WithLink? && u.op == OP_ALT
    requires c[p] == PutLink(u, OpenerSize(bra, m) + BranchSize(b))
    requires end == next + AltsSize(alts) && end < |code| && LaidAlts(code, next, alts)
    requires code[q] == WithLink(OP_ALT, 1 + LINK_SIZE + BranchSize(alts.branch))
    ensures Forward(c, bra, num, p, m, Or(b, alts), end)
  {
    TurnAlts(code, c, x, q, next, b, alts);
    ForwardFold(c, bra, num, p, m, x, Or(b, alts), end, u);
  }

  lemma AgreeFrom(code: seq<Cell>, c: seq<Cell>, p: nat, x: nat)
    requires Agree(code, c, p, |code|) && p <= x
    ensures Agree(code, c, x, |code|)
  {
  }

  lemma ForwardParts(code: seq<Cell>, bra: int, num: nat, q: nat, m: nat, alts: Alts, end: nat) returns (x: nat)
    requires Forward(code, bra, num, q, m, alts, end)
    ensures q < |code| && end < |code| && x == q + OpenerSize(bra, m) && end == x + AltsSize(alts)
            && LaidAlts(code, x, alts)
    ensures m == 0 ==> code[q] == BraCell(bra, num, BraSize(bra) + BranchSize(alts.branch))
    ensures m > 0 ==> x == q + 1 + LINK_SIZE && code[q] == WithLink(OP_ALT, 1 + LINK_SIZE + BranchSize(alts.branch))
  {
    x := q + OpenerSize(bra, m);
  }

  lemma ForwardFold(code: seq<Cell>, bra: int, num: nat, p: nat, m: nat, x: nat, alts: Alts, end: nat, u: Cell)
    requires IsBracket(bra) && p < |code| && end < |code| && x == p + OpenerSize(bra, m) && end == x + AltsSize(alts)
    requires if m == 0 then u == BraCell(bra, num, 0) else u.WithLink? && u.op == OP_ALT
    requires code[p] == PutLink(u, OpenerSize(bra, m) + BranchSize(alts.branch))
    requires LaidAlts(code, x, alts)
    ensures Forward(code, bra, num, p, m, alts, end)
  {
  }

  lemma TurnAlts(code: seq<Cell>, c: seq<Cell>, x: nat, q: nat, next: nat, b: Branch, alts: Alts)
    requires q == x + BranchSize(b) && next == q + 1 + LINK_SIZE && next + AltsSize(alts) < |code|
             && Agree(code, c, x, |code|) && LaidBranch(c, x, b)
    requires code[q] == WithLink(OP_ALT, 1 + LINK_SIZE + BranchSize(alts.branch)) && LaidAlts(code, next, alts)
    ensures LaidAlts(c, x, Or(b, alts)) && x + AltsSize(Or(b, alts)) == next + AltsSize(alts)
  {
    assert c[q] == code[q];
    AgreePart(code, c, x, |code|, next, next + AltsSize(alts));
    AltsAgree(code, c, next, alts);
    AltsFold(c, x, q, next, b, alts);
  }

  /** The chain is being turned round: the opener at p is next, and `len` units lead from it to what comes after its
      branch. */
  ghost predicate Turning(code: seq<Cell>, bra: int, num: nat, start: nat, p: nat, len: nat, bs: seq<Branch>,
                          rest: Option<Alts>, end: nat, all: Alts) {
    forall k: int {:trigger Look(k)} :: Look(k) ==>
      && IsBracket(bra) && OpenChain(code, bra, num, start, p, bs)
      && len == OpenerSize(bra, |bs| - 1) + BranchSize(bs[|bs| - 1])
      && After(code, bra, num, p + len, |bs| - 1, rest, end)
      && Rebuild(bs, rest) == Some(all)
  }

  lemma TurnStart(code: seq<Cell>, bra: int, num: nat, start: nat, p: nat, bs: seq<Branch>, end: nat, all: Alts)
    requires IsBracket(bra) && OpenChain(code, bra, num, start, p, bs) && end < |code|
    requires end == p + OpenerSize(bra, |bs| - 1) + BranchSize(bs[|bs| - 1]) && Rebuild(bs, None) == Some(all)
    ensures start <= p <= end && Turning(code, bra, num, start, p, end - p, bs, None, end, all)
  {
    ChainStart(code, bra, num, start, p, bs);
  }

  lemma TurningTop(code: seq<Cell>, bra: int, num: nat, start: nat, p: nat, len: nat, bs: seq<Branch>,
                   rest: Option<Alts>, end: nat, all: Alts)
    requires Turning(code, bra, num, start, p, len, bs, rest, end, all)
    ensures bs != [] && start <= p < |code| && 0 <= Link(code[p]) <= p && (Link(code[p]) == 0 <==> |bs| == 1)
  {
    assert Look(0);
    ChainStart(code, bra, num, start, p, bs);
    TurnChain(code, bra, num, start, p, bs, len);
  }

  /** The alternatives from the branch at the end of the chain on. */
  function FromLast(bs: seq<Branch>, rest: Option<Alts>): Alts
    requires bs != []
  {
    if rest.None? then Last(bs[|bs| - 1]) else Or(bs[|bs| - 1], rest.value)
  }

  lemma TurningForward(code: seq<Cell>, bra: int, num: nat, start: nat, p: nat, len: nat, bs: seq<Branch>,
                       rest: Option<Alts>, end: nat, all: Alts)
    requires Turning(code, bra, num, start, p, len, bs, rest, end, all) && p < |code| && bs != []
    ensures Forward(Linked(code, p, len), bra, num, p, |bs| - 1, FromLast(bs, rest), end)
  {
    var m, x := TurningLast(code, bra, num, start, p, len, bs, rest, end, all);
    LinkedUnits(code, p, len);
    TurnForward(code, Linked(code, p, len), bra, num, p, m, x, p + len, bs[m], rest, end);
  }

  /** The opener at p and the branch after it. */
  lemma TurningLast(code: seq<Cell>, bra: int, num: nat, start: nat, p: nat, len: nat, bs: seq<Branch>,
                    rest: Option<Alts>, end: nat, all: Alts)
      returns (m: nat, x: nat)
    requires Turning(code, bra, num, start, p, len, bs, rest, end, all) && p < |code| && bs != []
    ensures m + 1 == |bs| && x == p + OpenerSize(bra, m) && len == OpenerSize(bra, m) + BranchSize(bs[m]) && p < x
    ensures IsBracket(bra) && LaidBranch(code, x, bs[m]) && After(code, bra, num, p + len, m, rest, end)
    ensures if m == 0 then code[p] == BraCell(bra, num, 0) else code[p].WithLink? && code[p].op == OP_ALT
    ensures code[p].WithLink? || code[p].WithCapture?
  {
    assert Look(0);
    m := |bs| - 1;
    x := p + OpenerSize(bra, m);
  }

  lemma TurningChain(code: seq<Cell>, bra: int, num: nat, start: nat, p: nat, len: nat, bs: seq<Branch>,
                     rest: Option<Alts>, end: nat, all: Alts)
    requires Turning(code, bra, num, start, p, len, bs, rest, end, all) && p < |code| && bs != []
    ensures IsBracket(bra) && (|bs| == 1 ==> p == start && all == FromLast(bs, rest))
    ensures |bs| > 1 ==>
              var m := |bs| - 1;
              && 0 < Link(code[p]) <= p && Link(code[p]) == OpenerSize(bra, m - 1) + BranchSize(bs[m - 1])
              && OpenChain(Linked(code, p, len), bra, num, start, p - Link(code[p]), bs[..m])
              && Rebuild(bs[..m], Some(FromLast(bs, rest))) == Some(all)
  {
    assert Look(0);
    ChainStart(code, bra, num, start, p, bs);
    TurnChain(code, bra, num, start, p, bs, len);
    if |bs| == 1 { RebuildOne(bs, rest); }
  }

  lemma RebuildOne(bs: seq<Branch>, rest: Option<Alts>)
    requires |bs| == 1
    ensures Rebuild(bs, rest) == Some(FromLast(bs, rest))
  {
    assert bs[..0] == [];
    assert Rebuild(bs[..0], Some(FromLast(bs, rest))) == Some(FromLast(bs, rest));
  }

  lemma TurnLast(code: seq<Cell>, bra: int, num: nat, start: nat, p: nat, len: nat, bs: seq<Branch>, rest: Option<Alts>,
                 end: nat, all: Alts)
    requires Turning(code, bra, num, start, p, len, bs, rest, end, all) && p < |code| && |bs| == 1
    ensures Forward(Linked(code, p, len), bra, num, start, 0, all, end)
  {
    TurningForward(code, bra, num, start, p, len, bs, rest, end, all);
    TurningChain(code, bra, num, start, p, len, bs, rest, end, all);
  }

  lemma TurnStep(code: seq<Cell>, c: seq<Cell>, bra: int, num: nat, start: nat, p: nat, len: nat, bs: seq<Branch>,
                 rest: Option<Alts>,
                 end: nat, all: Alts, q: nat, bs': seq<Branch>)
    requires Turning(code, bra, num, start, p, len, bs, rest, end, all) && p < |code| && c == Linked(code, p, len)
    requires |bs| > 1 && bs' == bs[..|bs| - 1] && q == p - Link(code[p])
    ensures Link(code[p]) > 0 && Turning(c, bra, num, start, q, Link(code[p]), bs', Some(FromLast(bs, rest)), end, all)
  {
    TurningForward(code, bra, num, start, p, len, bs, rest, end, all);
    TurningChain(code, bra, num, start, p, len, bs, rest, end, all);
    TurnFold(c, bra, num, start, q, Link(code[p]), p, bs', |bs'|, FromLast(bs, rest), end, all);
  }

  lemma TurnFold(code: seq<Cell>, bra: int, num: nat, start: nat, q: nat, len: nat, p: nat, bs: seq<Branch>, m: nat,
                 rest: Alts, end: nat, all: Alts)
    requires IsBracket(bra) && m > 0 && |bs| == m && p == q + len && OpenChain(code, bra, num, start, q, bs)
    requires len == OpenerSize(bra, m - 1) + BranchSize(bs[m - 1])
    requires Forward(code, bra, num, p, m, rest, end) && Rebuild(bs, Some(rest)) == Some(all)
    ensures Turning(code, bra, num, start, q, len, bs, Some(rest), end, all)
  {
  }

  /** Go back through the alternatives and reverse the chain of offsets, so that each link leads forward. */
  method ReverseChain(code: array<Cell>, lastBranch0: nat, end: nat, ghost bra: int, ghost num: nat, ghost start: nat,
                      ghost bs0: seq<Branch>, ghost all: Alts)
    requires lastBranch0 <= end && Turning(code[..], bra, num, start, lastBranch0, end - lastBranch0, bs0, None, end,
                                           all)
    modifies code
    ensures Forward(code[..], bra, num, start, 0, all, end)
    ensures Agree(old(code[..]), code[..], 0, start)
  {
    var lastBranch: nat, branchLength: nat := lastBranch0, end - lastBranch0;
    ghost var bs: seq<Branch>, rest: Option<Alts> := bs0, None;
    while true
      invariant Turning(code[..], bra, num, start, lastBranch, branchLength, bs, rest, end, all)
      invariant Agree(old(code[..]), code[..], 0, start)
      decreases |bs|
    {
      TurningTop(code[..], bra, num, start, lastBranch, branchLength, bs, rest, end, all);
      ghost var c0 := code[..];
      var prevLength := Link(code[lastBranch]);
      code[lastBranch] := PutLink(code[lastBranch], branchLength);
      assert code[..] == Linked(c0, lastBranch, branchLength);
      if |bs| == 1 {
        TurnLast(c0, bra, num, start, lastBranch, branchLength, bs, rest, end, all);
      } else {
        TurnStep(c0, code[..], bra, num, start, lastBranch, branchLength, bs, rest, end, all, lastBranch - prevLength,
                 bs[..|bs| - 1]);
      }
      branchLength := prevLength;
      lastBranch := lastBranch - branchLength;
      if branchLength == 0 { return; }
      rest := Some(FromLast(bs, rest));
      bs := bs[..|bs| - 1];
    }
  }

  // --- brackets, branches and items ----------------------------------------------------

  /** An opener is at `last`, and its branch is to follow at pos; the branches bs are there already. */
  ghost predicate Ready(code: seq<Cell>, bra: int, num: nat, start: nat, last: nat, pos: nat, bs: seq<Branch>) {
    forall k: int {:trigger Look(k)} :: Look(k) ==>
      && IsBracket(bra) && last < |code| && pos == last + OpenerSize(bra, |bs|)
      && if bs == [] then last == start && code[last] == BraCell(bra, num, 0)
         else
           && code[last].WithLink? && code[last].op == OP_ALT && start <= last - Link(code[last]) < last
           && last == (last - Link(code[last])) + OpenerSize(bra, |bs| - 1) + BranchSize(bs[|bs| - 1])
           && OpenChain(code, bra, num, start, last - Link(code[last]), bs)
  }

  /** A branch has been written after the opener. */
  lemma ReadyBranch(code: seq<Cell>, code': seq<Cell>, bra: int, num: nat, start: nat, last: nat, pos: nat,
                    bs: seq<Branch>, b: Branch)
    requires Ready(code, bra, num, start, last, pos, bs) && Agree(code, code', 0, pos) && LaidBranch(code', pos, b)
    ensures start <= last < pos && pos == last + OpenerSize(bra, |bs|) && IsBracket(bra)
    ensures OpenChain(code', bra, num, start, last, bs + [b])
  {
    assert Look(0);
    assert code'[last] == code[last];
    assert (bs + [b])[..|bs|] == bs;
    if bs != [] {
      ChainStart(code, bra, num, start, last - Link(code[last]), bs);
      ChainKept(code, code', bra, num, start, last - Link(code[last]), bs);
    }
  }

  /** An ALT has been written after the branch. */
  lemma ReadyAlt(code: seq<Cell>, bra: int, num: nat, start: nat, last: nat, pos: nat, bs: seq<Branch>)
    requires IsBracket(bra) && OpenChain(code, bra, num, start, last, bs) && start <= last < pos < |code|
    requires pos == last + OpenerSize(bra, |bs| - 1) + BranchSize(bs[|bs| - 1])
    ensures Ready(code[pos := WithLink(OP_ALT, pos - last)], bra, num, start, pos, pos + 1 + LINK_SIZE, bs)
  {
    var c := code[pos := WithLink(OP_ALT, pos - last)];
    ChainKept(code, c, bra, num, start, last, bs);
  }

  /** The bracket has been closed. */
  lemma GroupDone(code: seq<Cell>, code': seq<Cell>, bra: int, num: nat, start: nat, alts: Alts, end: nat)
    requires Forward(code, bra, num, start, 0, alts, end) && end + 3 <= |code| && IsBracket(bra)
    requires Agree(code, code', start, end) && code'[end] == WithLink(OP_KET, end - start)
    ensures var n := Group(bra, num, alts, OP_KET); LaidNode(code', start, n) && end + 3 == start + NodeSize(n)
  {
    assert code'[start] == code[start];
    var x := ForwardParts(code, bra, num, start, 0, alts, end);
    AgreePart(code, code', start, end, x, x + AltsSize(alts));
    AltsAgree(code, code', x, alts);
    GroupFold(code', start, end, bra, num, alts, OP_KET);
  }

  /** The code of some items is at x, and more is to come from `rest`. */
  ghost predicate Compiling(code: seq<Cell>, x: nat, pos: nat, done: Branch, b: SrcBranch, rest: SrcBranch) {
    forall k: int {:trigger Look(k)} :: Look(k) ==>
      && LaidBranch(code, x, done) && pos == x + BranchSize(done)
      && OkSBranch(b) && OkSBranch(rest) && EmitBranch(b) == Join(done, EmitBranch(rest))
  }

  predicate ItemConsumes(a: Atom, q: Quant) { AtomConsumes(a) && (q.Once? || q.min > 0) }

  lemma CompilingStep(code: seq<Cell>, code': seq<Cell>, x: nat, pos: nat, done: Branch, b: SrcBranch, rest: SrcBranch)
    requires Compiling(code, x, pos, done, b, rest) && rest.SCons? && OkSBranch(rest) && Agree(code, code', 0, pos)
    requires LaidBranch(code', pos, EmitItem(rest.atom, rest.quant, Nil))
    ensures var e := EmitItem(rest.atom, rest.quant, Nil);
            Compiling(code', x, pos + BranchSize(e), Join(done, e), b, rest.rest)
  {
    assert Look(0);
    var e := EmitItem(rest.atom, rest.quant, Nil);
    BranchAgree(code, code', x, done);
    JoinLaid(code', x, pos, done, e);
    EmitItemJoin(rest.atom, rest.quant, EmitBranch(rest.rest));
    JoinAssociates(done, e, EmitBranch(rest.rest));
  }

  lemma CompilingStart(code: seq<Cell>, x: nat, b: SrcBranch)
    requires OkSBranch(b) && x <= |code|
    ensures Compiling(code, x, x, Nil, b, b)
  {
  }

  lemma CompilingDone(code: seq<Cell>, x: nat, pos: nat, done: Branch, b: SrcBranch)
    requires Compiling(code, x, pos, done, b, SNil)
    ensures OkSBranch(b) && LaidBranch(code, x, EmitBranch(b)) && pos == x + BranchSize(EmitBranch(b))
  {
    assert Look(0);
    JoinNil(done);
  }

  /** Compiles one branch from pos0 on. `okreturn` says that it must match a character. */
  method CompileBranch(code: array<Cell>, pos0: nat, b: SrcBranch) returns (pos: nat, okreturn: bool)
    requires OkSBranch(b) && pos0 + PreBranch(b) <= code.Length
    modifies code
    ensures LaidBranch(code[..], pos0, EmitBranch(b)) && pos == pos0 + BranchSize(EmitBranch(b))
    ensures okreturn == BranchConsumes(b)
    ensures Agree(old(code[..]), code[..], 0, pos0)
    decreases b, 1
  {
    pos, okreturn := pos0, false;
    var rest := b;
    ghost var done := Nil;
    PreBranchCounts(b);
    CompilingStart(code[..], pos, b);
    while rest.SCons?
      invariant OkSBranch(rest) && Compiling(code[..], pos0, pos, done, b, rest)
      invariant pos0 <= pos && pos + PreBranch(rest) <= code.Length
      invariant BranchConsumes(b) <==> okreturn || BranchConsumes(rest)
      invariant Agree(old(code[..]), code[..], 0, pos0)
      decreases rest
    {
      ghost var c0, e := code[..], EmitItem(rest.atom, rest.quant, Nil);
      PreBranchCounts(rest.rest);
      ItemFits(rest.atom, rest.quant, Nil);
      var end, matched := CompileItem(code, pos, rest.atom, rest.quant);
      CompilingStep(c0, code[..], pos0, pos, done, b, rest);
      AgreeTwice(old(code[..]), c0, code[..], pos0, pos);
      done := Join(done, e);
      if matched { okreturn := true; }
      pos := end;
      rest := rest.rest;
    }
    CompilingDone(code[..], pos0, pos, done, b);
  }

  /** Compiles one item with its quantifier. */
  method CompileItem(code: array<Cell>, pos: nat, a: Atom, q: Quant) returns (end: nat, matched: bool)
    requires OkAtom(a) && OkQuant(q) && (a.Zero? ==> q.Once?) && pos + PreItem(a, q) <= code.Length
    modifies code
    ensures LaidBranch(code[..], pos, EmitItem(a, q, Nil)) && end == pos + BranchSize(EmitItem(a, q, Nil))
    ensures matched == ItemConsumes(a, q)
    ensures Agree(old(code[..]), code[..], 0, pos)
    decreases a
  {
    ItemFits(a, q, Nil);
    match a {
      case Zero(op) =>
        code[pos] := Plain(op);
        OneLaid(code[..], pos, Assert(op));
        end, matched := pos + 1, false;
      case One(it) =>
        matched := q.Once? || q.min > 0;
        end := CompileOne(code, pos, it, q);
      case Paren(number, alts) =>
        ghost var g := EmitParen(a);
        PreItemCounts(a, q);
        ParenFits(a);
        EmitAltsOk(alts);
        var ok;
        end, ok := CompileRegex(code, pos, alts, number);
        matched := ok && (q.Once? || q.min > 0);
        if q.Times? {
          ghost var c0 := code[..];
          end := RepeatGroup(code, pos, end - pos, q.min, q.max, q.lazy, ok, g);
          AgreeTwice(old(code[..]), c0, code[..], pos, pos);
        } else {
          OneLaid(code[..], pos, g);
        }
    }
  }

  method CompileOne(code: array<Cell>, pos: nat, it: Item, q: Quant) returns (end: nat)
    requires OkItem(it) && OkQuant(q) && pos + PreItem(One(it), q) <= code.Length
    modifies code
    ensures LaidBranch(code[..], pos, EmitItem(One(it), q, Nil)) && end == pos + BranchSize(EmitItem(One(it), q, Nil))
    ensures Agree(old(code[..]), code[..], 0, pos)
  {
    WriteItem(code, pos, it);
    end := pos + ItemSize(it);
    if q.Times? {
      ghost var c0 := code[..];
      if it.Set? {
        end := QuantifyClass(code, pos, it, q.min, q.max, q.lazy);
      } else {
        end := QuantifySingle(code, pos, it, q.min, q.max, q.lazy);
      }
      AgreeTwice(old(code[..]), c0, code[..], pos, pos);
    }
  }

  /** Compiles a bracketed group at start: its opening bracket, its branches, and the links once it is closed. */
  method CompileRegex(code: array<Cell>, start: nat, a: SrcAlts, number: nat) returns (end: nat, okreturn: bool)
    requires OkSAlts(a) && number < 65536
    requires start + BRACKETS + (if number > 0 then IMM2_SIZE else 0) + PreAlts(a) <= code.Length
    modifies code
    ensures var g := EmitParen(Paren(number, a)); LaidNode(code[..], start, g) && end == start + NodeSize(g)
    ensures okreturn == AltsConsume(a)
    ensures Agree(old(code[..]), code[..], 0, start)
    decreases a, 2
  {
    AltsFit(a);
    ghost var bra := if number > 0 then OP_CBRA else OP_BRA;
    ghost var bs: seq<Branch>;
    var pos, lastBranch;
    pos, lastBranch, okreturn, bs := CompileBranches(code, start, a, number);
    ghost var c0 := code[..];
    TurnStart(c0, bra, number, start, lastBranch, bs, pos, EmitAlts(a));
    ReverseChain(code, lastBranch, pos, bra, number, start, bs, EmitAlts(a));
    ghost var c1 := code[..];
    code[pos] := WithLink(OP_KET, pos - start);
    end := pos + 1 + LINK_SIZE;
    GroupDone(c1, code[..], bra, number, start, EmitAlts(a), pos);
    AgreeTwice(old(code[..]), c0, c1, start, start);
    AgreeTwice(old(code[..]), c1, code[..], start, start);
  }

  /** The loop for each alternative branch. */
  method CompileBranches(code: array<Cell>, start: nat, a: SrcAlts, number: nat)
      returns (pos: nat, lastBranch: nat, okreturn: bool, ghost bs: seq<Branch>)
    requires OkSAlts(a) && number < 65536
    requires start + BRACKETS + (if number > 0 then IMM2_SIZE else 0) + PreAlts(a) <= code.Length
    modifies code
    ensures var bra := if number > 0 then OP_CBRA else OP_BRA;
            && OpenChain(code[..], bra, number, start, lastBranch, bs) && pos + 3 <= code.Length
            && pos == lastBranch + OpenerSize(bra, |bs| - 1) + BranchSize(bs[|bs| - 1])
    ensures Rebuild(bs, None) == Some(EmitAlts(a))
    ensures okreturn == AltsConsume(a)
    ensures Agree(old(code[..]), code[..], 0, start)
    decreases a, 1
  {
    ghost var bra := if number > 0 then OP_CBRA else OP_BRA;
    okreturn, bs := true, [];
    AltsFit(a);
    lastBranch := start;
    pos := StartBracket(code, start, number);
    var rest := a;
    while true
      invariant OkSAlts(rest) && (rest == a || (a decreases to rest))
      invariant Ready(code[..], bra, number, start, lastBranch, pos, bs) && start < pos
      invariant pos + PreAlts(rest) + 3 <= code.Length
      invariant Rebuild(bs, Some(EmitAlts(rest))) == Some(EmitAlts(a))
      invariant AltsConsume(a) <==> okreturn && AltsConsume(rest)
      invariant Agree(old(code[..]), code[..], 0, start)
      decreases rest
    {
      ghost var c0 := code[..];
      AltsRoom(rest);
      RebuildNext(bs, EmitBranch(rest.branch), if rest.SOr? then Some(EmitAlts(rest.more)) else None);
      var ok;
      pos, ok := CompileAlternative(code, pos, lastBranch, rest.branch, bra, number, start, bs);
      AgreeTwice(old(code[..]), c0, code[..], start, start);
      okreturn := okreturn && ok;
      bs := bs + [EmitBranch(rest.branch)];
      if rest.SLast? { return; }
      ghost var c1 := code[..];
      StartAlternative(code, pos, lastBranch, bra, number, start, bs);
      AgreeTwice(old(code[..]), c1, code[..], start, start);
      lastBranch := pos;
      pos := pos + 1 + LINK_SIZE;
      rest := rest.more;
    }
  }

  lemma AltsRoom(a: SrcAlts)
    requires OkSAlts(a)
    ensures 0 <= PreBranch(a.branch) && BranchSize(EmitBranch(a.branch)) <= PreBranch(a.branch)
    ensures PreAlts(a) == PreBranch(a.branch) + (if a.SOr? then 1 + LINK_SIZE + PreAlts(a.more) else 0)
    ensures a.SOr? ==> PreAlts(a.more) >= 0
  {
    BranchFits(a.branch);
    if a.SOr? { AltsFit(a.more); }
  }

  method CompileAlternative(code: array<Cell>, pos: nat, lastBranch: nat, b: SrcBranch, ghost bra: int, ghost num: nat,
                            ghost start: nat, ghost bs: seq<Branch>)
      returns (end: nat, ok: bool)
    requires OkSBranch(b) && pos + PreBranch(b) <= code.Length && Ready(code[..], bra, num, start, lastBranch, pos, bs)
    modifies code
    ensures IsBracket(bra) && start <= lastBranch < pos
            && OpenChain(code[..], bra, num, start, lastBranch, bs + [EmitBranch(b)])
    ensures end == pos + BranchSize(EmitBranch(b)) == lastBranch + OpenerSize(bra, |bs|) + BranchSize(EmitBranch(b))
    ensures ok == BranchConsumes(b) && Agree(old(code[..]), code[..], 0, start)
    decreases b, 2
  {
    end, ok := CompileBranch(code, pos, b);
    ReadyBranch(old(code[..]), code[..], bra, num, start, lastBranch, pos, bs, EmitBranch(b));
    AgreeTwice(old(code[..]), old(code[..]), code[..], start, pos);
  }

  method StartAlternative(code: array<Cell>, pos: nat, lastBranch: nat, ghost bra: int, ghost num: nat,
                          ghost start: nat, ghost bs: seq<Branch>)
    requires IsBracket(bra) && OpenChain(code[..], bra, num, start, lastBranch, bs)
             && start <= lastBranch < pos < code.Length
    requires pos == lastBranch + OpenerSize(bra, |bs| - 1) + BranchSize(bs[|bs| - 1])
    modifies code
    ensures Ready(code[..], bra, num, start, pos, pos + 1 + LINK_SIZE, bs) && Agree(old(code[..]), code[..], 0, start)
  {
    ReadyAlt(code[..], bra, num, start, lastBranch, pos, bs);
    ghost var c := code[..];
    code[pos] := WithLink(OP_ALT, pos - lastBranch);
    assert code[..] == c[pos := WithLink(OP_ALT, pos - lastBranch)];
  }

  /** The opening bracket, with a zero link to mark that it is still open. */
  method StartBracket(code: array<Cell>, start: nat, number: nat) returns (pos: nat)
    requires start < code.Length
    modifies code
    ensures var bra := if number > 0 then OP_CBRA else OP_BRA;
            Ready(code[..], bra, number, start, start, pos, []) && pos == start + BraSize(bra)
    ensures Agree(old(code[..]), code[..], 0, start)
  {
    code[start] := if number > 0 then WithCapture(OP_CBRA, 0, number) else WithLink(OP_BRA, 0);
    pos := start + 1 + LINK_SIZE + if number > 0 then IMM2_SIZE else 0;
  }

  /** Measures the pattern, gets that much memory, and compiles the pattern into it. The code always fits. */
  method CompilePattern(a: SrcAlts) returns (ok: bool, code: array<Cell>, okreturn: bool)
    requires OkSAlts(a)
    ensures fresh(code)
    ensures ok ==> Compiled(code[..], CodeOf(a)) && okreturn == AltsConsume(a)
    ensures ok && AllKept(a) ==> code.Length == NodeSize(CodeOf(a)) + 1
    ensures !ok ==> 1 + BRACKETS + PreAlts(a) > MAX_PATTERN_SIZE
  {
    var length;
    ok, length := PatternLength(a);
    code := new Cell[length](_ => Operand);
    if !ok { return false, code, false; }
    AltsFit(a);
    EmitAltsOk(a);
    var end;
    end, okreturn := CompileRegex(code, 0, a, 0);
    ghost var c0 := code[..];
    code[end] := Plain(OP_END);
    NodeAgree(c0, code[..], 0, CodeOf(a));
  }
}
