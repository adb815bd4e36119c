/** Capturing groups are numbered in the order in which they are opened, and that order is kept in the compiled code:
    first occurrences of group numbers increase, which the search for a group relies on. */
module Numbering {
  import opened Opcodes
  import opened Regex
  import opened Layout
  import opened Source
  import opened Unroll
  import opened Recursions

  function Higher(m: nat, n: nat): nat { if n > m then n else m }

  // --- along the code --------------------------------------------------------------------

  /** Going on from p, a capturing bracket has a number that has occurred already, or the next one after the highest so
      far. */
  predicate Climbs(code: seq<Cell>, p: nat, m: nat)
    requires Walks(code, p)
    decreases |code| - p
  {
    OpOf(code[p]) == OP_END ||
    if IsCapture(OpOf(code[p])) && code[p].WithCapture? then
      0 < code[p].num <= m + 1 && Climbs(code, Next(code, p), Higher(m, code[p].num))
    else Climbs(code, Next(code, p), m)
  }

  /** A number above the highest so far comes after all the numbers in between. */
  lemma {:induction false} ClimbsBetween(code: seq<Cell>, p: nat, m: nat, k: int, n: int)
    requires Walks(code, p) && Climbs(code, p, m) && m < k < n && Find(code, p, n).Some?
    ensures Find(code, p, k).Some? && Find(code, p, k).value < Find(code, p, n).value
    decreases |code| - p
  {
    FindComes(code, p, n);
    if IsGroup(code[p], k) {
    } else if IsCapture(OpOf(code[p])) && code[p].WithCapture? {
      ClimbsBetween(code, Next(code, p), Higher(m, code[p].num), k, n);
    } else {
      ClimbsBetween(code, Next(code, p), m, k, n);
    }
  }

  lemma {:induction false} NoneBelow(code: seq<Cell>, p: nat, m: nat, k: int)
    requires Walks(code, p) && Climbs(code, p, m) && k <= 0
    ensures Find(code, p, k).None?
    decreases |code| - p
  {
    if OpOf(code[p]) != OP_END {
      var next := if IsCapture(OpOf(code[p])) && code[p].WithCapture? then Higher(m, code[p].num) else m;
      NoneBelow(code, Next(code, p), next, k);
    }
  }

  lemma ClimbsInOrder(code: seq<Cell>)
    requires Walks(code, 0) && Climbs(code, 0, 0)
    ensures InOrder(code)
  {
    forall m: int, n: int | m < n && Find(code, 0, m).Some? && Find(code, 0, n).Some?
      ensures Find(code, 0, m).value < Find(code, 0, n).value
    {
      if m <= 0 { NoneBelow(code, 0, 0, m); }
      ClimbsBetween(code, 0, 0, m, n);
    }
  }

  // --- along the pattern that the code lays out ----------------------------------------------

  /** The highest number in the node, or m if that is higher. */
  function TopNode(n: Node, m: nat): nat {
    match n
    case Group(bra, num, alts, _) => TopAlts(alts, if IsCapture(bra) then Higher(m, num) else m)
    case Optional(_, g) => TopNode(g, m)
    case _ => m
  }

  function TopAlts(a: Alts, m: nat): nat {
    if a.Or? then TopAlts(a.more, TopBranch(a.branch, m)) else TopBranch(a.branch, m)
  }

  function TopBranch(b: Branch, m: nat): nat { if b.Nil? then m else TopBranch(b.tail, TopNode(b.head, m)) }

  /** No number in the node is more than one above the highest before it. */
  predicate RisesNode(n: Node, m: nat) {
    match n
    case Group(bra, num, alts, _) =>
      (IsCapture(bra) ==> 0 < num <= m + 1) && RisesAlts(alts, if IsCapture(bra) then Higher(m, num) else m)
    case Optional(_, g) => RisesNode(g, m)
    case _ => true
  }

  predicate RisesAlts(a: Alts, m: nat) {
    RisesBranch(a.branch, m) && (a.Or? ==> RisesAlts(a.more, TopBranch(a.branch, m)))
  }

  predicate RisesBranch(b: Branch, m: nat) {
    b.Nil? || (RisesNode(b.head, m) && RisesBranch(b.tail, TopNode(b.head, m)))
  }

  /** The walk from p goes on well when the highest number so far is m. */
  predicate Good(code: seq<Cell>, p: nat, m: nat) { Walks(code, p) && Climbs(code, p, m) }

  /** One opcode that is not a capturing bracket. */
  lemma GoodStep(code: seq<Cell>, x: nat, y: nat, m: nat)
    requires x < |code| && OpOf(code[x]) != OP_END && !IsCapture(OpOf(code[x])) && y == Next(code, x)
             && Good(code, y, m)
    ensures Good(code, x, m)
  {
  }

  lemma ItemGood(code: seq<Cell>, x: nat, y: nat, n: Node, m: nat)
    requires !n.Group? && !n.Optional? && LaidNode(code, x, n) && OkNode(n) && y == x + NodeSize(n) && Good(code, y, m)
    ensures Good(code, x, m)
  {
    NodeClass(code, x, n);
    if n.Repeat? && n.item.Set? {
      GoodStep(code, x + 1 + CLASS_SIZE, y, m);
      GoodStep(code, x, x + 1 + CLASS_SIZE, m);
    } else {
      if n.Repeat? { RepeatOpcode(n.item, n.rep); }
      GoodStep(code, x, y, m);
    }
  }

  /** The closing bracket of a group at x, and the highest number after its opening bracket. */
  lemma GroupEnd(code: seq<Cell>, x: nat, y: nat, n: Node, m: nat) returns (k: nat, first: nat, m': nat)
    requires n.Group? && LaidNode(code, x, n) && OkNode(n) && RisesNode(n, m) && y == x + NodeSize(n)
             && Good(code, y, TopNode(n, m))
    ensures first == x + BraSize(n.bra) && m' == if IsCapture(n.bra) then Higher(m, n.number) else m
    ensures LaidAlts(code, first, n.alts) && OkAlts(n.alts) && RisesAlts(n.alts, m') && k == first + AltsSize(n.alts)
    ensures Good(code, k, TopAlts(n.alts, m'))
  {
    k := GroupOpen(code, x, n);
    first, m' := x + BraSize(n.bra), if IsCapture(n.bra) then Higher(m, n.number) else m;
    assert TopNode(n, m) == TopAlts(n.alts, m');
    GoodStep(code, k, y, TopAlts(n.alts, m'));
  }

  lemma GroupStart(code: seq<Cell>, x: nat, first: nat, n: Node, m: nat, m': nat)
    requires n.Group? && LaidNode(code, x, n) && OkNode(n) && RisesNode(n, m) && first == x + BraSize(n.bra)
    requires m' == (if IsCapture(n.bra) then Higher(m, n.number) else m) && Good(code, first, m')
    ensures Good(code, x, m)
  {
    var k := GroupOpen(code, x, n);
    if !IsCapture(n.bra) { GoodStep(code, x, first, m); }
  }

  lemma {:induction false} NodeGood(code: seq<Cell>, x: nat, y: nat, n: Node, m: nat)
    requires LaidNode(code, x, n) && OkNode(n) && RisesNode(n, m) && y == x + NodeSize(n)
             && Good(code, y, TopNode(n, m))
    ensures Good(code, x, m)
    decreases n
  {
    match n
    case Group(bra, num, alts, ket) =>
      var k, first, m' := GroupEnd(code, x, y, n, m);
      AltsGood(code, first, k, alts, m');
      GroupStart(code, x, first, n, m, m');
    case Optional(op, g) =>
      NodeGood(code, x + 1, y, g, m);
      GoodStep(code, x, x + 1, m);
    case _ => ItemGood(code, x, y, n, m);
  }

  lemma {:induction false} AltsGood(code: seq<Cell>, x: nat, ket: nat, a: Alts, m: nat)
    requires LaidAlts(code, x, a) && OkAlts(a) && RisesAlts(a, m) && ket == x + AltsSize(a)
             && Good(code, ket, TopAlts(a, m))
    ensures Good(code, x, m)
    decreases a
  {
    if a.Or? {
      var k, next := FirstAlt(code, x, a);
      var m' := TopBranch(a.branch, m);
      AltsGood(code, next, ket, a.more, m');
      GoodStep(code, k, next, m');
      BranchGood(code, x, k, a.branch, m);
    } else {
      BranchGood(code, x, ket, a.branch, m);
    }
  }

  lemma {:induction false} BranchGood(code: seq<Cell>, x: nat, y: nat, b: Branch, m: nat)
    requires LaidBranch(code, x, b) && OkBranch(b) && RisesBranch(b, m) && y == x + BranchSize(b)
             && Good(code, y, TopBranch(b, m))
    ensures Good(code, x, m)
    decreases b
  {
    if b.Cons? {
      var z := x + NodeSize(b.head);
      BranchGood(code, z, y, b.tail, TopNode(b.head, m));
      NodeGood(code, x, z, b.head, m);
    }
  }

  // --- from the numbering of the source ---------------------------------------------------------

  /** The highest number given when m have been given before. */
  function TopSource(a: SrcAlts, m: nat): nat {
    if a.SOr? then TopSource(a.more, TopSBranch(a.branch, m)) else TopSBranch(a.branch, m)
  }

  function TopSBranch(b: SrcBranch, m: nat): nat { if b.SNil? then m else TopSBranch(b.rest, TopAtom(b.atom, m)) }

  function TopAtom(a: Atom, m: nat): nat {
    if a.Paren? then TopSource(a.alts, if a.number > 0 then a.number else m) else m
  }

  /** Each capturing group gets the next number when it is opened; m have been given before. */
  predicate NumbersFrom(a: SrcAlts, m: nat) {
    NumbersSBranch(a.branch, m) && (a.SOr? ==> NumbersFrom(a.more, TopSBranch(a.branch, m)))
  }

  predicate NumbersSBranch(b: SrcBranch, m: nat) {
    b.SCons? ==> NumbersAtom(b.atom, m) && NumbersSBranch(b.rest, TopAtom(b.atom, m))
  }

  predicate NumbersAtom(a: Atom, m: nat) {
    a.Paren? ==> (a.number > 0 ==> a.number == m + 1) && NumbersFrom(a.alts, if a.number > 0 then a.number else m)
  }

  lemma {:induction false} TopNodeGrows(n: Node, m: nat)
    ensures TopNode(n, m) >= m
    decreases n
  {
    match n
    case Group(bra, num, alts, _) => TopAltsGrows(alts, if IsCapture(bra) then Higher(m, num) else m);
    case Optional(_, g) => TopNodeGrows(g, m);
    case _ =>
  }

  lemma {:induction false} TopAltsGrows(a: Alts, m: nat)
    ensures TopAlts(a, m) >= TopBranch(a.branch, m) >= m
    decreases a
  {
    TopBranchGrows(a.branch, m);
    if a.Or? { TopAltsGrows(a.more, TopBranch(a.branch, m)); }
  }

  lemma {:induction false} TopBranchGrows(b: Branch, m: nat)
    ensures TopBranch(b, m) >= m
    decreases b
  {
    if b.Cons? {
      TopNodeGrows(b.head, m);
      TopBranchGrows(b.tail, TopNode(b.head, m));
    }
  }

  /** A copy adds no new number. */
  lemma {:induction false} CopyNode(n: Node, m: nat, t: nat)
    requires RisesNode(n, m) && TopNode(n, m) <= t
    ensures RisesNode(n, t) && TopNode(n, t) == t
    decreases n
  {
    match n
    case Group(bra, num, alts, _) =>
      var m' := if IsCapture(bra) then Higher(m, num) else m;
      TopAltsGrows(alts, m');
      CopyAlts(alts, m', t);
    case Optional(_, g) => CopyNode(g, m, t);
    case _ =>
  }

  lemma {:induction false} CopyAlts(a: Alts, m: nat, t: nat)
    requires RisesAlts(a, m) && TopAlts(a, m) <= t
    ensures RisesAlts(a, t) && TopAlts(a, t) == t
    decreases a
  {
    TopAltsGrows(a, m);
    CopyBranch(a.branch, m, t);
    if a.Or? { CopyAlts(a.more, TopBranch(a.branch, m), t); }
  }

  lemma {:induction false} CopyBranch(b: Branch, m: nat, t: nat)
    requires RisesBranch(b, m) && TopBranch(b, m) <= t
    ensures RisesBranch(b, t) && TopBranch(b, t) == t
    decreases b
  {
    if b.Cons? {
      TopBranchGrows(b.tail, TopNode(b.head, m));
      CopyNode(b.head, m, t);
      CopyBranch(b.tail, TopNode(b.head, m), t);
    }
  }

  lemma {:induction false} CopiesRise(g: Node, n: nat, t: Branch, m: nat)
    requires RisesNode(g, m) && TopNode(g, m) == m && RisesBranch(t, m)
    ensures RisesBranch(Copies(g, n, t), m) && TopBranch(Copies(g, n, t), m) == TopBranch(t, m)
  {
    if n > 0 { CopiesRise(g, n - 1, t, m); }
  }

  lemma {:induction false} NestRises(g: Node, n: nat, lazy: bool, m: nat)
    requires n > 0 && RisesNode(g, m)
    ensures RisesNode(Nest(g, n, lazy), m) && TopNode(Nest(g, n, lazy), m) == TopNode(g, m)
  {
    if n > 1 {
      var top, inner := TopNode(g, m), Nest(g, n - 1, lazy);
      CopyNode(g, m, top);
      NestRises(g, n - 1, lazy, top);
      WrapRises(g, inner, m, top);
    } else {
      assert Nest(g, 1, lazy) == Optional(ZeroOp(lazy), g);
    }
  }

  lemma WrapRises(g: Node, inner: Node, m: nat, top: nat)
    requires RisesNode(g, m) && TopNode(g, m) == top && RisesNode(inner, top) && TopNode(inner, top) == top
    ensures RisesNode(Wrap(g, inner), m) && TopNode(Wrap(g, inner), m) == top
  {
    var b := Cons(inner, Nil);
    assert TopBranch(Nil, top) == top;
    assert RisesBranch(b, top) && TopBranch(b, top) == top;
    assert RisesBranch(Cons(g, b), m) && TopBranch(Cons(g, b), m) == top;
  }

  lemma ConsRises(n: Node, t: Branch, m: nat, top: nat)
    requires RisesNode(n, m) && TopNode(n, m) == top && RisesBranch(t, top)
    ensures RisesBranch(Cons(n, t), m) && TopBranch(Cons(n, t), m) == TopBranch(t, top)
  {
  }

  /** A first copy, and more copies after it. */
  lemma FirstRises(g: Node, n: nat, t: Branch, m: nat, top: nat)
    requires n > 0 && RisesNode(g, m) && TopNode(g, m) == top && RisesBranch(t, top)
    ensures RisesBranch(Copies(g, n, t), m) && TopBranch(Copies(g, n, t), m) == TopBranch(t, top)
  {
    CopyNode(g, m, top);
    CopiesRise(g, n - 1, t, top);
    ConsRises(g, Copies(g, n - 1, t), m, top);
  }

  lemma LoopRises(g: Node, lazy: bool, consumes: bool, m: nat)
    requires g.Group? && (g.bra == OP_BRA || g.bra == OP_CBRA) && RisesNode(g, m)
    ensures RisesNode(Looped(g, lazy, consumes), m) && TopNode(Looped(g, lazy, consumes), m) == TopNode(g, m)
  {
  }

  lemma OptionRises(op: int, g: Node, t: Branch, m: nat, top: nat)
    requires RisesNode(g, m) && TopNode(g, m) == top && RisesBranch(t, top)
    ensures RisesBranch(Cons(Optional(op, g), t), m) && TopBranch(Cons(Optional(op, g), t), m) == TopBranch(t, top)
  {
    ConsRises(Optional(op, g), t, m, top);
  }

  /** The last copy is repeated without limit. */
  lemma LoopedRises(g: Node, min: nat, lazy: bool, consumes: bool, t: Branch, m: nat, top: nat)
    requires g.Group? && (g.bra == OP_BRA || g.bra == OP_CBRA) && RisesNode(g, m) && top == TopNode(g, m)
    requires RisesBranch(t, top) && RisesNode(g, top) && TopNode(g, top) == top
    ensures var b := EmitGroup(g, min, -1, lazy, consumes, t); RisesBranch(b, m) && TopBranch(b, m) == TopBranch(t, top)
  {
    var loop := Looped(g, lazy, consumes);
    LoopRises(g, lazy, consumes, m);
    LoopRises(g, lazy, consumes, top);
    if min == 0 { OptionRises(ZeroOp(lazy), loop, t, m, top); }
    else if min == 1 { ConsRises(loop, t, m, top); }
    else {
      ConsRises(loop, t, top, top);
      FirstRises(g, min - 1, Cons(loop, t), m, top);
    }
  }

  lemma GroupRises(g: Node, min: nat, max: int, lazy: bool, consumes: bool, t: Branch, m: nat)
    requires g.Group? && (g.bra == OP_BRA || g.bra == OP_CBRA) && (max < 0 || min <= max)
    requires RisesNode(g, m) && RisesBranch(t, TopNode(g, m))
    ensures RisesBranch(EmitGroup(g, min, max, lazy, consumes, t), m)
    ensures TopBranch(EmitGroup(g, min, max, lazy, consumes, t), m) == TopBranch(t, TopNode(g, m))
  {
    var top := TopNode(g, m);
    CopyNode(g, m, top);
    if min == 1 && max == 1 {
      ConsRises(g, t, m, top);
    } else if max == 0 {
      OptionRises(OP_SKIPZERO, g, t, m, top);
    } else if max < 0 {
      LoopedRises(g, min, lazy, consumes, t, m, top);
    } else {
      CountRises(g, min, max - min, lazy, t, m, top);
    }
  }

  lemma CountRises(g: Node, min: nat, more: nat, lazy: bool, t: Branch, m: nat, top: nat)
    requires g.Group? && min + more > 0 && RisesNode(g, m) && TopNode(g, m) == top && RisesBranch(t, top)
    ensures var b := Copies(g, min, if more == 0 then t else Cons(Nest(g, more, lazy), t));
            RisesBranch(b, m) && TopBranch(b, m) == TopBranch(t, top)
  {
    CopyNode(g, m, top);
    if more == 0 {
      FirstRises(g, min, t, m, top);
    } else {
      var nest := Nest(g, more, lazy);
      if min == 0 {
        NestRises(g, more, lazy, m);
        ConsRises(nest, t, m, top);
      } else {
        NestRises(g, more, lazy, top);
        ConsRises(nest, t, top, top);
        FirstRises(g, min, Cons(nest, t), m, top);
      }
    }
  }

  lemma PlainCons(n: Node, t: Branch, m: nat)
    requires !n.Group? && !n.Optional?
    ensures RisesBranch(Cons(n, t), m) == RisesBranch(t, m) && TopBranch(Cons(n, t), m) == TopBranch(t, m)
  {
    assert TopNode(n, m) == m && RisesNode(n, m);
  }

  lemma OneRises(it: Item, q: Quant, t: Branch, m: nat)
    requires OkItem(it) && OkQuant(q) && q.Times? && RisesBranch(t, m)
    ensures var b := if it.Set? then EmitClass(it, q.min, q.max, q.lazy, t)
            else EmitSingle(it, q.min, q.max, q.lazy, t);
            RisesBranch(b, m) && TopBranch(b, m) == TopBranch(t, m)
  {
    var out := if it.Set? then EmitClass(it, q.min, q.max, q.lazy, t) else EmitSingle(it, q.min, q.max, q.lazy, t);
    if out != t {
      if out.tail != t {
        assert out.tail.tail == t;
        PlainCons(out.tail.head, t, m);
      }
      PlainCons(out.head, out.tail, m);
    }
  }

  lemma {:induction false} ItemRises(a: Atom, q: Quant, t: Branch, m: nat)
    requires OkAtom(a) && OkQuant(q) && NumbersAtom(a, m) && RisesBranch(t, TopAtom(a, m))
    ensures RisesBranch(EmitItem(a, q, t), m) && TopBranch(EmitItem(a, q, t), m) == TopBranch(t, TopAtom(a, m))
    decreases a
  {
    match a
    case Zero(op) => PlainCons(Assert(op), t, m);
    case One(it) => if q.Times? { OneRises(it, q, t, m); } else { PlainCons(Single(it), t, m); }
    case Paren(number, alts) =>
      AltsRise(alts, if number > 0 then number else m);
      var g := EmitParen(a);
      assert RisesNode(g, m) && TopNode(g, m) == TopAtom(a, m);
      if q.Times? { GroupRises(g, q.min, q.max, q.lazy, AltsConsume(alts), t, m); }
  }

  lemma {:induction false} BranchRises(b: SrcBranch, m: nat)
    requires OkSBranch(b) && NumbersSBranch(b, m)
    ensures RisesBranch(EmitBranch(b), m) && TopBranch(EmitBranch(b), m) == TopSBranch(b, m)
    decreases b
  {
    if b.SCons? {
      BranchRises(b.rest, TopAtom(b.atom, m));
      ItemRises(b.atom, b.quant, EmitBranch(b.rest), m);
    }
  }

  lemma {:induction false} AltsRise(a: SrcAlts, m: nat)
    requires OkSAlts(a) && NumbersFrom(a, m)
    ensures RisesAlts(EmitAlts(a), m) && TopAlts(EmitAlts(a), m) == TopSource(a, m)
    decreases a
  {
    BranchRises(a.branch, m);
    if a.SOr? { AltsRise(a.more, TopSBranch(a.branch, m)); }
  }

  /** The numbers of the capturing brackets that the walk from p meets, one after the other. */
  function Met(code: seq<Cell>, p: nat): seq<nat>
    requires Walks(code, p)
    decreases |code| - p
  {
    if OpOf(code[p]) == OP_END then []
    else if IsCapture(OpOf(code[p])) && code[p].WithCapture? then [code[p].num] + Met(code, Next(code, p))
    else Met(code, Next(code, p))
  }

  lemma MetFirst(code: seq<Cell>, p: nat)
    requires Walks(code, p) && Met(code, p) != [] && IsCapture(OpOf(code[p])) && code[p].WithCapture?
    ensures Met(code, p)[0] == code[p].num && Met(code, p)[1..] == Met(code, Next(code, p))
  {
  }

  /** Two walks that meet the same brackets climb in the same way, whatever other opcodes they come to. */
  lemma {:induction false} SameClimb(code: seq<Cell>, p: nat, c: seq<Cell>, q: nat, m: nat)
    requires Walks(code, p) && Walks(c, q) && Met(code, p) == Met(c, q) && Climbs(code, p, m)
    ensures Climbs(c, q, m)
    decreases |code| - p + |c| - q
  {
    if OpOf(code[p]) != OP_END && !(IsCapture(OpOf(code[p])) && code[p].WithCapture?) {
      SameClimb(code, Next(code, p), c, q, m);
    } else if OpOf(c[q]) != OP_END && !(IsCapture(OpOf(c[q])) && c[q].WithCapture?) {
      SameClimb(code, p, c, Next(c, q), m);
    } else if OpOf(code[p]) != OP_END {
      MetFirst(code, p);
      MetFirst(c, q);
      SameClimb(code, Next(code, p), c, Next(c, q), Higher(m, code[p].num));
    }
  }

  lemma CompiledClimbs(a: SrcAlts, code: seq<Cell>)
    requires OkSAlts(a) && NumbersFrom(a, 0) && Compiled(code, CodeOf(a))
    ensures Walks(code, 0) && Climbs(code, 0, 0)
  {
    var p := CodeOf(a);
    AltsRise(a, 0);
    assert Good(code, NodeSize(p), TopNode(p, 0));
    NodeGood(code, 0, NodeSize(p), p, 0);
  }

  /** In the code of a pattern whose groups have been numbered as they were opened, first occurrences of the numbers
      increase, however often groups have been copied. */
  lemma CompiledInOrder(a: SrcAlts, code: seq<Cell>)
    requires OkSAlts(a) && NumbersFrom(a, 0) && Compiled(code, CodeOf(a))
    ensures Walks(code, 0) && InOrder(code)
  {
    CompiledClimbs(a, code);
    ClimbsInOrder(code);
  }

  /** The same in code that meets the brackets of the pattern in the same order and has references, or any other
      opcodes, between them. */
  lemma ReferencesInOrder(a: SrcAlts, code: seq<Cell>, c: seq<Cell>)
    requires OkSAlts(a) && NumbersFrom(a, 0) && Compiled(code, CodeOf(a))
    requires Walks(code, 0) && Walks(c, 0) && Met(c, 0) == Met(code, 0)
    ensures InOrder(c)
  {
    CompiledClimbs(a, code);
    SameClimb(code, 0, c, 0, 0);
    ClimbsInOrder(c);
  }
}
