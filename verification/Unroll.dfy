/** How the compiler turns items and their quantifiers into code: single items into EXACT, UPTO, STAR
    and the like, groups into copies, nested optional brackets and repeating brackets. */
module Unroll {
  import opened Opcodes
  import opened Regex
  import opened Layout
  import opened Source
  import opened PossessRewrite

  // --- must the item match a character: matched_char and okreturn ------------------------

  predicate AtomConsumes(a: Atom) {
    match a
    case One(_) => true
    case Zero(_) => false
    case Paren(_, alts) => AltsConsume(alts)
  }

  predicate BranchConsumes(b: SrcBranch) {
    b.SCons? && ((AtomConsumes(b.atom) && (b.quant.Once? || b.quant.min > 0)) || BranchConsumes(b.rest))
  }

  predicate AltsConsume(a: SrcAlts) { BranchConsumes(a.branch) && (a.SOr? ==> AltsConsume(a.more)) }

  // --- the code of an item -----------------------------------------------------------------

  /** A repeat of a literal or a type; `lazy` adds one to the opcode. */
  function Single1(it: Item, op: int, n: nat, lazy: bool): Node {
    Repeat(it, Rep(if lazy then op + 1 else op, 0, n))
  }

  /** A literal or a type with a quantifier. */
  function EmitSingle(it: Item, min: nat, max: int, lazy: bool, t: Branch): Branch
    requires max < 0 || min <= max
  {
    if max == 0 then t
    else if min == 1 && max == 1 then Cons(Single(it), t)
    else if min == 0 then
      Cons(if max < 0 then Single1(it, OP_STAR, 0, lazy)
           else if max == 1 then Single1(it, OP_QUERY, 0, lazy)
           else Single1(it, OP_UPTO, max, lazy), t)
    else if min == 1 then
      (if max < 0 then Cons(Single1(it, OP_PLUS, 0, lazy), t)
       else Cons(Single(it), Cons(Single1(it, OP_UPTO, max - 1, lazy), t)))
    else
      var exact := Single1(it, OP_EXACT, min, false);
      if max == min then Cons(exact, t)
      else
        Cons(exact, Cons(if max < 0 then Single1(it, OP_STAR, 0, lazy)
                         else if max - min == 1 then Single1(it, OP_QUERY, 0, lazy)
                         else Single1(it, OP_UPTO, max - min, lazy), t))
  }

  /** A class with a quantifier. */
  function EmitClass(it: Item, min: nat, max: int, lazy: bool, t: Branch): Branch {
    var d := if lazy then 1 else 0;
    if max == 0 then t
    else if min == 1 && max == 1 then Cons(Single(it), t)
    else
      Cons(Repeat(it, if min == 0 && max < 0 then Rep(OP_CRSTAR + d, 0, 0)
                      else if min == 1 && max < 0 then Rep(OP_CRPLUS + d, 0, 0)
                      else if min == 0 && max == 1 then Rep(OP_CRQUERY + d, 0, 0)
                      else Rep(OP_CRRANGE + d, min, if max < 0 then 0 else max)), t)
  }

  function Copies(g: Node, n: nat, t: Branch): Branch { if n == 0 then t else Cons(g, Copies(g, n - 1, t)) }

  function ZeroOp(lazy: bool): int { if lazy then OP_BRAMINZERO else OP_BRAZERO }

  /** Up to n more copies: BRAZERO ( g BRAZERO ( g ... ) ), where the last copy needs no bracket around it. */
  function Nest(g: Node, n: nat, lazy: bool): Node
    requires n > 0
  {
    if n == 1 then Optional(ZeroOp(lazy), g)
    else Optional(ZeroOp(lazy), Wrap(g, Nest(g, n - 1, lazy)))
  }

  /** A plain bracket around two nodes. */
  function Wrap(g: Node, inner: Node): Node { Group(OP_BRA, 0, Last(Cons(g, Cons(inner, Nil))), OP_KET) }

  /** The copy that repeats without limit; the S form says that it can match an empty string. */
  function Looped(g: Node, lazy: bool, consumes: bool): Node
    requires g.Group?
  {
    Group(if consumes then g.bra else g.bra + OP_SBRA - OP_BRA, g.number, g.alts,
          if lazy then OP_KETRMIN else OP_KETRMAX)
  }

  function EmitGroup(g: Node, min: nat, max: int, lazy: bool, consumes: bool, t: Branch): Branch
    requires g.Group? && (max < 0 || min <= max)
  {
    if min == 1 && max == 1 then Cons(g, t)
    else if max == 0 then Cons(Optional(OP_SKIPZERO, g), t)
    else if max < 0 then
      var loop := Looped(g, lazy, consumes);
      if min == 0 then Cons(Optional(ZeroOp(lazy), loop), t) else Copies(g, min - 1, Cons(loop, t))
    else Copies(g, min, if max == min then t else Cons(Nest(g, max - min, lazy), t))
  }

  function EmitItem(a: Atom, q: Quant, t: Branch): Branch
    requires OkQuant(q)
    decreases a, 1
  {
    match a
    case Zero(op) => Cons(Assert(op), t)
    case One(it) =>
      if q.Once? then Cons(Single(it), t)
      else if it.Set? then EmitClass(it, q.min, q.max, q.lazy, t)
      else EmitSingle(it, q.min, q.max, q.lazy, t)
    case Paren(number, alts) =>
      if !OkSAlts(alts) then t
      else if q.Once? then Cons(EmitParen(a), t)
      else EmitGroup(EmitParen(a), q.min, q.max, q.lazy, AltsConsume(alts), t)
  }

  function EmitParen(a: Atom): (g: Node)
    requires a.Paren? && OkSAlts(a.alts)
    ensures g.Group?
    decreases a, 0
  {
    Group(if a.number > 0 then OP_CBRA else OP_BRA, a.number, EmitAlts(a.alts), OP_KET)
  }

  function EmitBranch(b: SrcBranch): Branch
    requires OkSBranch(b)
    decreases b
  {
    if b.SNil? then Nil else EmitItem(b.atom, b.quant, EmitBranch(b.rest))
  }

  function EmitAlts(a: SrcAlts): Alts
    requires OkSAlts(a)
    decreases a
  {
    if a.SLast? then Last(EmitBranch(a.branch)) else Or(EmitBranch(a.branch), EmitAlts(a.more))
  }

  /** The code of a whole pattern. */
  function CodeOf(a: SrcAlts): (p: Node)
    requires OkSAlts(a)
    ensures p.Group?
  {
    Group(OP_BRA, 0, EmitAlts(a), OP_KET)
  }

  // --- what is emitted is well formed ------------------------------------------------------

  lemma {:induction false} CopiesOk(g: Node, n: nat, t: Branch)
    requires OkNode(g) && OkBranch(t)
    ensures OkBranch(Copies(g, n, t))
  {
    if n > 0 { CopiesOk(g, n - 1, t); }
  }

  lemma WrapSize(g: Node, inner: Node)
    ensures NodeSize(Wrap(g, inner)) == NodeSize(g) + NodeSize(inner) + 6
  {
    assert BranchSize(Cons(inner, Nil)) == NodeSize(inner);
    assert BranchSize(Cons(g, Cons(inner, Nil))) == NodeSize(g) + NodeSize(inner);
  }

  lemma WrapOk(g: Node, inner: Node)
    requires OkNode(g) && OkNode(inner)
    ensures OkNode(Wrap(g, inner))
  {
    assert OkBranch(Cons(inner, Nil));
    assert OkBranch(Cons(g, Cons(inner, Nil)));
  }

  lemma {:induction false} NestOk(g: Node, n: nat, lazy: bool)
    requires n > 0 && g.Group? && OkNode(g)
    ensures OkNode(Nest(g, n, lazy))
  {
    if n > 1 {
      NestOk(g, n - 1, lazy);
      WrapOk(g, Nest(g, n - 1, lazy));
    }
  }

  lemma EmitGroupOk(g: Node, min: nat, max: int, lazy: bool, consumes: bool, t: Branch)
    requires g.Group? && OkNode(g) && (g.bra == OP_BRA || g.bra == OP_CBRA) && (max < 0 || min <= max) && OkBranch(t)
    ensures OkBranch(EmitGroup(g, min, max, lazy, consumes, t))
  {
    if (min == 1 && max == 1) || max == 0 {
    } else if max < 0 {
      assert OkNode(Looped(g, lazy, consumes));
      if min > 0 { CopiesOk(g, min - 1, Cons(Looped(g, lazy, consumes), t)); }
    } else {
      if max > min { NestOk(g, max - min, lazy); }
      CopiesOk(g, min, if max == min then t else Cons(Nest(g, max - min, lazy), t));
    }
  }

  lemma EmitOneOk(it: Item, q: Quant, t: Branch)
    requires OkItem(it) && OkQuant(q) && q.Times? && OkBranch(t)
    ensures OkBranch(if it.Set? then EmitClass(it, q.min, q.max, q.lazy, t)
                     else EmitSingle(it, q.min, q.max, q.lazy, t))
  {
    if !it.Set? { EmitSingleOk(it, q, t); }
  }

  lemma EmitSingleOk(it: Item, q: Quant, t: Branch)
    requires OkItem(it) && !it.Set? && OkQuant(q) && q.Times? && OkBranch(t)
    ensures OkBranch(EmitSingle(it, q.min, q.max, q.lazy, t))
  {
    var out := EmitSingle(it, q.min, q.max, q.lazy, t);
    if out != t {
      assert OkNode(out.head);
      if out.tail != t { assert OkNode(out.tail.head) && out.tail.tail == t; }
    }
  }

  lemma {:induction false} EmitItemOk(a: Atom, q: Quant, t: Branch)
    requires OkAtom(a) && OkQuant(q) && OkBranch(t)
    ensures OkBranch(EmitItem(a, q, t))
    decreases a
  {
    match a
    case Zero(_) =>
    case One(it) => if q.Times? { EmitOneOk(it, q, t); }
    case Paren(_, alts) =>
      EmitAltsOk(alts);
      if q.Times? { EmitGroupOk(EmitParen(a), q.min, q.max, q.lazy, AltsConsume(alts), t); }
  }

  lemma {:induction false} EmitBranchOk(b: SrcBranch)
    requires OkSBranch(b)
    ensures OkBranch(EmitBranch(b))
    decreases b
  {
    if b.SCons? {
      EmitBranchOk(b.rest);
      EmitItemOk(b.atom, b.quant, EmitBranch(b.rest));
    }
  }

  lemma {:induction false} EmitAltsOk(a: SrcAlts)
    requires OkSAlts(a)
    ensures OkAlts(EmitAlts(a))
    decreases a
  {
    EmitBranchOk(a.branch);
    if a.SOr? { EmitAltsOk(a.more); }
  }
}
