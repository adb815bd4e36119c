/** What the compiler knows about a pattern while it emits code, and what the study pass finds in that code. */
module EmitStudy {
  import opened Opcodes
  import opened Regex
  import opened Language
  import opened Layout
  import opened Source
  import opened Unroll
  import opened StudyMin

  // --- matching at least one character ----------------------------------------------------

  lemma {:induction false} CopiesShortest(g: Node, n: nat, t: Branch)
    ensures ShortestBranch(Copies(g, n, t)) >= ShortestBranch(t)
    ensures n > 0 ==> ShortestBranch(Copies(g, n, t)) >= Shortest(g) + ShortestBranch(t)
    ensures n == 0 || Shortest(g) == 0 ==> ShortestBranch(Copies(g, n, t)) == ShortestBranch(t)
  {
    if n > 0 { CopiesShortest(g, n - 1, t); }
  }

  lemma GroupShortest(g: Node, min: nat, max: int, lazy: bool, consumes: bool, t: Branch)
    requires g.Group? && (max < 0 || min <= max)
    ensures ShortestBranch(EmitGroup(g, min, max, lazy, consumes, t)) > 0 <==>
              (Shortest(g) > 0 && min > 0) || ShortestBranch(t) > 0
  {
    var loop := Looped(g, lazy, consumes);
    assert Shortest(loop) == Shortest(g);
    if max < 0 && min > 0 && !(min == 1 && max == 1) {
      CopiesShortest(g, min - 1, Cons(loop, t));
    } else if max > 0 && !(min == 1 && max == 1) {
      var t' := if max == min then t else Cons(Nest(g, max - min, lazy), t);
      assert ShortestBranch(t') == ShortestBranch(t);
      CopiesShortest(g, min, t');
    }
  }

  lemma OneShortest(it: Item, q: Quant, t: Branch)
    requires OkItem(it) && OkQuant(q) && q.Times?
    ensures ShortestBranch(if it.Set? then EmitClass(it, q.min, q.max, q.lazy, t)
                           else EmitSingle(it, q.min, q.max, q.lazy, t)) > 0
            <==> q.min > 0 || ShortestBranch(t) > 0
  {
    var out := if it.Set? then EmitClass(it, q.min, q.max, q.lazy, t) else EmitSingle(it, q.min, q.max, q.lazy, t);
    if out != t && out.tail != t { assert out.tail.tail == t; }
  }

  lemma {:induction false} ItemShortest(a: Atom, q: Quant, t: Branch)
    requires OkAtom(a) && OkQuant(q)
    ensures ShortestBranch(EmitItem(a, q, t)) > 0 <==>
              (AtomConsumes(a) && (q.Once? || q.min > 0)) || ShortestBranch(t) > 0
    decreases a
  {
    match a
    case Zero(_) =>
    case One(it) => if q.Times? { OneShortest(it, q, t); }
    case Paren(_, alts) =>
      ConsumesShortest(alts);
      if q.Times? { GroupShortest(EmitParen(a), q.min, q.max, q.lazy, AltsConsume(alts), t); }
  }

  lemma {:induction false} BranchShortest(b: SrcBranch)
    requires OkSBranch(b)
    ensures BranchConsumes(b) <==> ShortestBranch(EmitBranch(b)) > 0
    decreases b
  {
    if b.SCons? {
      BranchShortest(b.rest);
      ItemShortest(b.atom, b.quant, EmitBranch(b.rest));
    }
  }

  /** The compiler finds that a group must match at least one character exactly when the study pass finds that its
      shortest match is not empty. */
  lemma {:induction false} ConsumesShortest(a: SrcAlts)
    requires OkSAlts(a)
    ensures AltsConsume(a) <==> ShortestAlts(EmitAlts(a)) > 0
    decreases a
  {
    BranchShortest(a.branch);
    if a.SOr? { ConsumesShortest(a.more); }
  }

  // --- what the scan for the minimum length relies on ------------------------------------------

  /** Each capturing number belongs to one group; `named` says to which. */
  ghost predicate Numbered(a: SrcAlts, named: nat -> SrcAlts) {
    NumberedBranch(a.branch, named) && (a.SOr? ==> Numbered(a.more, named))
  }

  ghost predicate NumberedBranch(b: SrcBranch, named: nat -> SrcAlts) {
    b.SCons? ==> NumberedAtom(b.atom, named) && NumberedBranch(b.rest, named)
  }

  ghost predicate NumberedAtom(a: Atom, named: nat -> SrcAlts) {
    a.Paren? ==> Numbered(a.alts, named) && (a.number > 0 ==> a.alts == named(a.number))
  }

  ghost function LengthNamed(named: nat -> SrcAlts): nat -> nat {
    (n: nat) => if OkSAlts(named(n)) then ShortestAlts(EmitAlts(named(n))) else 0
  }

  lemma {:induction false} CopiesTidy(g: Node, n: nat, t: Branch, dup: bool, len: nat -> nat)
    requires Tidy(g, dup, len) && TidyBranch(t, dup, len)
    ensures TidyBranch(Copies(g, n, t), dup, len)
  {
    if n > 0 { CopiesTidy(g, n - 1, t, dup, len); }
  }

  lemma {:induction false} NestTidy(g: Node, n: nat, lazy: bool, dup: bool, len: nat -> nat)
    requires n > 0 && Tidy(g, dup, len)
    ensures Tidy(Nest(g, n, lazy), dup, len)
  {
    if n > 1 {
      NestTidy(g, n - 1, lazy, dup, len);
      WrapTidy(g, Nest(g, n - 1, lazy), dup, len);
    }
  }

  lemma WrapTidy(g: Node, inner: Node, dup: bool, len: nat -> nat)
    requires Tidy(g, dup, len) && Tidy(inner, dup, len)
    ensures Tidy(Wrap(g, inner), dup, len)
  {
    assert TidyBranch(Cons(inner, Nil), dup, len);
    assert TidyBranch(Cons(g, Cons(inner, Nil)), dup, len);
  }

  lemma GroupTidy(g: Node, min: nat, max: int, lazy: bool, consumes: bool, t: Branch, dup: bool, len: nat -> nat)
    requires g.Group? && (g.bra == OP_BRA || g.bra == OP_CBRA) && (max < 0 || min <= max)
             && (!consumes ==> Shortest(g) == 0)
    requires Tidy(g, dup, len) && TidyBranch(t, dup, len)
    ensures TidyBranch(EmitGroup(g, min, max, lazy, consumes, t), dup, len)
  {
    if (min == 1 && max == 1) || max == 0 {
    } else if max < 0 {
      var loop := Looped(g, lazy, consumes);
      assert Tidy(loop, dup, len);
      if min > 0 { CopiesTidy(g, min - 1, Cons(loop, t), dup, len); }
    } else {
      if max > min { NestTidy(g, max - min, lazy, dup, len); }
      CopiesTidy(g, min, if max == min then t else Cons(Nest(g, max - min, lazy), t), dup, len);
    }
  }

  lemma OneTidy(it: Item, q: Quant, t: Branch, dup: bool, len: nat -> nat)
    requires OkItem(it) && OkQuant(q) && q.Times? && TidyBranch(t, dup, len)
    ensures TidyBranch(if it.Set? then EmitClass(it, q.min, q.max, q.lazy, t)
                       else EmitSingle(it, q.min, q.max, q.lazy, t), dup, len)
  {
    var out := if it.Set? then EmitClass(it, q.min, q.max, q.lazy, t) else EmitSingle(it, q.min, q.max, q.lazy, t);
    if out != t {
      assert Tidy(out.head, dup, len);
      if out.tail != t { assert Tidy(out.tail.head, dup, len) && out.tail.tail == t; }
    }
  }

  lemma {:induction false} ItemTidy(a: Atom, q: Quant, t: Branch, dup: bool, named: nat -> SrcAlts)
    requires OkAtom(a) && OkQuant(q) && (dup || NumberedAtom(a, named)) && TidyBranch(t, dup, LengthNamed(named))
    ensures TidyBranch(EmitItem(a, q, t), dup, LengthNamed(named))
    decreases a
  {
    match a
    case Zero(_) =>
    case One(it) => if q.Times? { OneTidy(it, q, t, dup, LengthNamed(named)); }
    case Paren(_, alts) =>
      AltsTidy(alts, dup, named);
      assert Tidy(EmitParen(a), dup, LengthNamed(named));
      if q.Times? {
        ConsumesShortest(alts);
        GroupTidy(EmitParen(a), q.min, q.max, q.lazy, AltsConsume(alts), t, dup, LengthNamed(named));
      }
  }

  lemma {:induction false} BranchTidy(b: SrcBranch, dup: bool, named: nat -> SrcAlts)
    requires OkSBranch(b) && (dup || NumberedBranch(b, named))
    ensures TidyBranch(EmitBranch(b), dup, LengthNamed(named))
    decreases b
  {
    if b.SCons? {
      BranchTidy(b.rest, dup, named);
      ItemTidy(b.atom, b.quant, EmitBranch(b.rest), dup, named);
    }
  }

  lemma {:induction false} AltsTidy(a: SrcAlts, dup: bool, named: nat -> SrcAlts)
    requires OkSAlts(a) && (dup || Numbered(a, named))
    ensures TidyAlts(EmitAlts(a), dup, LengthNamed(named))
    decreases a
  {
    BranchTidy(a.branch, dup, named);
    if a.SOr? { AltsTidy(a.more, dup, named); }
  }
}
