/** Every slice in the language of the emitted code is in the language of the pattern. */
module EmitLanguage {
  import opened Opcodes
  import opened Regex
  import opened Language
  import opened Source
  import opened Unroll
  import opened Unrolling

  /** A slice of the items and then of the rest of the branch. */
  ghost predicate Joined(a: Atom, lo: nat, extra: int, t: Branch, e: Env, i: nat, j: nat) {
    exists m: nat :: i <= m <= |e.s| && InTimes(a, lo, extra, e, i, m) && InBranch(t, e, m, j)
  }

  lemma {:induction false} RepeatIn(it: Item, lo: nat, hi: int, e: Env, i: nat, j: nat)
    requires (hi < 0 || lo <= hi) && InRepeat(it, lo, hi, e, i, j) && i <= |e.s|
    ensures j <= |e.s| && InTimes(One(it), lo, Spare(lo, hi), e, i, j)
    decreases j - i
  {
    if i < j {
      assert MatchesAt(it, e, i);
      RepeatIn(it, if lo > 0 then lo - 1 else 0, Less(hi), e, i + 1, j);
      assert InAtom(One(it), e, i, i + 1);
    }
  }

  /** Required copies and then optional ones. */
  lemma {:induction false} TimesJoin(it: Item, lo: nat, extra: int, e: Env, i: nat, m: nat, j: nat)
    requires i <= m <= |e.s| && InTimes(One(it), lo, 0, e, i, m) && InTimes(One(it), 0, extra, e, m, j)
    ensures InTimes(One(it), lo, extra, e, i, j)
    decreases lo
  {
    if lo > 0 {
      var x: nat :| i <= x <= |e.s| && InAtom(One(it), e, i, x) && InTimes(One(it), lo - 1, 0, e, x, m);
      TimesSpan(One(it), lo - 1, 0, e, x, m);
      TimesJoin(it, lo - 1, extra, e, x, m, j);
    }
  }

  lemma HeadIn(it: Item, r: Rep, t: Branch, e: Env, i: nat, j: nat)
    requires i <= |e.s| && (Hi(r) < 0 || Lo(r) <= Hi(r)) && InBranch(Cons(Repeat(it, r), t), e, i, j)
    ensures Joined(One(it), Lo(r), Spare(Lo(r), Hi(r)), t, e, i, j)
  {
    var m: nat :| i <= m <= |e.s| && InNode(Repeat(it, r), e, i, m) && InBranch(t, e, m, j);
    RepeatIn(it, Lo(r), Hi(r), e, i, m);
  }

  lemma OneIn(it: Item, e: Env, i: nat, m: nat)
    requires m <= |e.s| && InNode(Single(it), e, i, m)
    ensures InTimes(One(it), 1, 0, e, i, m)
  {
    assert InAtom(One(it), e, i, m) && InTimes(One(it), 0, 0, e, m, m);
  }

  lemma SingleIn(it: Item, min: nat, max: int, lazy: bool, t: Branch, e: Env, i: nat, j: nat)
    requires !it.Set? && max >= -1 && (max < 0 || min <= max) && i <= |e.s|
    requires InBranch(EmitSingle(it, min, max, lazy, t), e, i, j)
    ensures Joined(One(it), min, Spare(min, max), t, e, i, j)
  {
    var b := EmitSingle(it, min, max, lazy, t);
    if max == 0 {
      assert InTimes(One(it), 0, 0, e, i, i);
    } else if min == 1 && max == 1 {
      var m: nat :| i <= m <= |e.s| && InNode(Single(it), e, i, m) && InBranch(t, e, m, j);
      OneIn(it, e, i, m);
    } else if min == 0 || (min == 1 && max < 0) {
      HeadIn(it, b.head.rep, t, e, i, j);
    } else {
      SplitIn(it, min, max, lazy, t, e, i, j);
    }
  }

  lemma SplitIn(it: Item, min: nat, max: int, lazy: bool, t: Branch, e: Env, i: nat, j: nat)
    requires !it.Set? && max >= -1 && (max < 0 || min <= max) && (min > 1 || (min == 1 && max > 1)) && i <= |e.s|
    requires InBranch(EmitSingle(it, min, max, lazy, t), e, i, j)
    ensures Joined(One(it), min, Spare(min, max), t, e, i, j)
  {
    var b := EmitSingle(it, min, max, lazy, t);
    var m: nat :| i <= m <= |e.s| && InNode(b.head, e, i, m) && InBranch(b.tail, e, m, j);
    if min == 1 { OneIn(it, e, i, m); } else { RepeatIn(it, min, min, e, i, m); }
    assert InTimes(One(it), min, 0, e, i, m);
    if max != min {
      HeadIn(it, b.tail.head.rep, t, e, m, j);
      var x: nat :| m <= x <= |e.s| && InTimes(One(it), 0, Spare(min, max), e, m, x) && InBranch(t, e, x, j);
      TimesJoin(it, min, Spare(min, max), e, i, m, x);
    }
  }

  lemma ClassIn(it: Item, min: nat, max: int, lazy: bool, t: Branch, e: Env, i: nat, j: nat)
    requires it.Set? && max >= -1 && (max < 0 || min <= max) && i <= |e.s|
    requires InBranch(EmitClass(it, min, max, lazy, t), e, i, j)
    ensures Joined(One(it), min, Spare(min, max), t, e, i, j)
  {
    if max == 0 {
      assert InTimes(One(it), 0, 0, e, i, i);
    } else if min == 1 && max == 1 {
      var m: nat :| i <= m <= |e.s| && InNode(Single(it), e, i, m) && InBranch(t, e, m, j);
      OneIn(it, e, i, m);
    } else {
      HeadIn(it, EmitClass(it, min, max, lazy, t).head.rep, t, e, i, j);
    }
  }

  // --- groups -------------------------------------------------------------------

  lemma {:induction false} ParenIn(a: Atom, e: Env, i: nat, j: nat)
    requires a.Paren? && OkAtom(a) && i <= |e.s| && InNode(EmitParen(a), e, i, j)
    ensures InAtom(a, e, i, j) && i <= j <= |e.s|
    decreases a, 0
  {
    NodeSpan(EmitParen(a), e, i, j);
    AltsIn(a.alts, e, i, j);
  }

  lemma {:induction false} CopiesIn(a: Atom, n: nat, extra: int, t: Branch, u: Branch, e: Env, i: nat, j: nat)
    requires a.Paren? && OkAtom(a) && i <= |e.s| && InBranch(Copies(EmitParen(a), n, u), e, i, j)
    requires forall x: nat {:trigger InBranch(u, e, x, j)} :: x <= |e.s| && InBranch(u, e, x, j) ==>
               Joined(a, 0, extra, t, e, x, j)
    ensures Joined(a, n, extra, t, e, i, j)
    decreases a, 1, n
  {
    if n > 0 {
      var rest := Copies(EmitParen(a), n - 1, u);
      var m: nat :| i <= m <= |e.s| && InNode(EmitParen(a), e, i, m) && InBranch(rest, e, m, j);
      ParenIn(a, e, i, m);
      CopiesIn(a, n - 1, extra, t, u, e, m, j);
      var x: nat :| m <= x <= |e.s| && InTimes(a, n - 1, extra, e, m, x) && InBranch(t, e, x, j);
      assert InTimes(a, n, extra, e, i, x);
    }
  }

  lemma WrapIn(g: Node, inner: Node, e: Env, i: nat, j: nat) returns (m: nat)
    requires i <= |e.s| && InNode(Wrap(g, inner), e, i, j)
    ensures i <= m <= |e.s| && InNode(g, e, i, m) && InNode(inner, e, m, j)
  {
    var b := Cons(inner, Nil);
    assert InAlts(Wrap(g, inner).alts, e, i, j);
    m := HeadSlice(Cons(g, b), e, i, j);
    var x := HeadSlice(b, e, m, j);
  }

  lemma {:induction false} NestIn(a: Atom, n: nat, lazy: bool, e: Env, i: nat, j: nat)
    requires a.Paren? && OkAtom(a) && n > 0 && i <= |e.s| && InNode(Nest(EmitParen(a), n, lazy), e, i, j)
    ensures InTimes(a, 0, n, e, i, j)
    decreases a, 1, n
  {
    var g := EmitParen(a);
    if i != j {
      if n == 1 {
        ParenIn(a, e, i, j);
        assert InTimes(a, 0, 0, e, j, j);
      } else {
        var inner := Nest(g, n - 1, lazy);
        var m := WrapIn(g, inner, e, i, j);
        ParenIn(a, e, i, m);
        NestIn(a, n - 1, lazy, e, m, j);
      }
    }
  }

  lemma {:induction false} LoopIn(a: Atom, lazy: bool, consumes: bool, e: Env, i: nat, j: nat)
    requires a.Paren? && OkAtom(a) && i <= |e.s| && InNode(Looped(EmitParen(a), lazy, consumes), e, i, j)
    ensures InTimes(a, 1, UNLIMITED, e, i, j) && (i != j ==> InTimes(a, 0, UNLIMITED, e, i, j))
    decreases a, 1, |e.s| - i
  {
    var g := Looped(EmitParen(a), lazy, consumes);
    NodeSpan(g, e, i, j);
    if InAlts(g.alts, e, i, j) {
      AltsIn(a.alts, e, i, j);
      assert InAtom(a, e, i, j) && InTimes(a, 0, UNLIMITED, e, j, j);
    } else {
      var m: nat :| i < m <= |e.s| && InAlts(g.alts, e, i, m) && InNode(g, e, m, j);
      AltsIn(a.alts, e, i, m);
      LoopIn(a, lazy, consumes, e, m, j);
      assert InAtom(a, e, i, m) && InTimes(a, 0, UNLIMITED, e, m, j);
    }
  }

  lemma {:induction false} GroupIn(a: Atom, q: Quant, t: Branch, e: Env, i: nat, j: nat)
    requires a.Paren? && OkAtom(a) && OkQuant(q) && q.Times? && i <= |e.s|
    requires InBranch(EmitGroup(EmitParen(a), q.min, q.max, q.lazy, AltsConsume(a.alts), t), e, i, j)
    ensures Joined(a, q.min, Extra(q), t, e, i, j)
    decreases a, 3
  {
    var g, min, max, lazy := EmitParen(a), q.min, q.max, q.lazy;
    if min == 1 && max == 1 {
      var m: nat :| i <= m <= |e.s| && InNode(g, e, i, m) && InBranch(t, e, m, j);
      ParenIn(a, e, i, m);
      assert InTimes(a, 0, 0, e, m, m) && InTimes(a, 1, 0, e, i, m);
    } else if max == 0 {
      assert InTimes(a, 0, 0, e, i, i);
    } else if max < 0 {
      LoopsIn(a, q, t, e, i, j);
    } else {
      var u := if max == min then t else Cons(Nest(g, max - min, lazy), t);
      forall x: nat | x <= |e.s| && InBranch(u, e, x, j) ensures Joined(a, 0, max - min, t, e, x, j) {
        if max == min {
          assert InTimes(a, 0, 0, e, x, x);
        } else {
          assert InBranch(Cons(Nest(g, max - min, lazy), t), e, x, j);
          var m: nat :| x <= m <= |e.s| && InNode(Nest(g, max - min, lazy), e, x, m) && InBranch(t, e, m, j);
          NestIn(a, max - min, lazy, e, x, m);
        }
      }
      CopiesIn(a, min, max - min, t, u, e, i, j);
    }
  }

  lemma {:induction false} LoopsIn(a: Atom, q: Quant, t: Branch, e: Env, i: nat, j: nat)
    requires a.Paren? && OkAtom(a) && OkQuant(q) && q.Times? && i <= |e.s| && q.max < 0
    requires InBranch(EmitGroup(EmitParen(a), q.min, q.max, q.lazy, AltsConsume(a.alts), t), e, i, j)
    ensures Joined(a, q.min, Extra(q), t, e, i, j)
    decreases a, 2, q.min
  {
    var g := EmitParen(a);
    var loop := Looped(g, q.lazy, AltsConsume(a.alts));
    if q.min == 0 {
      var n := Optional(ZeroOp(q.lazy), loop);
      var m: nat :| i <= m <= |e.s| && InNode(n, e, i, m) && InBranch(t, e, m, j);
      if i != m { LoopIn(a, q.lazy, AltsConsume(a.alts), e, i, m); }
      assert InTimes(a, 0, UNLIMITED, e, i, m);
    } else if q.min == 1 {
      var m: nat :| i <= m <= |e.s| && InNode(loop, e, i, m) && InBranch(t, e, m, j);
      LoopIn(a, q.lazy, AltsConsume(a.alts), e, i, m);
    } else {
      var rest := Copies(g, q.min - 2, Cons(loop, t));
      var m: nat :| i <= m <= |e.s| && InNode(g, e, i, m) && InBranch(rest, e, m, j);
      ParenIn(a, e, i, m);
      LoopsIn(a, q.(min := q.min - 1), t, e, m, j);
      var x: nat :| m <= x <= |e.s| && InTimes(a, q.min - 1, UNLIMITED, e, m, x) && InBranch(t, e, x, j);
      assert InTimes(a, q.min, UNLIMITED, e, i, x);
    }
  }

  lemma {:induction false} ItemIn(a: Atom, q: Quant, t: Branch, e: Env, i: nat, j: nat) returns (m: nat)
    requires OkAtom(a) && OkQuant(q) && (a.Zero? ==> q.Once?) && i <= |e.s| && InBranch(EmitItem(a, q, t), e, i, j)
    ensures i <= m <= |e.s| && InItem(a, q, e, i, m) && InBranch(t, e, m, j)
    decreases a, 4
  {
    if q.Once? {
      var n := EmitItem(a, q, t).head;
      m :| i <= m <= |e.s| && InNode(n, e, i, m) && InBranch(t, e, m, j);
      if a.Paren? { ParenIn(a, e, i, m); }
    } else {
      if a.Paren? { GroupIn(a, q, t, e, i, j); }
      else if a.item.Set? { ClassIn(a.item, q.min, q.max, q.lazy, t, e, i, j); }
      else { SingleIn(a.item, q.min, q.max, q.lazy, t, e, i, j); }
      m :| i <= m <= |e.s| && InTimes(a, q.min, Extra(q), e, i, m) && InBranch(t, e, m, j);
    }
  }

  lemma {:induction false} BranchIn(b: SrcBranch, e: Env, i: nat, j: nat)
    requires OkSBranch(b) && i <= |e.s| && InBranch(EmitBranch(b), e, i, j)
    ensures InSBranch(b, e, i, j)
    decreases b
  {
    if b.SCons? {
      var m := ItemIn(b.atom, b.quant, EmitBranch(b.rest), e, i, j);
      BranchIn(b.rest, e, m, j);
    }
  }

  lemma {:induction false} AltsIn(a: SrcAlts, e: Env, i: nat, j: nat)
    requires OkSAlts(a) && i <= |e.s| && InAlts(EmitAlts(a), e, i, j)
    ensures InSAlts(a, e, i, j)
    decreases a
  {
    if InBranch(EmitBranch(a.branch), e, i, j) { BranchIn(a.branch, e, i, j); } else { AltsIn(a.more, e, i, j); }
  }
}
