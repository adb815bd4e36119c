/** Unrolled code has the results of counted repetition, in the same order of preference. */
module Unrolling {
  import opened Opcodes
  import opened Regex
  import opened Source
  import opened Unroll
  import opened PossessRewrite

  // --- equal continuations give equal results -----------------------------------

  lemma {:induction false} AtomSame(a: Atom, e: Env, st: State, k: Kont, l: Kont)
    requires Same(k, l)
    ensures TryAtom(a, e, st, k) == TryAtom(a, e, st, l)
    decreases a, 0
  {
    if a.Paren? {
      var k', l' := r => k(CloseParen(a.number, st.pos, r)), r => l(CloseParen(a.number, st.pos, r));
      forall r: State ensures k'(r) == l'(r) {
        assert k(CloseParen(a.number, st.pos, r)) == l(CloseParen(a.number, st.pos, r));
      }
      SAltsSame(a.alts, e, st, k', l');
    }
  }

  lemma {:induction false} TimesSame(a: Atom, lo: nat, extra: int, lazy: bool, e: Env, st: State, k: Kont, l: Kont)
    requires Same(k, l)
    ensures TryTimes(a, lo, extra, lazy, e, st, k) == TryTimes(a, lo, extra, lazy, e, st, l)
    decreases a, 1, lo, if extra >= 0 then extra else |e.s| - st.pos, 1
  {
    if lo > 0 || extra != 0 {
      var k' := r => AfterCopy(a, lo, extra, lazy, e, st.pos, r, k);
      var l' := r => AfterCopy(a, lo, extra, lazy, e, st.pos, r, l);
      forall r: State ensures k'(r) == l'(r) { AfterCopySame(a, lo, extra, lazy, e, st.pos, r, k, l); }
      AtomSame(a, e, st, k', l');
    }
  }

  lemma {:induction false} AfterCopySame(a: Atom, lo: nat, extra: int, lazy: bool, e: Env, start: nat, r: State,
                                         k: Kont, l: Kont)
    requires Same(k, l)
    ensures AfterCopy(a, lo, extra, lazy, e, start, r, k) == AfterCopy(a, lo, extra, lazy, e, start, r, l)
    decreases a, 1, lo, if extra >= 0 then extra else |e.s| - start, 0
  {
    if lo > 1 || (lo == 1 && extra >= 0) {
      TimesSame(a, lo - 1, extra, lazy, e, r, k, l);
    } else if extra > 0 {
      TimesSame(a, 0, extra - 1, lazy, e, r, k, l);
    } else if extra < 0 && start < r.pos <= |e.s| {
      TimesSame(a, 0, extra, lazy, e, r, k, l);
    }
  }

  lemma {:induction false} ItemSame(a: Atom, q: Quant, e: Env, st: State, k: Kont, l: Kont)
    requires Same(k, l)
    ensures TryItem(a, q, e, st, k) == TryItem(a, q, e, st, l)
    decreases a, 2
  {
    if q.Once? { AtomSame(a, e, st, k, l); } else { TimesSame(a, q.min, Extra(q), q.lazy, e, st, k, l); }
  }

  lemma {:induction false} SBranchSame(b: SrcBranch, e: Env, st: State, k: Kont, l: Kont)
    requires Same(k, l)
    ensures TrySBranch(b, e, st, k) == TrySBranch(b, e, st, l)
    decreases b
  {
    if b.SCons? {
      var k', l' := r => TrySBranch(b.rest, e, r, k), r => TrySBranch(b.rest, e, r, l);
      forall r: State ensures k'(r) == l'(r) { SBranchSame(b.rest, e, r, k, l); }
      ItemSame(b.atom, b.quant, e, st, k', l');
    }
  }

  lemma {:induction false} SAltsSame(a: SrcAlts, e: Env, st: State, k: Kont, l: Kont)
    requires Same(k, l)
    ensures TrySAlts(a, e, st, k) == TrySAlts(a, e, st, l)
    decreases a
  {
    SBranchSame(a.branch, e, st, k, l);
    if a.SOr? { SAltsSame(a.more, e, st, k, l); }
  }

  // --- single items ----------------------------------------------------------------

  function ModeFor(lazy: bool): Mode { if lazy then Lazy else Greedy }

  function Spare(lo: nat, hi: int): int { if hi < 0 then UNLIMITED else hi - lo }

  /** A repeat of the code is a counted repetition. */
  lemma {:induction false} RepeatTimes(it: Item, lo: nat, hi: int, lazy: bool, e: Env, st: State, k: Kont)
    requires hi < 0 || lo <= hi
    ensures TryRepeat(it, lo, hi, ModeFor(lazy), e, st, k) == TryTimes(One(it), lo, Spare(lo, hi), lazy, e, st, k)
    decreases |e.s| - st.pos
  {
    if hi != 0 && MatchesAt(it, e, st.pos) {
      var next := At(st, st.pos + 1);
      RepeatTimes(it, if lo > 0 then lo - 1 else 0, Less(hi), lazy, e, next, k);
    }
  }

  /** The required copies of a repetition can be split off. */
  lemma {:induction false} SplitTimes(it: Item, lo: nat, extra: int, lazy: bool, other: bool, e: Env, st: State,
                                      k: Kont)
    ensures TryTimes(One(it), lo, extra, lazy, e, st, k)
         == TryTimes(One(it), lo, 0, other, e, st, r => TryTimes(One(it), 0, extra, lazy, e, r, k))
    decreases lo
  {
    if lo > 0 && MatchesAt(it, e, st.pos) { SplitTimes(it, lo - 1, extra, lazy, other, e, At(st, st.pos + 1), k); }
  }

  /** One repeat at the head of a branch. */
  lemma HeadRepeat(it: Item, r: Rep, lazy: bool, t: Branch, e: Env, st: State, k: Kont)
    requires ModeOf(r) == ModeFor(lazy) && (Hi(r) < 0 || Lo(r) <= Hi(r))
    ensures TryBranch(Cons(Repeat(it, r), t), e, st, k)
         == TryTimes(One(it), Lo(r), Spare(Lo(r), Hi(r)), lazy, e, st, x => TryBranch(t, e, x, k))
  {
    RepeatTimes(it, Lo(r), Hi(r), lazy, e, st, x => TryBranch(t, e, x, k));
  }

  lemma OptionalHead(it: Item, r: Rep, max: int, lazy: bool, t: Branch, e: Env, st: State, k: Kont)
    requires max >= -1 && max != 0 && ModeOf(r) == ModeFor(lazy) && Lo(r) == 0 && Hi(r) == max
    ensures TryBranch(Cons(Repeat(it, r), t), e, st, k) ==
              TryTimes(One(it), 0, max, lazy, e, st, x => TryBranch(t, e, x, k))
  {
    HeadRepeat(it, r, lazy, t, e, st, k);
  }

  /** A literal or type with a quantifier. */
  lemma SingleEmit(it: Item, min: nat, max: int, lazy: bool, t: Branch, e: Env, st: State, k: Kont)
    requires !it.Set? && max >= -1 && (max < 0 || min <= max)
    ensures TryBranch(EmitSingle(it, min, max, lazy, t), e, st, k)
         == TryTimes(One(it), min, Spare(min, max), lazy, e, st, x => TryBranch(t, e, x, k))
  {
    var kt: Kont := x => TryBranch(t, e, x, k);
    if max == 0 {
    } else if min == 1 && max == 1 {
      OnceTimes(it, lazy, e, st, kt);
    } else if min == 0 {
      OptionalHead(it, EmitSingle(it, min, max, lazy, t).head.rep, max, lazy, t, e, st, k);
    } else if min == 1 && max < 0 {
      HeadRepeat(it, EmitSingle(it, min, max, lazy, t).head.rep, lazy, t, e, st, k);
    } else {
      SplitEmit(it, min, max, lazy, t, e, st, k);
    }
  }

  lemma OnceTimes(it: Item, lazy: bool, e: Env, st: State, k: Kont)
    ensures TryTimes(One(it), 1, 0, lazy, e, st, k) == TryNode(Single(it), e, st, k)
  {
    var next := At(st, st.pos + 1);
    assert AfterCopy(One(it), 1, 0, lazy, e, st.pos, next, k) == TryTimes(One(it), 0, 0, lazy, e, next, k) == k(next);
  }

  /** The required copies as a single item or as EXACT. */
  lemma RequiredHead(it: Item, min: nat, lazy: bool, e: Env, st: State, k: Kont)
    requires min > 0
    ensures TryNode(if min == 1 then Single(it) else Single1(it, OP_EXACT, min, false), e, st, k)
         == TryTimes(One(it), min, 0, lazy, e, st, k)
  {
    if min == 1 {
      OnceTimes(it, lazy, e, st, k);
    } else {
      RepeatTimes(it, min, min, false, e, st, k);
      ModeFree(it, min, lazy, e, st, k);
    }
  }

  lemma {:induction false} ModeFree(it: Item, lo: nat, lazy: bool, e: Env, st: State, k: Kont)
    ensures TryTimes(One(it), lo, 0, false, e, st, k) == TryTimes(One(it), lo, 0, lazy, e, st, k)
    decreases lo
  {
    if lo > 0 && MatchesAt(it, e, st.pos) { ModeFree(it, lo - 1, lazy, e, At(st, st.pos + 1), k); }
  }

  lemma SplitEmit(it: Item, min: nat, max: int, lazy: bool, t: Branch, e: Env, st: State, k: Kont)
    requires !it.Set? && max >= -1 && (max < 0 || min <= max) && (min > 1 || (min == 1 && max > 1))
    ensures TryBranch(EmitSingle(it, min, max, lazy, t), e, st, k)
         == TryTimes(One(it), min, Spare(min, max), lazy, e, st, x => TryBranch(t, e, x, k))
  {
    var extra := Spare(min, max);
    var kt: Kont := x => TryBranch(t, e, x, k);
    var b := EmitSingle(it, min, max, lazy, t);
    var rest: Kont := x => TryBranch(b.tail, e, x, k);
    RequiredHead(it, min, lazy, e, st, rest);
    if extra == 0 {
      assert Same(rest, kt);
      TimesSame(One(it), min, 0, lazy, e, st, rest, kt);
    } else {
      var opt: Kont := x => TryTimes(One(it), 0, extra, lazy, e, x, kt);
      forall x: State ensures rest(x) == opt(x) {
        OptionalHead(it, b.tail.head.rep, extra, lazy, t, e, x, k);
      }
      TimesSame(One(it), min, 0, lazy, e, st, rest, opt);
      SplitTimes(it, min, extra, lazy, lazy, e, st, kt);
      assert Same(opt, x => TryTimes(One(it), 0, extra, lazy, e, x, kt));
      TimesSame(One(it), min, 0, lazy, e, st, opt, x => TryTimes(One(it), 0, extra, lazy, e, x, kt));
    }
  }

  /** A class with a quantifier. */
  lemma ClassEmit(it: Item, min: nat, max: int, lazy: bool, t: Branch, e: Env, st: State, k: Kont)
    requires it.Set? && max >= -1 && (max < 0 || min <= max)
    ensures TryBranch(EmitClass(it, min, max, lazy, t), e, st, k)
         == TryTimes(One(it), min, Spare(min, max), lazy, e, st, x => TryBranch(t, e, x, k))
  {
    var kt: Kont := x => TryBranch(t, e, x, k);
    if max == 0 {
    } else if min == 1 && max == 1 {
      OnceTimes(it, lazy, e, st, kt);
    } else {
      HeadRepeat(it, EmitClass(it, min, max, lazy, t).head.rep, lazy, t, e, st, k);
    }
  }

  // --- groups -------------------------------------------------------------------------

  /** A group that is not repeated. */
  lemma {:induction false} ParenEmit(a: Atom, e: Env, st: State, k: Kont)
    requires a.Paren? && OkAtom(a)
    ensures TryNode(EmitParen(a), e, st, k) == TryAtom(a, e, st, k)
    decreases a, 0
  {
    var g := EmitParen(a);
    var k' := r => AfterKet(g, e, st.pos, r, k);
    var l' := r => k(CloseParen(a.number, st.pos, r));
    AltsEmit(a.alts, e, st, k');
    forall r: State ensures k'(r) == l'(r) { assert Close(g, st.pos, r) == CloseParen(a.number, st.pos, r); }
    SAltsSame(a.alts, e, st, k', l');
  }

  /** n copies and what follows them. */
  lemma {:induction false} CopiesEmit(a: Atom, n: nat, extra: int, lazy: bool, t: Branch, e: Env, st: State, k: Kont,
                                      kt: Kont)
    requires a.Paren? && OkAtom(a)
    requires extra >= 0 && forall x: State :: TryBranch(t, e, x, k) == TryTimes(a, 0, extra, lazy, e, x, kt)
    ensures TryBranch(Copies(EmitParen(a), n, t), e, st, k) == TryTimes(a, n, extra, lazy, e, st, kt)
    decreases a, 1, n
  {
    if n > 0 {
      var rest := Copies(EmitParen(a), n - 1, t);
      var k' := x => TryBranch(rest, e, x, k);
      var l' := r => AfterCopy(a, n, extra, lazy, e, st.pos, r, kt);
      forall x: State ensures k'(x) == l'(x) { CopiesEmit(a, n - 1, extra, lazy, t, e, x, k, kt); }
      ParenEmit(a, e, st, k');
      AtomSame(a, e, st, k', l');
    }
  }

  /** The last of n copies is the one that repeats. */
  lemma {:induction false} CopiesLoopEmit(a: Atom, n: nat, lazy: bool, t: Branch, e: Env, st: State, k: Kont, kt: Kont)
    requires a.Paren? && OkAtom(a)
    requires forall x: State :: TryBranch(t, e, x, k) == TryTimes(a, 1, UNLIMITED, lazy, e, x, kt)
    ensures TryBranch(Copies(EmitParen(a), n, t), e, st, k) == TryTimes(a, n + 1, UNLIMITED, lazy, e, st, kt)
    decreases a, 1, n
  {
    if n > 0 {
      var rest := Copies(EmitParen(a), n - 1, t);
      var k' := x => TryBranch(rest, e, x, k);
      var l' := r => AfterCopy(a, n + 1, UNLIMITED, lazy, e, st.pos, r, kt);
      forall x: State ensures k'(x) == l'(x) { CopiesLoopEmit(a, n - 1, lazy, t, e, x, k, kt); }
      ParenEmit(a, e, st, k');
      AtomSame(a, e, st, k', l');
    }
  }

  /** Nested optional brackets are up to n copies. */
  lemma {:induction false} NestEmit(a: Atom, n: nat, lazy: bool, e: Env, st: State, k: Kont)
    requires a.Paren? && OkAtom(a) && n > 0
    ensures TryNode(Nest(EmitParen(a), n, lazy), e, st, k) == TryTimes(a, 0, n, lazy, e, st, k)
    decreases a, 1, n
  {
    var g := EmitParen(a);
    var l' := r => AfterCopy(a, 0, n, lazy, e, st.pos, r, k);
    if n == 1 {
      forall x: State ensures k(x) == l'(x) { assert TryTimes(a, 0, 0, lazy, e, x, k) == k(x); }
      ParenEmit(a, e, st, k);
      AtomSame(a, e, st, k, l');
    } else {
      var inner := Nest(g, n - 1, lazy);
      var k' := x => TryNode(inner, e, x, k);
      WrapTry(g, inner, e, st, k, k');
      forall x: State ensures k'(x) == l'(x) { NestEmit(a, n - 1, lazy, e, x, k); }
      ParenEmit(a, e, st, k');
      AtomSame(a, e, st, k', l');
    }
  }

  /** The plain bracket of a nest does nothing of its own. */
  lemma WrapTry(g: Node, inner: Node, e: Env, st: State, k: Kont, k': Kont)
    requires forall x: State :: k'(x) == TryNode(inner, e, x, k)
    ensures TryNode(Wrap(g, inner), e, st, k) == TryNode(g, e, st, k')
  {
    var w := Wrap(g, inner);
    var out := r => AfterKet(w, e, st.pos, r, k);
    var b := Cons(inner, Nil);
    var mid := x => TryBranch(b, e, x, out);
    forall x: State ensures mid(x) == k'(x) {
      var last := y => TryBranch(Nil, e, y, out);
      forall y: State ensures last(y) == k(y) { assert Close(w, st.pos, y) == y; }
      NodeSame(inner, e, x, last, k);
    }
    assert TryNode(w, e, st, k) == TryBranch(Cons(g, b), e, st, out) == TryNode(g, e, st, mid);
    NodeSame(g, e, st, mid, k');
  }

  lemma TimesOnce(a: Atom, lazy: bool, e: Env, st: State, k: Kont, l: Kont)
    requires forall r: State :: l(r) == AfterCopy(a, 0, UNLIMITED, lazy, e, st.pos, r, k)
    ensures TryTimes(a, 0, UNLIMITED, lazy, e, st, k) == Prefer(lazy, TryAtom(a, e, st, l), k(st))
  {
    var extra := UNLIMITED;
    AtomSame(a, e, st, r => AfterCopy(a, 0, extra, lazy, e, st.pos, r, k), l);
  }

  /** One copy, and then as many as there are. */
  lemma {:induction false} LoopEmit(a: Atom, lo: nat, lazy: bool, consumes: bool, e: Env, st: State, k: Kont)
    requires a.Paren? && OkAtom(a) && lo <= 1
    ensures TryNode(Looped(EmitParen(a), lazy, consumes), e, st, k)
         == TryAtom(a, e, st, r => AfterCopy(a, lo, UNLIMITED, lazy, e, st.pos, r, k))
    decreases a, 1, |e.s| - st.pos
  {
    var g := Looped(EmitParen(a), lazy, consumes);
    var k' := r => AfterKet(g, e, st.pos, r, k);
    var after := r => AfterCopy(a, lo, UNLIMITED, lazy, e, st.pos, r, k);
    var l' := r => after(CloseParen(a.number, st.pos, r));
    AltsEmit(a.alts, e, st, k');
    forall r: State ensures k'(r) == l'(r) {
      var c := Close(g, st.pos, r);
      assert c == CloseParen(a.number, st.pos, r) && c.pos == r.pos;
      if st.pos < r.pos <= |e.s| {
        LoopEmit(a, 0, lazy, consumes, e, c, k);
        TimesOnce(a, lazy, e, c, k, x => AfterCopy(a, 0, UNLIMITED, lazy, e, c.pos, x, k));
      }
    }
    SAltsSame(a.alts, e, st, k', l');
  }

  /** A group with a quantifier. */
  lemma {:induction false} GroupEmit(a: Atom, q: Quant, t: Branch, e: Env, st: State, k: Kont)
    requires a.Paren? && OkAtom(a) && OkQuant(q) && q.Times?
    ensures TryBranch(EmitGroup(EmitParen(a), q.min, q.max, q.lazy, AltsConsume(a.alts), t), e, st, k)
         == TryTimes(a, q.min, Extra(q), q.lazy, e, st, x => TryBranch(t, e, x, k))
    decreases a, 2
  {
    var g, min, max, lazy := EmitParen(a), q.min, q.max, q.lazy;
    var kt: Kont := x => TryBranch(t, e, x, k);
    if min == 1 && max == 1 {
      var l' := r => AfterCopy(a, 1, 0, lazy, e, st.pos, r, kt);
      forall x: State ensures kt(x) == l'(x) { assert TryTimes(a, 0, 0, lazy, e, x, kt) == kt(x); }
      ParenEmit(a, e, st, kt);
      AtomSame(a, e, st, kt, l');
    } else if max == 0 {
    } else if max < 0 {
      var loop := Looped(g, lazy, AltsConsume(a.alts));
      if min == 0 {
        LoopEmit(a, 0, lazy, AltsConsume(a.alts), e, st, kt);
      } else {
        forall x: State ensures TryBranch(Cons(loop, t), e, x, k) == TryTimes(a, 1, UNLIMITED, lazy, e, x, kt) {
          LoopEmit(a, 1, lazy, AltsConsume(a.alts), e, x, kt);
        }
        CopiesLoopEmit(a, min - 1, lazy, Cons(loop, t), e, st, k, kt);
      }
    } else if max == min {
      CopiesEmit(a, min, 0, lazy, t, e, st, k, kt);
    } else {
      var b := Cons(Nest(g, max - min, lazy), t);
      forall x: State ensures TryBranch(b, e, x, k) == TryTimes(a, 0, max - min, lazy, e, x, kt) {
        NestEmit(a, max - min, lazy, e, x, kt);
      }
      CopiesEmit(a, min, max - min, lazy, b, e, st, k, kt);
    }
  }

  /** One item and what follows it. */
  lemma {:induction false} ItemEmit(a: Atom, q: Quant, t: Branch, e: Env, st: State, k: Kont)
    requires OkAtom(a) && OkQuant(q) && (a.Zero? ==> q.Once?)
    ensures TryBranch(EmitItem(a, q, t), e, st, k) == TryItem(a, q, e, st, x => TryBranch(t, e, x, k))
    decreases a, 3
  {
    match a
    case Zero(_) =>
    case One(it) =>
      if q.Times? {
        if it.Set? {
          ClassEmit(it, q.min, q.max, q.lazy, t, e, st, k);
        } else {
          SingleEmit(it, q.min, q.max, q.lazy, t, e, st, k);
        }
      }
    case Paren(_, _) =>
      if q.Once? { ParenEmit(a, e, st, x => TryBranch(t, e, x, k)); } else { GroupEmit(a, q, t, e, st, k); }
  }

  lemma {:induction false} BranchEmit(b: SrcBranch, e: Env, st: State, k: Kont)
    requires OkSBranch(b)
    ensures TryBranch(EmitBranch(b), e, st, k) == TrySBranch(b, e, st, k)
    decreases b
  {
    if b.SCons? {
      var t := EmitBranch(b.rest);
      var k', l' := x => TryBranch(t, e, x, k), x => TrySBranch(b.rest, e, x, k);
      ItemEmit(b.atom, b.quant, t, e, st, k);
      forall x: State ensures k'(x) == l'(x) { BranchEmit(b.rest, e, x, k); }
      ItemSame(b.atom, b.quant, e, st, k', l');
      assert Same(k', x => TryBranch(t, e, x, k));
      ItemSame(b.atom, b.quant, e, st, k', x => TryBranch(t, e, x, k));
    }
  }

  /** The code emitted for a pattern gives the results of the pattern with its counted repetitions, in the same
      order. */
  lemma {:induction false} AltsEmit(a: SrcAlts, e: Env, st: State, k: Kont)
    requires OkSAlts(a)
    ensures TryAlts(EmitAlts(a), e, st, k) == TrySAlts(a, e, st, k)
    decreases a
  {
    BranchEmit(a.branch, e, st, k);
    if a.SOr? { AltsEmit(a.more, e, st, k); }
  }

  /** The whole pattern: the code matches exactly what the pattern, read item by item, matches first. */
  lemma CodeMeansSource(a: SrcAlts, e: Env, i: nat)
    requires OkSAlts(a)
    ensures OkNode(CodeOf(a)) && FirstMatch(CodeOf(a), e, i) == TrySAlts(a, e, State(i, map[]), Accept)
  {
    var st, p := State(i, map[]), CodeOf(a);
    EmitAltsOk(a);
    var k := r => AfterKet(p, e, i, r, Accept);
    AltsEmit(a, e, st, k);
    forall r: State ensures k(r) == Accept(r) { assert Close(p, i, r) == r; }
    SAltsSame(a, e, st, k, Accept);
  }
}
