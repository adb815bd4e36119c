/** The language of a pattern as it is written, against ordered matching and against the language of its code. */
module SourceLanguage {
  import opened Opcodes
  import opened Regex
  import opened Language
  import opened Source
  import opened Unroll
  import opened Unrolling
  import opened EmitLanguage

  // --- every slice of the language is found by ordered matching -----------------------------

  lemma {:induction false} AtomComplete(a: Atom, e: Env, st: State, j: nat, k: Kont)
    requires OkAtom(a) && st.pos <= |e.s| && InAtom(a, e, st.pos, j) && SucceedsAt(k, j)
    ensures TryAtom(a, e, st, k).Some?
    decreases a, 0
  {
    if a.Paren? {
      var k' := r => k(CloseParen(a.number, st.pos, r));
      forall r: State | r.pos == j ensures k'(r).Some? { assert k(CloseParen(a.number, st.pos, r)).Some?; }
      SAltsComplete(a.alts, e, st, j, k');
    }
  }

  /** A run of copies without limit that is not empty has a first copy that is not empty. */
  lemma {:induction false} FirstOfMany(a: Atom, e: Env, i: nat, j: nat) returns (m: nat)
    requires i < j && InTimes(a, 0, UNLIMITED, e, i, j)
    ensures i < m <= |e.s| && InAtom(a, e, i, m) && InTimes(a, 0, UNLIMITED, e, m, j)
  {
    m :| i < m <= |e.s| && InAtom(a, e, i, m) && InTimes(a, 0, UNLIMITED, e, m, j);
  }

  /** After a first copy that ends at m, the rest of the copies lead to j. */
  lemma {:induction false} AfterComplete(a: Atom, lo: nat, extra: int, lazy: bool, e: Env, i: nat, m: nat, j: nat,
                                         k: Kont)
    requires OkAtom(a) && extra >= UNLIMITED && i <= m <= |e.s| && SucceedsAt(k, j)
    requires lo > 0 || extra != 0
    requires if lo > 0 then InTimes(a, lo - 1, extra, e, m, j)
             else InTimes(a, 0, if extra > 0 then extra - 1 else extra, e, m, j)
    requires lo <= 1 && extra < 0 ==> i < m || m == j
    ensures SucceedsAt(r => AfterCopy(a, lo, extra, lazy, e, i, r, k), m)
    decreases a, 1, lo, if extra >= 0 then extra else |e.s| - i, 0
  {
    forall r: State | r.pos == m ensures AfterCopy(a, lo, extra, lazy, e, i, r, k).Some? {
      if lo > 1 || (lo == 1 && extra >= 0) { TimesComplete(a, lo - 1, extra, lazy, e, r, j, k); }
      else if extra > 0 { TimesComplete(a, 0, extra - 1, lazy, e, r, j, k); }
      else if extra < 0 && i < m { TimesComplete(a, 0, extra, lazy, e, r, j, k); }
    }
  }

  lemma {:induction false} TimesComplete(a: Atom, lo: nat, extra: int, lazy: bool, e: Env, st: State, j: nat, k: Kont)
    requires OkAtom(a) && extra >= UNLIMITED && st.pos <= |e.s| && InTimes(a, lo, extra, e, st.pos, j)
             && SucceedsAt(k, j)
    ensures TryTimes(a, lo, extra, lazy, e, st, k).Some?
    decreases a, 1, lo, if extra >= 0 then extra else |e.s| - st.pos, 1
  {
    var i := st.pos;
    if lo > 0 {
      var m: nat :| i <= m <= |e.s| && InAtom(a, e, i, m) && InTimes(a, lo - 1, extra, e, m, j);
      if lo == 1 && extra < 0 && m == i && m != j {
        TimesSpan(a, 0, extra, e, m, j);
        m := FirstOfMany(a, e, i, j);
      }
      AfterComplete(a, lo, extra, lazy, e, i, m, j, k);
      AtomComplete(a, e, st, m, r => AfterCopy(a, lo, extra, lazy, e, i, r, k));
    } else if i != j {
      var m: nat;
      if extra > 0 {
        m :| i <= m <= |e.s| && InAtom(a, e, i, m) && InTimes(a, 0, extra - 1, e, m, j);
      } else {
        m :| i < m <= |e.s| && InAtom(a, e, i, m) && InTimes(a, 0, extra, e, m, j);
      }
      AfterComplete(a, 0, extra, lazy, e, i, m, j, k);
      AtomComplete(a, e, st, m, r => AfterCopy(a, 0, extra, lazy, e, i, r, k));
    }
  }

  lemma {:induction false} SBranchComplete(b: SrcBranch, e: Env, st: State, j: nat, k: Kont)
    requires OkSBranch(b) && st.pos <= |e.s| && InSBranch(b, e, st.pos, j) && SucceedsAt(k, j)
    ensures TrySBranch(b, e, st, k).Some?
    decreases b
  {
    if b.SCons? {
      var m: nat :| st.pos <= m <= |e.s| && InItem(b.atom, b.quant, e, st.pos, m) && InSBranch(b.rest, e, m, j);
      var k' := r => TrySBranch(b.rest, e, r, k);
      forall r: State | r.pos == m ensures k'(r).Some? { SBranchComplete(b.rest, e, r, j, k); }
      if b.quant.Once? {
        AtomComplete(b.atom, e, st, m, k');
      } else {
        TimesComplete(b.atom, b.quant.min, Extra(b.quant), b.quant.lazy, e, st, m, k');
      }
    }
  }

  lemma {:induction false} SAltsComplete(a: SrcAlts, e: Env, st: State, j: nat, k: Kont)
    requires OkSAlts(a) && st.pos <= |e.s| && InSAlts(a, e, st.pos, j) && SucceedsAt(k, j)
    ensures TrySAlts(a, e, st, k).Some?
    decreases a
  {
    if InSBranch(a.branch, e, st.pos, j) {
      SBranchComplete(a.branch, e, st, j, k);
    } else {
      SAltsComplete(a.more, e, st, j, k);
    }
  }

  // --- the code has the language of the pattern -------------------------------------------------

  /** A continuation that succeeds at offset j only. */
  function EndAtOffset(j: nat): Kont { (st: State) => if st.pos == j then Some(st) else None }

  /** The code matches a slice exactly when the pattern, read item by item, does. */
  lemma SameLanguage(a: SrcAlts, e: Env, i: nat, j: nat)
    requires OkSAlts(a) && i <= |e.s|
    ensures InNode(CodeOf(a), e, i, j) <==> InSAlts(a, e, i, j)
  {
    if InSAlts(a, e, i, j) {
      var st := State(i, map[]);
      SAltsComplete(a, e, st, j, EndAtOffset(j));
      AltsEmit(a, e, st, EndAtOffset(j));
      EmitAltsOk(a);
      var mid := AltsSound(EmitAlts(a), e, st, EndAtOffset(j));
    }
    if InNode(CodeOf(a), e, i, j) { AltsIn(a, e, i, j); }
  }
}
