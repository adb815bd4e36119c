/** Patterns as the compiler reads them, item by item with their quantifiers, and what they mean:
    counted repetition in the order of preference, and the language. */
module Source {
  import opened Opcodes
  import opened Regex

  datatype Atom =
    | One(item: Item)
    | Zero(op: int)
    | Paren(number: nat, alts: SrcAlts)

  /** A quantifier; max is -1 when there is no limit. */
  datatype Quant = Once | Times(min: nat, max: int, lazy: bool)

  datatype SrcBranch = SNil | SCons(atom: Atom, quant: Quant, rest: SrcBranch)

  datatype SrcAlts = SLast(branch: SrcBranch) | SOr(branch: SrcBranch, more: SrcAlts)

  const MAX_REPEAT := 65535
  const UNLIMITED := -1

  predicate OkQuant(q: Quant) {
    q.Times? ==> q.min <= MAX_REPEAT && -1 <= q.max <= MAX_REPEAT && (q.max >= 0 ==> q.min <= q.max)
  }

  /** Zero-width items take no quantifier. Number 0 is a group that does not capture. */
  predicate OkAtom(a: Atom) {
    match a
    case One(it) => OkItem(it)
    case Zero(op) => IsAssertion(op)
    case Paren(number, alts) => number < 65536 && OkSAlts(alts)
  }

  predicate OkSBranch(b: SrcBranch) {
    b.SCons? ==> OkAtom(b.atom) && OkQuant(b.quant) && (b.atom.Zero? ==> b.quant.Once?) && OkSBranch(b.rest)
  }

  predicate OkSAlts(a: SrcAlts) { OkSBranch(a.branch) && (a.SOr? ==> OkSAlts(a.more)) }

  // --- ordered matching -------------------------------------------------------

  function CloseParen(number: nat, start: nat, st: State): State {
    if number > 0 then st.(caps := st.caps[number := (start, st.pos)]) else st
  }

  function TryAtom(a: Atom, e: Env, st: State, k: Kont): Option<State>
    decreases a, 0
  {
    match a
    case One(it) => if MatchesAt(it, e, st.pos) then k(At(st, st.pos + 1)) else None
    case Zero(op) => if Holds(op, e, st.pos) then k(st) else None
    case Paren(number, alts) => TrySAlts(alts, e, st, r => k(CloseParen(number, st.pos, r)))
  }

  function Prefer(lazy: bool, more: Option<State>, stop: Option<State>): Option<State> {
    if lazy then OrElse(stop, more) else OrElse(more, stop)
  }

  /** `lo` copies and then up to `extra` more, as many or as few as possible; -1 means without limit. */
  function TryTimes(a: Atom, lo: nat, extra: int, lazy: bool, e: Env, st: State, k: Kont): Option<State>
    decreases a, 1, lo, if extra >= 0 then extra else |e.s| - st.pos, 1
  {
    if lo > 0 then TryAtom(a, e, st, r => AfterCopy(a, lo, extra, lazy, e, st.pos, r, k))
    else if extra == 0 then k(st)
    else Prefer(lazy, TryAtom(a, e, st, r => AfterCopy(a, 0, extra, lazy, e, st.pos, r, k)), k(st))
  }

  /** A copy that started at offset `start` has been matched. Where there is no limit, a copy that has consumed
      nothing is not followed by another. */
  function AfterCopy(a: Atom, lo: nat, extra: int, lazy: bool, e: Env, start: nat, r: State, k: Kont): Option<State>
    decreases a, 1, lo, if extra >= 0 then extra else |e.s| - start, 0
  {
    if lo > 1 || (lo == 1 && extra >= 0) then TryTimes(a, lo - 1, extra, lazy, e, r, k)
    else if extra > 0 then TryTimes(a, 0, extra - 1, lazy, e, r, k)
    else if extra < 0 && start < r.pos <= |e.s| then TryTimes(a, 0, extra, lazy, e, r, k)
    else k(r)
  }

  function Extra(q: Quant): int
    requires q.Times?
  {
    if q.max < 0 then UNLIMITED else q.max - q.min
  }

  function TryItem(a: Atom, q: Quant, e: Env, st: State, k: Kont): Option<State>
    decreases a, 2
  {
    match q
    case Once => TryAtom(a, e, st, k)
    case Times(min, _, lazy) => TryTimes(a, min, Extra(q), lazy, e, st, k)
  }

  function TrySBranch(b: SrcBranch, e: Env, st: State, k: Kont): Option<State>
    decreases b
  {
    match b
    case SNil => k(st)
    case SCons(a, q, rest) => TryItem(a, q, e, st, r => TrySBranch(rest, e, r, k))
  }

  function TrySAlts(a: SrcAlts, e: Env, st: State, k: Kont): Option<State>
    decreases a
  {
    match a
    case SLast(b) => TrySBranch(b, e, st, k)
    case SOr(b, more) => OrElse(TrySBranch(b, e, st, k), TrySAlts(more, e, st, k))
  }

  // --- the language -------------------------------------------------------------

  ghost predicate InAtom(a: Atom, e: Env, i: nat, j: nat)
    decreases a, 0
  {
    match a
    case One(it) => j == i + 1 && MatchesAt(it, e, i)
    case Zero(op) => i == j && Holds(op, e, i)
    case Paren(_, alts) => InSAlts(alts, e, i, j)
  }

  ghost predicate InTimes(a: Atom, lo: nat, extra: int, e: Env, i: nat, j: nat)
    decreases a, 1, lo, if extra >= 0 then extra else |e.s| - i
  {
    if lo > 0 then exists m: nat :: i <= m <= |e.s| && InAtom(a, e, i, m) && InTimes(a, lo - 1, extra, e, m, j)
    else
      || i == j
      || (extra > 0 && exists m: nat :: i <= m <= |e.s| && InAtom(a, e, i, m) && InTimes(a, 0, extra - 1, e, m, j))
      || (extra < 0 && exists m: nat :: i < m <= |e.s| && InAtom(a, e, i, m) && InTimes(a, 0, extra, e, m, j))
  }

  ghost predicate InItem(a: Atom, q: Quant, e: Env, i: nat, j: nat)
    decreases a, 2
  {
    match q
    case Once => InAtom(a, e, i, j)
    case Times(min, _, _) => InTimes(a, min, Extra(q), e, i, j)
  }

  ghost predicate InSBranch(b: SrcBranch, e: Env, i: nat, j: nat)
    decreases b
  {
    match b
    case SNil => i == j
    case SCons(a, q, rest) => exists m: nat :: i <= m <= |e.s| && InItem(a, q, e, i, m) && InSBranch(rest, e, m, j)
  }

  ghost predicate InSAlts(a: SrcAlts, e: Env, i: nat, j: nat)
    decreases a
  {
    InSBranch(a.branch, e, i, j) || (a.SOr? && InSAlts(a.more, e, i, j))
  }

  lemma {:induction false} AtomSpan(a: Atom, e: Env, i: nat, j: nat)
    requires i <= |e.s| && InAtom(a, e, i, j)
    ensures i <= j <= |e.s|
    decreases a, 0
  {
    if a.Paren? { SAltsSpan(a.alts, e, i, j); }
  }

  lemma {:induction false} TimesSpan(a: Atom, lo: nat, extra: int, e: Env, i: nat, j: nat)
    requires i <= |e.s| && InTimes(a, lo, extra, e, i, j)
    ensures i <= j <= |e.s|
    decreases a, 1, lo, if extra >= 0 then extra else |e.s| - i
  {
    if lo > 0 {
      var m: nat :| i <= m <= |e.s| && InAtom(a, e, i, m) && InTimes(a, lo - 1, extra, e, m, j);
      TimesSpan(a, lo - 1, extra, e, m, j);
    } else if i != j && extra > 0 {
      var m: nat :| i <= m <= |e.s| && InAtom(a, e, i, m) && InTimes(a, 0, extra - 1, e, m, j);
      TimesSpan(a, 0, extra - 1, e, m, j);
    } else if i != j {
      var m: nat :| i < m <= |e.s| && InAtom(a, e, i, m) && InTimes(a, 0, extra, e, m, j);
      TimesSpan(a, 0, extra, e, m, j);
    }
  }

  lemma {:induction false} ItemSpan(a: Atom, q: Quant, e: Env, i: nat, j: nat)
    requires i <= |e.s| && InItem(a, q, e, i, j)
    ensures i <= j <= |e.s|
    decreases a, 2
  {
    if q.Once? { AtomSpan(a, e, i, j); } else { TimesSpan(a, q.min, Extra(q), e, i, j); }
  }

  lemma {:induction false} SBranchSpan(b: SrcBranch, e: Env, i: nat, j: nat)
    requires i <= |e.s| && InSBranch(b, e, i, j)
    ensures i <= j <= |e.s|
    decreases b
  {
    if b.SCons? {
      var m: nat :| i <= m <= |e.s| && InItem(b.atom, b.quant, e, i, m) && InSBranch(b.rest, e, m, j);
      SBranchSpan(b.rest, e, m, j);
    }
  }

  lemma {:induction false} SAltsSpan(a: SrcAlts, e: Env, i: nat, j: nat)
    requires i <= |e.s| && InSAlts(a, e, i, j)
    ensures i <= j <= |e.s|
    decreases a
  {
    if InSBranch(a.branch, e, i, j) { SBranchSpan(a.branch, e, i, j); } else { SAltsSpan(a.more, e, i, j); }
  }
}
