/** What the items of the parsed pattern can match, and the lengths that can be seen from the items. */
module ParsedLength {
  import opened Regex
  import opened ParsedPattern

  /** The pattern around what is being looked at: the contents of the groups by their numbers, and where they begin; the
      numbers of the groups that are referred to; the contents of the lookbehind that opens at a unit; and the branch of
      a lookbehind that begins after a unit. */
  datatype Groups = Groups(contents: nat -> PAlts, at: nat -> nat, used: iset<nat>, looks: nat -> PAlts,
                           behind: nat -> PBranch)

  const UNLIMITED := 65536

  // --- what a pattern can match ---------------------------------------------------------------------

  /** A subject, what the items of one character take, where the items without width hold, and which characters a back
      reference takes to be the same. */
  datatype Setting = Setting(s: seq<int>, takes: (seq<int>, int) -> bool, holds: (seq<int>, int) -> bool,
                             alike: (int, int) -> bool)

  predicate ZeroWidth(units: seq<int>)
    requires |units| > 0
  {
    var u := units[0];
    || u == META_CIRCUMFLEX || u == META_DOLLAR || Meta(u) == META_OPTIONS || Meta(u) == META_CALLOUT_NUMBER
    || Meta(u) == META_CALLOUT_STRING || (Meta(u) == META_ESCAPE && Data(u) in {1, 2, 3, 4, 5, 23, 24, 25, 26})
  }

  /** \R and \X: one character or more. */
  predicate Varies(units: seq<int>)
    requires |units| > 0
  {
    Meta(units[0]) == META_ESCAPE && (Data(units[0]) == ESC_R || Data(units[0]) == ESC_X)
  }

  predicate Times(q: PQuant, k: nat) {
    match q
    case NoQuant => k == 1
    case Counted(_, min, max) => min <= k && (max == UNLIMITED || k <= max)
    case Open(unit) =>
      if Meta(unit) < META_PLUS then true else if Meta(unit) < META_QUERY then k > 0 else k <= 1
  }

  predicate InSimple(units: seq<int>, e: Setting, i: int, j: int)
    requires |units| > 0
  {
    if ZeroWidth(units) then i == j && e.holds(units, i)
    else if Varies(units) then i < j <= |e.s|
    else 0 <= i < |e.s| && j == i + 1 && e.takes(units, e.s[i])
  }

  /** Lookarounds and definitions. */
  predicate NoWidth(k: Kind) { k.AheadKind? || k.BehindKind? || k.DefinitionKind? }

  /** The item can match from i to j, with references to groups inside each other d times at most. What a back reference
      matches is like something that its group can match; a lookaround can hold anywhere; a condition can be true or
      false, and one with a single branch matches nothing when it is false. */
  ghost predicate InAtom(g: Groups, a: PAtom, d: nat, e: Setting, i: int, j: int)
    decreases d, a, 0
  {
    match a
    case Simple(units) => |units| > 0 && InSimple(units, e, i, j)
    case Bracket(kind, _, _, alts) =>
      if NoWidth(kind) then i == j
      else InAlts(g, alts, d, e, i, j) || (kind.ConditionKind? && alts.PLast? && i == j)
    case Reference(unit, _) =>
      d > 0 &&
      if Meta(unit) == META_RECURSE then InAlts(g, g.contents(Data(unit)), d - 1, e, i, j)
      else exists p: int, q: int :: InAlts(g, g.contents(Data(unit)), d - 1, e, p, q) && j - i == q - p
                                    && Alike(e, p, q, i)
  }

  /** The characters from p to q are like those from i on. */
  predicate Alike(e: Setting, p: int, q: int, i: int) {
    forall k {:trigger e.s[k]} :: p <= k < q && 0 <= k < |e.s| && 0 <= k - p + i < |e.s| ==>
      e.alike(e.s[k], e.s[k - p + i])
  }

  ghost predicate InCopies(g: Groups, a: PAtom, k: nat, d: nat, e: Setting, i: int, j: int)
    decreases d, a, k + 1
  {
    if k == 0 then i == j else exists m: int :: InAtom(g, a, d, e, i, m) && InCopies(g, a, k - 1, d, e, m, j)
  }

  ghost predicate InBranch(g: Groups, b: PBranch, d: nat, e: Setting, i: int, j: int)
    decreases d, b, 0
  {
    if b.PNil? then i == j
    else exists k: nat, m: int :: Times(b.quant, k) && InCopies(g, b.atom, k, d, e, i, m)
                                  && InBranch(g, b.rest, d, e, m, j)
  }

  ghost predicate InAlts(g: Groups, a: PAlts, d: nat, e: Setting, i: int, j: int)
    decreases d, a, 0
  {
    InBranch(g, a.branch, d, e, i, j) || (a.POr? && InAlts(g, a.more, d, e, i, j))
  }

  // --- lengths ------------------------------------------------------------------------------------

  function Width(units: seq<int>): Option<int>
    requires |units| > 0
  {
    var u := units[0];
    if u == META_CLASS_EMPTY || Varies(units) then None else Some(if ZeroWidth(units) then 0 else 1)
  }

  /** The length of everything that an item can match, if that can be seen with references inside each other d times. */
  function AtomLength(g: Groups, a: PAtom, d: nat): Option<int>
    decreases d, a
  {
    match a
    case Simple(units) => if units == [] then None else Width(units)
    case Bracket(kind, _, _, alts) => if NoWidth(kind) then Some(0) else AltsLength(g, alts, d)
    case Reference(unit, _) => if d == 0 then None else AltsLength(g, g.contents(Data(unit)), d - 1)
  }

  function Repeated(n: Option<int>, q: PQuant): Option<int> {
    match q
    case NoQuant => n
    case Counted(_, min, max) => if n.Some? && min == max && max != UNLIMITED then Some(min * n.value) else None
    case Open(_) => None
  }

  /** Whatever quantifier a lookahead has, it does not count. */
  function ItemLength(n: Option<int>, a: PAtom, q: PQuant): Option<int> {
    if a.Bracket? && a.kind.AheadKind? then Some(0) else Repeated(n, q)
  }

  function Plus(n: Option<int>, m: Option<int>): Option<int> {
    if n.Some? && m.Some? then Some(n.value + m.value) else None
  }

  function BranchLength(g: Groups, b: PBranch, d: nat): Option<int>
    decreases d, b
  {
    if b.PNil? then Some(0) else Plus(ItemLength(AtomLength(g, b.atom, d), b.atom, b.quant), BranchLength(g, b.rest, d))
  }

  function AltsLength(g: Groups, a: PAlts, d: nat): Option<int>
    decreases d, a
  {
    var n := BranchLength(g, a.branch, d);
    if a.PLast? || n == AltsLength(g, a.more, d) then n else None
  }

  /** More references inside each other do not change a length. */
  lemma {:induction false} AtomStable(g: Groups, a: PAtom, d: nat, d': nat)
    requires d <= d' && AtomLength(g, a, d).Some?
    ensures AtomLength(g, a, d') == AtomLength(g, a, d)
    decreases d, a
  {
    match a
    case Simple(_) =>
    case Bracket(kind, _, _, alts) => if !NoWidth(kind) { AltsStable(g, alts, d, d'); }
    case Reference(unit, _) => AltsStable(g, g.contents(Data(unit)), d - 1, d' - 1);
  }

  lemma {:induction false} BranchStable(g: Groups, b: PBranch, d: nat, d': nat)
    requires d <= d' && BranchLength(g, b, d).Some?
    ensures BranchLength(g, b, d') == BranchLength(g, b, d)
    decreases d, b
  {
    if b.PCons? {
      if AtomLength(g, b.atom, d).Some? { AtomStable(g, b.atom, d, d'); }
      BranchStable(g, b.rest, d, d');
    }
  }

  lemma {:induction false} AltsStable(g: Groups, a: PAlts, d: nat, d': nat)
    requires d <= d' && AltsLength(g, a, d).Some?
    ensures AltsLength(g, a, d') == AltsLength(g, a, d)
    decreases d, a
  {
    BranchStable(g, a.branch, d, d');
    if a.POr? { AltsStable(g, a.more, d, d'); }
  }

  // --- a length is the length of everything that can be matched ----------------------------------------

  /** No condition has a single branch, neither here nor in the groups that are referred to. */
  predicate TwoSidedAtom(g: Groups, a: PAtom) {
    match a
    case Simple(_) => true
    case Bracket(kind, _, _, alts) => NoWidth(kind) || (TwoSidedAlts(g, alts) && (kind.ConditionKind? ==> alts.POr?))
    case Reference(unit, _) => Data(unit) in g.used
  }

  predicate TwoSidedBranch(g: Groups, b: PBranch) {
    b.PCons? ==> TwoSidedAtom(g, b.atom) && TwoSidedBranch(g, b.rest)
  }

  predicate TwoSidedAlts(g: Groups, a: PAlts) { TwoSidedBranch(g, a.branch) && (a.POr? ==> TwoSidedAlts(g, a.more)) }

  ghost predicate AllTwoSided(g: Groups) {
    forall n: nat {:trigger g.contents(n)} :: n in g.used ==> TwoSidedAlts(g, g.contents(n))
  }

  lemma {:induction false} AtomExact(g: Groups, a: PAtom, d: nat, n: int, d': nat, e: Setting, i: int, j: int)
    requires AtomLength(g, a, d) == Some(n) && InAtom(g, a, d', e, i, j) && TwoSidedAtom(g, a) && AllTwoSided(g)
    ensures j == i + n
    decreases d', a, 0
  {
    match a
    case Simple(_) =>
    case Bracket(kind, _, _, alts) => if !NoWidth(kind) { AltsExact(g, alts, d, n, d', e, i, j); }
    case Reference(unit, _) =>
      if Meta(unit) == META_RECURSE {
        AltsExact(g, g.contents(Data(unit)), d - 1, n, d' - 1, e, i, j);
      } else {
        var p: int, q: int :| InAlts(g, g.contents(Data(unit)), d' - 1, e, p, q) && j - i == q - p && Alike(e, p, q, i);
        AltsExact(g, g.contents(Data(unit)), d - 1, n, d' - 1, e, p, q);
      }
  }

  lemma {:induction false} CopiesExact(g: Groups, a: PAtom, k: nat, d: nat, n: int, d': nat, e: Setting, i: int, j: int)
    requires AtomLength(g, a, d) == Some(n) && InCopies(g, a, k, d', e, i, j) && TwoSidedAtom(g, a) && AllTwoSided(g)
    ensures j == i + k * n
    decreases d', a, k + 1
  {
    if k > 0 {
      var m: int :| InAtom(g, a, d', e, i, m) && InCopies(g, a, k - 1, d', e, m, j);
      AtomExact(g, a, d, n, d', e, i, m);
      CopiesExact(g, a, k - 1, d, n, d', e, m, j);
      OneMore(k, n);
    }
  }

  lemma OneMore(k: nat, n: int)
    requires k > 0
    ensures k * n == n + (k - 1) * n
  {
  }

  lemma {:induction false} BranchExact(g: Groups, b: PBranch, d: nat, n: int, d': nat, e: Setting, i: int, j: int)
    requires BranchLength(g, b, d) == Some(n) && InBranch(g, b, d', e, i, j) && TwoSidedBranch(g, b) && AllTwoSided(g)
    ensures j == i + n
    decreases d', b, 0
  {
    if b.PCons? {
      var k: nat, m: int :| Times(b.quant, k) && InCopies(g, b.atom, k, d', e, i, m)
          && InBranch(g, b.rest, d', e, m, j);
      CopiesExact(g, b.atom, k, d, AtomLength(g, b.atom, d).value, d', e, i, m);
      BranchExact(g, b.rest, d, BranchLength(g, b.rest, d).value, d', e, m, j);
    }
  }

  lemma {:induction false} AltsExact(g: Groups, a: PAlts, d: nat, n: int, d': nat, e: Setting, i: int, j: int)
    requires AltsLength(g, a, d) == Some(n) && InAlts(g, a, d', e, i, j) && TwoSidedAlts(g, a) && AllTwoSided(g)
    ensures j == i + n
    decreases d', a, 0
  {
    if InBranch(g, a.branch, d', e, i, j) {
      BranchExact(g, a.branch, d, n, d', e, i, j);
    } else {
      AltsExact(g, a.more, d, n, d', e, i, j);
    }
  }

  /** Whatever the branch matches has n characters. */
  ghost predicate Exact(g: Groups, b: PBranch, n: int) {
    forall d: nat, e: Setting, i: int, j: int {:trigger InBranch(g, b, d, e, i, j)} ::
      InBranch(g, b, d, e, i, j) ==> j == i + n
  }

  lemma LengthExact(g: Groups, b: PBranch, d: nat, n: int)
    requires BranchLength(g, b, d) == Some(n) && TwoSidedBranch(g, b) && AllTwoSided(g)
    ensures Exact(g, b, n)
  {
    forall d': nat, e: Setting, i: int, j: int | InBranch(g, b, d', e, i, j) ensures j == i + n {
      BranchExact(g, b, d, n, d', e, i, j);
    }
  }

  ghost predicate AtomIsExact(g: Groups, a: PAtom, n: int) {
    forall d: nat, e: Setting, i: int, j: int {:trigger InAtom(g, a, d, e, i, j)} ::
      InAtom(g, a, d, e, i, j) ==> j == i + n
  }

  /** A condition with a single branch has the length of that branch, but matches nothing when it is false: the length
      is right exactly when it is 0. */
  lemma OneSided(g: Groups, open: int, head: nat, b: PBranch, d: nat, n: int)
    requires TwoSidedBranch(g, b) && AllTwoSided(g) && BranchLength(g, b, d) == Some(n)
    ensures var a := Bracket(ConditionKind, open, head, PLast(b));
            AtomLength(g, a, d) == Some(n) && (AtomIsExact(g, a, n) <==> n == 0)
  {
    var a, e := Bracket(ConditionKind, open, head, PLast(b)),
        Setting([], (_, _) => true, (_, _) => true, (_, _) => true);
    assert InAtom(g, a, 0, e, 0, 0);
    if n == 0 {
      forall d': nat, e: Setting, i: int, j: int | InAtom(g, a, d', e, i, j) ensures j == i + n {
        if InAlts(g, a.alts, d', e, i, j) { BranchExact(g, b, d, n, d', e, i, j); }
      }
    }
  }
}
