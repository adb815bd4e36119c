/** The parsed pattern: a vector of literals and meta codes with their data, how groups are skipped in it, and how a
    group is found by its number. */
module ParsedPattern {
  import opened Folding
  import opened Regex

  /** Always true, like Look, for facts about single units: unfolding what is laid out does not unfold them. */
  predicate Peek(k: int) { true }

  type Code = seq<int>

  const META_END := 0x8000_0000
  const META_ALT := 0x8001_0000
  const META_ATOMIC := 0x8002_0000
  const META_BACKREF := 0x8003_0000
  const META_BACKREF_BYNAME := 0x8004_0000
  const META_BIGVALUE := 0x8005_0000
  const META_CALLOUT_NUMBER := 0x8006_0000
  const META_CALLOUT_STRING := 0x8007_0000
  const META_CAPTURE := 0x8008_0000
  const META_CIRCUMFLEX := 0x8009_0000
  const META_CLASS := 0x800a_0000
  const META_CLASS_EMPTY := 0x800b_0000
  const META_CLASS_EMPTY_NOT := 0x800c_0000
  const META_CLASS_END := 0x800d_0000
  const META_CLASS_NOT := 0x800e_0000
  const META_COND_ASSERT := 0x800f_0000
  const META_COND_DEFINE := 0x8010_0000
  const META_COND_NAME := 0x8011_0000
  const META_COND_VERSION := 0x8015_0000
  const META_DOLLAR := 0x8016_0000
  const META_DOT := 0x8017_0000
  const META_ESCAPE := 0x8018_0000
  const META_KET := 0x8019_0000
  const META_NOCAPTURE := 0x801a_0000
  const META_OPTIONS := 0x801b_0000
  const META_POSIX := 0x801c_0000
  const META_POSIX_NEG := 0x801d_0000
  const META_RANGE_LITERAL := 0x801f_0000
  const META_RECURSE := 0x8020_0000
  const META_RECURSE_BYNAME := 0x8021_0000
  const META_SCRIPT_RUN := 0x8022_0000
  const META_LOOKAHEAD := 0x8023_0000
  const META_LOOKAHEADNOT := 0x8024_0000
  const META_LOOKBEHIND := 0x8025_0000
  const META_LOOKBEHINDNOT := 0x8026_0000
  const META_LOOKAHEAD_NA := 0x8027_0000
  const META_LOOKBEHIND_NA := 0x8028_0000
  const META_MARK := 0x8029_0000
  const META_COMMIT_ARG := 0x802d_0000
  const META_PRUNE_ARG := 0x802f_0000
  const META_SKIP_ARG := 0x8031_0000
  const META_THEN_ARG := 0x8033_0000
  const META_ASTERISK := 0x8034_0000
  const META_PLUS := 0x8037_0000
  const META_QUERY := 0x803a_0000
  const META_MINMAX := 0x803d_0000
  const META_MINMAX_QUERY := 0x803f_0000

  const ESC_b := 5
  const ESC_P := 15
  const ESC_p := 16
  const ESC_R := 17
  const ESC_X := 22
  const ESC_Z := 23
  const ESC_g := 27
  const ESC_k := 28

  /** An offset takes up two units. */
  const SIZEOFFSET := 2

  /** The meta code of a unit, without its data. */
  function Meta(u: int): int { u - u % 0x1_0000 }

  function Data(u: int): nat { u % 0x1_0000 }

  /** The number of units of data after each meta code. */
  function ExtraLength(meta: int): nat {
    if meta == META_BIGVALUE || META_OPTIONS <= meta <= META_POSIX_NEG || IsNamedVerb(meta) then 1
    else if meta == META_COND_DEFINE || meta == META_RECURSE || meta == META_LOOKBEHIND || meta == META_LOOKBEHINDNOT
            || meta == META_LOOKBEHIND_NA || META_MINMAX <= meta <= META_MINMAX_QUERY then 2
    else if meta == META_BACKREF_BYNAME || meta == META_CALLOUT_NUMBER || META_COND_NAME <= meta <= META_COND_VERSION
            || meta == META_RECURSE_BYNAME then 3
    else if meta == META_CALLOUT_STRING then 5
    else 0
  }

  /** The data of some items depend on their own data: escapes and back references to high numbers. */
  function MoreData(u: int): nat {
    if Meta(u) == META_BACKREF then (if Data(u) >= 10 then SIZEOFFSET else 0)
    else if Meta(u) == META_ESCAPE then
      if Data(u) == ESC_P || Data(u) == ESC_p then 1
      else if Data(u) == ESC_g || Data(u) == ESC_k then 1 + SIZEOFFSET
      else 0
    else 0
  }

  predicate IsNamedVerb(meta: int) {
    || meta == META_MARK || meta == META_COMMIT_ARG || meta == META_PRUNE_ARG || meta == META_SKIP_ARG
    || meta == META_THEN_ARG
  }

  /** The number of units of data after u, apart from the name of a verb; None if there is no such meta code. */
  function DataSize(u: int): Option<nat> {
    if u < META_END then Some(0)
    else if Meta(u) > META_MINMAX_QUERY then None
    else Some(ExtraLength(Meta(u)) + MoreData(u))
  }

  function NameSize(c: Code, p: nat): nat
    requires p < |c|
  {
    if IsNamedVerb(Meta(c[p])) && p + 1 < |c| && c[p + 1] > 0 then c[p + 1] else 0
  }

  // --- skipping --------------------------------------------------------------------------------

  /** What ends a skip: the end of a class, an alternative or a closing bracket, or only a closing bracket. */
  datatype SkipType = ToClassEnd | ToAlt | ToKet

  predicate Opens(meta: int) {
    || meta == META_ATOMIC || meta == META_CAPTURE || (META_COND_ASSERT <= meta <= META_COND_VERSION)
    || (META_LOOKAHEAD <= meta <= META_LOOKBEHIND_NA) || meta == META_NOCAPTURE || meta == META_SCRIPT_RUN
  }

  predicate StopsAt(meta: int, kind: SkipType, nest: nat) {
    || (meta == META_CLASS_END && kind.ToClassEnd?)
    || (meta == META_ALT && kind.ToAlt? && nest == 0)
    || (meta == META_KET && nest == 0)
  }

  function Nested(meta: int, nest: nat): nat {
    if Opens(meta) then nest + 1 else if meta == META_KET && nest > 0 then nest - 1 else nest
  }

  /** Where a skip from p on ends when `nest` groups have been entered. */
  function Skip(c: Code, p: nat, kind: SkipType, nest: nat): (r: Option<nat>)
    ensures r.Some? ==> p <= r.value < |c|
    decreases |c| - p
  {
    if p >= |c| then None
    else if c[p] < META_END then Skip(c, p + 1, kind, nest)
    else if Meta(c[p]) == META_END then None
    else if StopsAt(Meta(c[p]), kind, nest) then Some(p)
    else if DataSize(c[p]).None? then None
    else Skip(c, p + 1 + DataSize(c[p]).value + NameSize(c, p), kind, Nested(Meta(c[p]), nest))
  }

  method ParsedSkip(c: Code, p0: nat, kind: SkipType) returns (r: Option<nat>)
    ensures r == Skip(c, p0, kind, 0)
  {
    var p, nest: nat := p0, 0;
    while p < |c|
      invariant Skip(c, p, kind, nest) == Skip(c, p0, kind, 0)
      decreases |c| - p
    {
      var u := c[p];
      if u >= META_END {
        if Meta(u) == META_END { return None; }
        if StopsAt(Meta(u), kind, nest) { return Some(p); }
        if Opens(Meta(u)) { nest := nest + 1; } else if Meta(u) == META_KET { nest := nest - 1; }
        if DataSize(u).None? { return None; }
        p := p + DataSize(u).value + NameSize(c, p);
      }
      p := p + 1;
    }
    r := None;
  }

  // --- finding a group --------------------------------------------------------------------------

  /** The search for a unit that goes from unit to unit, over the unit after each one that looks like the start of a
      large literal; the end of the vector if it is not found. */
  function Scan(c: Code, p: nat, t: int): (r: nat)
    decreases |c| - p
  {
    if p >= |c| || c[p] == META_END then p
    else if Meta(c[p]) == META_BIGVALUE then Scan(c, p + 2, t)
    else if c[p] == t then p
    else Scan(c, p + 1, t)
  }

  method FindGroup(c: Code, t: int) returns (r: nat)
    ensures r == Scan(c, 0, t)
  {
    r := 0;
    while r < |c| && c[r] != META_END
      invariant Scan(c, r, t) == Scan(c, 0, t)
      decreases |c| - r
    {
      if Meta(c[r]) == META_BIGVALUE { r := r + 1; } else if c[r] == t { return; }
      r := r + 1;
    }
  }

  /** From p on the vector consists of items with their data. The literals are small; only the value of an options item
      may look like a meta code. */
  predicate Items(c: Code, p: nat)
    decreases |c| - p
  {
    && p < |c| && DataSize(c[p]).Some? && Meta(c[p]) != META_BIGVALUE
    && (if c[p] == META_END then p + 1 == |c| else Items(c, NextItem(c, p)))
    && forall i {:trigger c[i]} :: p < i < NextItem(c, p) && i < |c| ==> c[i] < META_END || Meta(c[p]) == META_OPTIONS
  }

  function NextItem(c: Code, p: nat): (q: nat)
    requires p < |c| && DataSize(c[p]).Some?
    ensures q > p
  {
    p + 1 + DataSize(c[p]).value + NameSize(c, p)
  }

  /** The first item t from p on. */
  function FirstOf(c: Code, p: nat, t: int): (r: Option<nat>)
    requires Items(c, p)
    ensures r.Some? ==> p <= r.value < |c| && c[r.value] == t
    decreases |c| - p
  {
    if c[p] == t then Some(p) else if c[p] == META_END then None else FirstOf(c, NextItem(c, p), t)
  }

  /** What the search would take for something else, when it is data. */
  predicate Misleads(u: int, t: int) { u == t || u == META_END || Meta(u) == META_BIGVALUE }

  /** No unit from p to r is like t or like the end of the vector, and the unit just before r is not like the start of a
      large literal. */
  predicate Visible(c: Code, p: nat, r: nat, t: int)
    requires r < |c|
  {
    (forall i :: p <= i < r ==> c[i] != t && c[i] != META_END) && (r > p ==> Meta(c[r - 1]) != META_BIGVALUE)
  }

  /** Before the first item t, only the value of an options item can mislead. */
  predicate OnlyOptions(c: Code, p: nat, r: nat, t: int)
    requires r < |c|
  {
    forall i {:trigger c[i]} :: p <= i < r && Misleads(c[i], t) ==> i > 0 && Meta(c[i - 1]) == META_OPTIONS
  }

  lemma {:induction false} FirstPlace(c: Code, p: nat, t: int)
    requires Items(c, p) && FirstOf(c, p, t).Some? && Meta(t) == META_CAPTURE
    ensures var r := FirstOf(c, p, t).value; p <= r < |c| && c[r] == t && OnlyOptions(c, p, r, t)
    decreases |c| - p
  {
    if c[p] != t {
      var q := NextItem(c, p);
      FirstPlace(c, q, t);
      var r := FirstOf(c, p, t).value;
      forall i | p <= i < q && Misleads(c[i], t) ensures i > 0 && Meta(c[i - 1]) == META_OPTIONS {
        if Meta(c[p]) == META_OPTIONS { OptionsSize(c[p]); }
      }
    }
  }

  lemma OptionsSize(u: int)
    requires Meta(u) == META_OPTIONS
    ensures DataSize(u) == Some(1)
  {
  }

  lemma {:induction false} ScanFinds(c: Code, p: nat, r: nat, t: int)
    requires p <= r < |c| && c[r] == t && Meta(t) == META_CAPTURE && OnlyOptions(c, p, r, t)
    ensures Scan(c, p, t) == r <==> Visible(c, p, r, t)
    decreases r - p
  {
    if p < r {
      if Meta(c[p]) == META_BIGVALUE {
        assert p + 1 < r ==> !Misleads(c[p + 1], t);
        if p + 1 < r { ScanFinds(c, p + 2, r, t); } else { ScanAfter(c, p + 2, t); }
      } else {
        ScanFinds(c, p + 1, r, t);
      }
    }
  }

  lemma {:induction false} ScanAfter(c: Code, p: nat, t: int)
    ensures Scan(c, p, t) >= p
    decreases |c| - p
  {
    if p < |c| {
      if Meta(c[p]) == META_BIGVALUE { ScanAfter(c, p + 2, t); } else { ScanAfter(c, p + 1, t); }
    }
  }

  /** The search for a group finds it exactly when no options value before it is like the start of the group or like the
      end of the vector, and the unit before it is not like the start of a large literal. */
  lemma GroupFound(c: Code, t: int)
    requires Items(c, 0) && FirstOf(c, 0, t).Some? && Meta(t) == META_CAPTURE
    ensures var r := FirstOf(c, 0, t).value;
            r < |c| && c[r] == t && (Scan(c, 0, t) == r <==> Visible(c, 0, r, t))
  {
    FirstPlace(c, 0, t);
    ScanFinds(c, 0, FirstOf(c, 0, t).value, t);
  }

  // --- items and groups ----------------------------------------------------------------------------

  /** `Simple` stands for everything that is not a group or a reference to one, with its units. A bracket is a group, a
      condition or a lookaround. */
  datatype PAtom =
    | Simple(units: seq<int>)
    | Bracket(kind: Kind, open: int, head: nat, alts: PAlts)
    | Reference(unit: int, offset: seq<int>)

  datatype Kind = GroupKind | ConditionKind | DefinitionKind | AheadKind | BehindKind

  datatype PQuant = NoQuant | Counted(unit: int, min: nat, max: int) | Open(unit: int)

  datatype PBranch = PNil | PCons(atom: PAtom, quant: PQuant, rest: PBranch)

  datatype PAlts = PLast(branch: PBranch) | POr(branch: PBranch, more: PAlts)

  /** The units before the contents of a bracket. */
  function HeadUnits(open: int): (n: nat)
    ensures n > 0
  {
    1 + ExtraLength(Meta(open))
  }

  function AtomUnits(a: PAtom): nat
  {
    match a
    case Simple(units) => |units|
    case Bracket(_, _, head, alts) => head + AltsUnits(alts) + 1
    case Reference(_, offset) => 1 + |offset|
  }

  function QuantUnits(q: PQuant): nat {
    match q
    case NoQuant => 0
    case Counted(_, _, _) => 3
    case Open(_) => 1
  }

  function BranchUnits(b: PBranch): nat {
    if b.PNil? then 0 else AtomUnits(b.atom) + QuantUnits(b.quant) + BranchUnits(b.rest)
  }

  function AltsUnits(a: PAlts): nat {
    BranchUnits(a.branch) + if a.POr? then 1 + AltsUnits(a.more) else 0
  }

  predicate IsAt(c: Code, p: nat, units: seq<int>) { p + |units| <= |c| && c[p..p + |units|] == units }

  predicate SmallData(c: Code, p: nat, q: nat) {
    q <= |c| && forall i {:trigger c[i]} :: p <= i < q ==> c[i] < META_END
  }

  predicate AtomAt(c: Code, p: nat, a: PAtom)
    decreases a
  {
    match a
    case Simple(units) => IsAt(c, p, units)
    case Bracket(_, open, head, alts) =>
      && p < |c| && c[p] == open && SmallData(c, p + 1, p + head) && AltsAt(c, p + head, alts)
      && p + head + AltsUnits(alts) < |c| && c[p + head + AltsUnits(alts)] == META_KET
    case Reference(unit, offset) => p < |c| && c[p] == unit && IsAt(c, p + 1, offset)
  }

  predicate QuantAt(c: Code, p: nat, q: PQuant) {
    match q
    case NoQuant => true
    case Counted(unit, min, max) => p + 3 <= |c| && c[p] == unit && c[p + 1] == min && c[p + 2] == max
    case Open(unit) => p < |c| && c[p] == unit
  }

  predicate BranchAt(c: Code, p: nat, b: PBranch)
    decreases b
  {
    if b.PNil? then p <= |c|
    else
      && AtomAt(c, p, b.atom)
      && QuantAt(c, p + AtomUnits(b.atom), b.quant)
      && BranchAt(c, p + AtomUnits(b.atom) + QuantUnits(b.quant), b.rest)
  }

  /** Alternatives from p on, with the ALT between them; there is a unit after the last one. */
  predicate AltsAt(c: Code, p: nat, a: PAlts)
    decreases a
  {
    && BranchAt(c, p, a.branch)
    && p + BranchUnits(a.branch) < |c|
    && (a.POr? ==>
          && c[p + BranchUnits(a.branch)] == META_ALT
          && AltsAt(c, p + BranchUnits(a.branch) + 1, a.more))
  }

  predicate IsQuantifier(meta: int) { META_ASTERISK <= meta <= META_MINMAX_QUERY }

  /** What may stand in a class. */
  predicate InClass(u: int) {
    || u < META_END || META_POSIX <= Meta(u) <= META_RANGE_LITERAL || Meta(u) == META_BIGVALUE
    || (Meta(u) == META_ESCAPE && Data(u) < ESC_g)
  }

  /** From unit i on: what may stand in a class, and its end. */
  predicate ClassBody(units: seq<int>, i: nat)
    decreases |units| - i
  {
    && i < |units|
    && ((units[i] == META_CLASS_END && i + 1 == |units|)
        || (InClass(units[i]) && ClassBody(units, i + 1 + DataSize(units[i]).value)))
  }

  /** What stands alone, with its data. */
  predicate Alone(u: int) {
    || u < META_END || Meta(u) == META_BIGVALUE || Meta(u) == META_CALLOUT_NUMBER || Meta(u) == META_CALLOUT_STRING
    || u == META_CIRCUMFLEX || u == META_DOLLAR || u == META_DOT || u == META_CLASS_EMPTY || u == META_CLASS_EMPTY_NOT
    || Meta(u) == META_OPTIONS || (Meta(u) == META_ESCAPE && 0 < Data(u) < ESC_g)
  }

  predicate ProperSimple(units: seq<int>) {
    && |units| > 0
    && if units[0] == META_CLASS || units[0] == META_CLASS_NOT then ClassBody(units, 1)
       else Alone(units[0]) && DataSize(units[0]).Some? && |units| == 1 + DataSize(units[0]).value
  }

  predicate IsGroup(u: int) {
    Meta(u) == META_CAPTURE || u == META_NOCAPTURE || u == META_ATOMIC || u == META_SCRIPT_RUN
  }

  predicate IsCondition(u: int) { META_COND_ASSERT <= Meta(u) <= META_COND_VERSION && Meta(u) != META_COND_DEFINE }

  predicate IsLookahead(u: int) { u == META_LOOKAHEAD || u == META_LOOKAHEADNOT || u == META_LOOKAHEAD_NA }

  predicate IsLookbehind(u: int) { u == META_LOOKBEHIND || u == META_LOOKBEHINDNOT || u == META_LOOKBEHIND_NA }

  predicate IsOpening(u: int) {
    IsGroup(u) || IsCondition(u) || Meta(u) == META_COND_DEFINE || IsLookahead(u) || IsLookbehind(u)
  }

  function KindOf(u: int): Kind {
    if IsLookbehind(u) then BehindKind
    else if IsLookahead(u) then AheadKind
    else if Meta(u) == META_COND_DEFINE then DefinitionKind
    else if IsCondition(u) then ConditionKind
    else GroupKind
  }

  /** The units of an item, apart from its contents. */
  ghost predicate ProperUnit(a: PAtom) {
    forall k: int {:trigger Peek(k)} :: Peek(k) ==>
      match a
      case Simple(units) => ProperSimple(units)
      case Bracket(kind, open, head, _) => IsOpening(open) && kind == KindOf(open) && head == HeadUnits(open)
      case Reference(unit, offset) =>
        && (Meta(unit) == META_RECURSE || Meta(unit) == META_BACKREF)
        && DataSize(unit).Some? && |offset| == DataSize(unit).value && SmallData(offset, 0, |offset|)
  }

  ghost predicate ProperAtom(a: PAtom) { ProperUnit(a) && (a.Bracket? ==> ProperAlts(a.alts)) }

  ghost predicate ProperQuant(q: PQuant) {
    forall k: int {:trigger Peek(k)} :: Peek(k) ==>
      match q
      case NoQuant => true
      case Counted(unit, min, max) => META_MINMAX <= Meta(unit) <= META_MINMAX_QUERY && min < 65536
      case Open(unit) => META_ASTERISK <= Meta(unit) < META_MINMAX
  }

  ghost predicate ProperBranch(b: PBranch) {
    b.PCons? ==> ProperAtom(b.atom) && ProperQuant(b.quant) && ProperBranch(b.rest)
  }

  ghost predicate ProperAlts(a: PAlts) { ProperBranch(a.branch) && (a.POr? ==> ProperAlts(a.more)) }

  // --- skipping what is in a group ------------------------------------------------------------------

  /** One item that neither opens nor closes a group. */
  lemma SkipOne(c: Code, p: nat, q: nat, kind: SkipType, nest: nat)
    requires p < |c| && c[p] != META_END && DataSize(c[p]).Some? && !IsNamedVerb(Meta(c[p]))
    requires q == p + 1 + DataSize(c[p]).value && !StopsAt(Meta(c[p]), kind, nest) && Meta(c[p]) != META_END
    ensures c[p] < META_END || (!Opens(Meta(c[p])) && Meta(c[p]) != META_KET) ==>
              Skip(c, p, kind, nest) == Skip(c, q, kind, nest)
    ensures c[p] >= META_END && Opens(Meta(c[p])) ==> Skip(c, p, kind, nest) == Skip(c, q, kind, nest + 1)
    ensures c[p] >= META_END && Meta(c[p]) == META_KET && nest > 0 ==>
              Skip(c, p, kind, nest) == Skip(c, q, kind, nest - 1)
  {
  }

  /** Meta codes without data. */
  lemma NoData(u: int)
    requires
      || Meta(u) == META_CLASS || Meta(u) == META_CLASS_NOT || Meta(u) == META_CLASS_END
    ensures u >= META_END && DataSize(u) == Some(0)
  {
  }

  lemma SkipOpening(c: Code, p: nat, q: nat, a: PAtom, nest: nat)
    requires a.Bracket? && ProperAtom(a) && p < |c| && c[p] == a.open && q == p + a.head
    ensures Skip(c, p, ToKet, nest) == Skip(c, q, ToKet, nest + 1)
  {
    assert Peek(0);
    OpeningUnit(a.open);
    SkipOne(c, p, q, ToKet, nest);
  }

  lemma OpeningUnit(u: int)
    requires IsOpening(u)
    ensures u >= META_END && DataSize(u) == Some(HeadUnits(u) - 1) && Opens(Meta(u)) && !IsNamedVerb(Meta(u))
    ensures Meta(u) != META_END && Meta(u) != META_KET && Meta(u) != META_ALT && Meta(u) != META_CLASS_END
  {
  }

  lemma SkipKet(c: Code, p: nat, nest: nat)
    requires p < |c| && c[p] == META_KET
    ensures Skip(c, p, ToKet, nest + 1) == Skip(c, p + 1, ToKet, nest)
  {
    SkipOne(c, p, p + 1, ToKet, nest + 1);
  }

  lemma SkipAlt(c: Code, p: nat, nest: nat)
    requires p < |c| && c[p] == META_ALT
    ensures Skip(c, p, ToKet, nest) == Skip(c, p + 1, ToKet, nest)
  {
    SkipOne(c, p, p + 1, ToKet, nest);
  }

  lemma SkipReference(c: Code, p: nat, q: nat, a: PAtom, nest: nat)
    requires a.Reference? && ProperAtom(a) && p < |c| && c[p] == a.unit && q == p + 1 + |a.offset|
    ensures Skip(c, p, ToKet, nest) == Skip(c, q, ToKet, nest)
  {
    assert Peek(0);
    SkipOne(c, p, q, ToKet, nest);
  }

  lemma ClassUnit(u: int)
    requires InClass(u)
    ensures DataSize(u).Some? && Meta(u) != META_END && Meta(u) != META_KET && !Opens(Meta(u)) && Meta(u) != META_ALT
    ensures Meta(u) != META_CLASS_END && !IsNamedVerb(Meta(u))
  {
  }

  lemma SkipClassEnd(c: Code, x: nat, nest: nat)
    requires x < |c| && c[x] == META_CLASS_END
    ensures Skip(c, x, ToClassEnd, nest) == Some(x)
    ensures Skip(c, x, ToKet, nest) == Skip(c, x + 1, ToKet, nest)
  {
    SkipOne(c, x, x + 1, ToKet, nest);
  }

  lemma SkipInClass(c: Code, x: nat, y: nat, kind: SkipType, nest: nat)
    requires x < |c| && InClass(c[x]) && y == x + 1 + DataSize(c[x]).value
    ensures Skip(c, x, kind, nest) == Skip(c, y, kind, nest)
  {
    ClassUnit(c[x]);
    SkipOne(c, x, y, kind, nest);
  }

  lemma {:induction false} SkipClass(c: Code, p: nat, i: nat, units: seq<int>, kind: SkipType, nest: nat)
    requires ClassBody(units, i) && IsAt(c, p, units) && !kind.ToAlt?
    ensures kind.ToClassEnd? ==> Skip(c, p + i, kind, nest) == Some(p + |units| - 1)
    ensures kind.ToKet? ==> Skip(c, p + i, kind, nest) == Skip(c, p + |units|, kind, nest)
    decreases |units| - i
  {
    var x := p + i;
    assert c[x] == c[p..p + |units|][i] == units[i];
    if units[i] == META_CLASS_END && i + 1 == |units| {
      SkipClassEnd(c, x, nest);
    } else {
      var j := i + 1 + DataSize(units[i]).value;
      SkipClass(c, p, j, units, kind, nest);
      SkipInClass(c, x, p + j, kind, nest);
    }
  }

  lemma SkipClassStart(c: Code, p: nat, kind: SkipType, nest: nat)
    requires p < |c| && (c[p] == META_CLASS || c[p] == META_CLASS_NOT)
    ensures Skip(c, p, kind, nest) == Skip(c, p + 1, kind, nest)
  {
    NoData(c[p]);
    SkipOne(c, p, p + 1, kind, nest);
  }

  lemma SkipSimple(c: Code, p: nat, q: nat, units: seq<int>, nest: nat)
    requires ProperSimple(units) && IsAt(c, p, units) && q == p + |units|
    ensures Skip(c, p, ToKet, nest) == Skip(c, q, ToKet, nest)
  {
    assert c[p] == c[p..p + |units|][0] == units[0];
    if units[0] == META_CLASS || units[0] == META_CLASS_NOT {
      SkipClass(c, p, 1, units, ToKet, nest);
      SkipClassStart(c, p, ToKet, nest);
    } else {
      SkipOne(c, p, q, ToKet, nest);
    }
  }

  lemma SkipUnits(c: Code, p: nat, q: nat, a: PAtom, nest: nat)
    requires a.Simple? && ProperAtom(a) && IsAt(c, p, a.units) && q == p + |a.units|
    ensures Skip(c, p, ToKet, nest) == Skip(c, q, ToKet, nest)
  {
    assert Peek(0);
    SkipSimple(c, p, q, a.units, nest);
  }

  /** A skip to a closing bracket passes over an item. */
  lemma {:induction false} SkipAtom(c: Code, p: nat, q: nat, a: PAtom, nest: nat)
    requires ProperAtom(a) && AtomAt(c, p, a) && q == p + AtomUnits(a)
    ensures Skip(c, p, ToKet, nest) == Skip(c, q, ToKet, nest)
    decreases a, 1
  {
    match a
    case Simple(units) => SkipUnits(c, p, q, a, nest);
    case Reference(_, _) => SkipReference(c, p, q, a, nest);
    case Bracket(_, _, _, _) =>
      var x, k := BracketParts(c, p, q, a);
      SkipInside(c, x, k, a, nest + 1);
      SkipAround(c, p, x, k, q, a, nest);
  }

  lemma {:induction false} SkipInside(c: Code, x: nat, k: nat, a: PAtom, nest: nat)
    requires ProperAtom(a) && a.Bracket? && AltsAt(c, x, a.alts) && k == x + AltsUnits(a.alts)
    ensures Skip(c, x, ToKet, nest) == Skip(c, k, ToKet, nest)
    decreases a, 0
  {
    SkipAlts(c, x, k, a.alts, nest);
  }

  lemma SkipAround(c: Code, p: nat, x: nat, k: nat, q: nat, a: PAtom, nest: nat)
    requires a.Bracket? && ProperAtom(a) && p < |c| && c[p] == a.open && k < |c| && c[k] == META_KET && q == k + 1
    requires x == p + a.head && Skip(c, x, ToKet, nest + 1) == Skip(c, k, ToKet, nest + 1)
    ensures Skip(c, p, ToKet, nest) == Skip(c, q, ToKet, nest)
  {
    SkipOpening(c, p, x, a, nest);
    SkipKet(c, k, nest);
  }

  lemma BracketParts(c: Code, p: nat, q: nat, a: PAtom) returns (x: nat, k: nat)
    requires a.Bracket? && AtomAt(c, p, a) && q == p + AtomUnits(a)
    ensures p < |c| && c[p] == a.open && x == p + a.head && AltsAt(c, x, a.alts)
    ensures k == x + AltsUnits(a.alts) && q == k + 1 && k < |c| && c[k] == META_KET
  {
    x := p + a.head;
    k := x + AltsUnits(a.alts);
  }

  lemma SkipQuant(c: Code, p: nat, q: nat, quant: PQuant, nest: nat)
    requires ProperQuant(quant) && QuantAt(c, p, quant) && q == p + QuantUnits(quant)
    ensures Skip(c, p, ToKet, nest) == Skip(c, q, ToKet, nest)
  {
    assert Peek(0);
    if !quant.NoQuant? { SkipOne(c, p, q, ToKet, nest); }
  }

  lemma {:induction false} SkipBranch(c: Code, p: nat, q: nat, b: PBranch, nest: nat)
    requires ProperBranch(b) && BranchAt(c, p, b) && q == p + BranchUnits(b)
    ensures Skip(c, p, ToKet, nest) == Skip(c, q, ToKet, nest)
    decreases b
  {
    if b.PCons? {
      var x := p + AtomUnits(b.atom);
      var y := x + QuantUnits(b.quant);
      SkipAtom(c, p, x, b.atom, nest);
      SkipQuant(c, x, y, b.quant, nest);
      SkipBranch(c, y, q, b.rest, nest);
    }
  }

  lemma {:induction false} SkipAlts(c: Code, p: nat, k: nat, a: PAlts, nest: nat)
    requires ProperAlts(a) && AltsAt(c, p, a) && k == p + AltsUnits(a)
    ensures Skip(c, p, ToKet, nest) == Skip(c, k, ToKet, nest)
    decreases a
  {
    var q := p + BranchUnits(a.branch);
    SkipBranch(c, p, q, a.branch, nest);
    if a.POr? {
      SkipAlt(c, q, nest);
      SkipAlts(c, q + 1, k, a.more, nest);
    }
  }

  /** A skip from inside a group ends at its closing bracket. */
  lemma SkipsToKet(c: Code, p: nat, a: PAlts)
    requires ProperAlts(a) && AltsAt(c, p, a) && p + AltsUnits(a) < |c| && c[p + AltsUnits(a)] == META_KET
    ensures Skip(c, p, ToKet, 0) == Some(p + AltsUnits(a))
  {
    SkipAlts(c, p, p + AltsUnits(a), a, 0);
    SkipEnds(c, p + AltsUnits(a));
  }

  lemma SkipEnds(c: Code, k: nat)
    requires k < |c| && c[k] == META_KET
    ensures Skip(c, k, ToKet, 0) == Some(k)
  {
  }
}
