/** The first and the required code unit that the compiler finds for a pattern: every match begins with
    the one and holds the other. */
module FirstUnit {
  import opened Opcodes
  import opened Regex
  import opened Source
  import opened CaseSwap

  /** What the two units say about a slice from i to j. A first unit that is unset says that nothing
      has been consumed. */
  ghost predicate UnitsAt(first: UnitInfo, req: UnitInfo, s: seq<Unit>, i: nat, j: nat) {
    && i <= j <= |s|
    && (first.flags.Unset? ==> i == j)
    && (first.flags.Known? ==> i < j && Is(first, s[i]))
    && (req.flags.Known? ==> HasUnit(req, s, if first.flags.Known? then i + 1 else i, j))
  }

  ghost predicate AltsFacts(a: SrcAlts, first: UnitInfo, req: UnitInfo) {
    forall e: Env, i: nat, j: nat {:trigger InSAlts(a, e, i, j)} ::
      i <= |e.s| && InSAlts(a, e, i, j) ==> UnitsAt(first, req, e.s, i, j)
  }

  ghost predicate BranchFacts(b: SrcBranch, first: UnitInfo, req: UnitInfo) {
    forall e: Env, i: nat, j: nat {:trigger InSBranch(b, e, i, j)} ::
      i <= |e.s| && InSBranch(b, e, i, j) ==> UnitsAt(first, req, e.s, i, j)
  }

  /** How the units change over an item, over one copy of it, and when it is left out. */
  ghost predicate ItemFacts(a: Atom, q: Quant, f0: UnitInfo, r0: UnitInfo, f1: UnitInfo, r1: UnitInfo) {
    forall e: Env, i: nat, m: nat, x: nat {:trigger UnitsAt(f0, r0, e.s, i, m), InItem(a, q, e, m, x)} ::
      UnitsAt(f0, r0, e.s, i, m) && InItem(a, q, e, m, x) ==> UnitsAt(f1, r1, e.s, i, x)
  }

  ghost predicate AtomFacts(a: Atom, f0: UnitInfo, r0: UnitInfo, f1: UnitInfo, r1: UnitInfo) {
    forall e: Env, i: nat, m: nat, x: nat {:trigger UnitsAt(f0, r0, e.s, i, m), InAtom(a, e, m, x)} ::
      UnitsAt(f0, r0, e.s, i, m) && InAtom(a, e, m, x) ==> UnitsAt(f1, r1, e.s, i, x)
  }

  ghost predicate Weaker(f0: UnitInfo, r0: UnitInfo, f1: UnitInfo, r1: UnitInfo) {
    forall s: seq<Unit>, i: nat, m: nat {:trigger UnitsAt(f0, r0, s, i, m)} ::
      UnitsAt(f0, r0, s, i, m) ==> UnitsAt(f1, r1, s, i, m)
  }

  /** The item never consumes anything. */
  ghost predicate Quiet(a: Atom) {
    forall e: Env, i: nat, j: nat {:trigger InAtom(a, e, i, j)} :: i <= |e.s| && InAtom(a, e, i, j) ==> i == j
  }

  lemma {:induction false} QuietTimes(a: Atom, lo: nat, extra: int, e: Env, i: nat, j: nat)
    requires Quiet(a) && i <= |e.s| && InTimes(a, lo, extra, e, i, j)
    ensures i == j
    decreases lo, if extra >= 0 then extra else |e.s| - i
  {
    if lo > 0 {
      var m: nat :| i <= m <= |e.s| && InAtom(a, e, i, m) && InTimes(a, lo - 1, extra, e, m, j);
      QuietTimes(a, lo - 1, extra, e, m, j);
    } else if i != j && extra > 0 {
      var m: nat :| i <= m <= |e.s| && InAtom(a, e, i, m) && InTimes(a, 0, extra - 1, e, m, j);
      QuietTimes(a, 0, extra - 1, e, m, j);
    }
  }

  /** What holds of a slice that is not empty holds of a longer one. */
  lemma Longer(f: UnitInfo, r: UnitInfo, s: seq<Unit>, i: nat, m: nat, j: nat)
    requires UnitsAt(f, r, s, i, m) && m <= j <= |s| && (f.flags.Unset? ==> m == j)
    ensures UnitsAt(f, r, s, i, j)
  {
  }

  /** A quantifier that allows no copies: back to the values for that. */
  lemma ZeroFacts(a: Atom, q: Quant, f0: UnitInfo, r0: UnitInfo, zf: UnitInfo, zr: UnitInfo)
    requires q.Times? && q.min == 0 && Weaker(f0, r0, zf, zr) && (zf.flags.Unset? ==> Quiet(a))
    ensures ItemFacts(a, q, f0, r0, zf, zr)
  {
    forall e: Env, i: nat, m: nat, x: nat | UnitsAt(f0, r0, e.s, i, m) && InItem(a, q, e, m, x)
      ensures UnitsAt(zf, zr, e.s, i, x)
    {
      TimesSpan(a, 0, Extra(q), e, m, x);
      if zf.flags.Unset? { QuietTimes(a, 0, Extra(q), e, m, x); }
      assert UnitsAt(zf, zr, e.s, i, m);
      Longer(zf, zr, e.s, i, m, x);
    }
  }

  /** A quantifier that asks for at least one copy, or none at all. */
  lemma SomeFacts(a: Atom, q: Quant, f0: UnitInfo, r0: UnitInfo, f1: UnitInfo, r1: UnitInfo)
    requires (q.Once? || q.min > 0) && AtomFacts(a, f0, r0, f1, r1) && (f1.flags.Unset? ==> Quiet(a))
    ensures ItemFacts(a, q, f0, r0, f1, r1)
  {
    forall e: Env, i: nat, m: nat, x: nat | UnitsAt(f0, r0, e.s, i, m) && InItem(a, q, e, m, x)
      ensures UnitsAt(f1, r1, e.s, i, x)
    {
      if q.Times? {
        var y := FirstCopy(a, q.min, Extra(q), e, m, x);
        assert UnitsAt(f1, r1, e.s, i, y);
        if f1.flags.Unset? { QuietTimes(a, q.min - 1, Extra(q), e, y, x); }
        Longer(f1, r1, e.s, i, y, x);
      } else {
        assert InAtom(a, e, m, x);
      }
    }
  }

  /** Every copy of the item begins with unit u. */
  ghost predicate Begins(a: Atom, u: UnitInfo) {
    u.flags.Known? &&
    forall e: Env, i: nat, j: nat {:trigger InAtom(a, e, i, j)} ::
      i <= |e.s| && InAtom(a, e, i, j) ==> i < j <= |e.s| && Is(u, e.s[i])
  }

  /** Two copies at least: the first unit of the second one is required. */
  lemma TwiceFacts(a: Atom, q: Quant, f0: UnitInfo, r0: UnitInfo, f1: UnitInfo, r1: UnitInfo, u: UnitInfo)
    requires q.Times? && q.min > 1 && ItemFacts(a, q, f0, r0, f1, r1) && Begins(a, u)
    ensures ItemFacts(a, q, f0, r0, f1, u)
  {
    forall e: Env, i: nat, m: nat, x: nat | UnitsAt(f0, r0, e.s, i, m) && InItem(a, q, e, m, x)
      ensures UnitsAt(f1, u, e.s, i, x)
    {
      assert UnitsAt(f1, r1, e.s, i, x);
      var y := FirstCopy(a, q.min, Extra(q), e, m, x);
      var z := FirstCopy(a, q.min - 1, Extra(q), e, y, x);
      assert m < y < z && Is(u, e.s[y]);
    }
  }

  /** One item further on: `done` is the part of the branch before it. */
  lemma Advance(done: SrcBranch, a: Atom, q: Quant, f0: UnitInfo, r0: UnitInfo, f1: UnitInfo, r1: UnitInfo)
    requires BranchFacts(done, f0, r0) && ItemFacts(a, q, f0, r0, f1, r1)
    ensures BranchFacts(Snoc(done, a, q), f1, r1)
  {
    forall e: Env, i: nat, j: nat | i <= |e.s| && InSBranch(Snoc(done, a, q), e, i, j)
      ensures UnitsAt(f1, r1, e.s, i, j) {
      var m := SnocSplit(done, a, q, e, i, j);
      assert UnitsAt(f0, r0, e.s, i, m);
    }
  }

  // --- where a unit comes from ----------------------------------------------------------

  predicate SameUnit(u: UnitInfo, v: UnitInfo) { u.flags.Known? && v.flags.Known? && UnitIn(u) == UnitIn(v) }

  /** A unit after an item: one that was known before it, or one that the item itself holds. */
  ghost predicate FromAtom(a: Atom, f0: UnitInfo, r0: UnitInfo, u: UnitInfo) {
    u.flags.Known? ==> SameUnit(u, f0) || SameUnit(u, r0) || Comes(a, UnitIn(u))
  }

  /** The same with the quantifier of the item. */
  ghost predicate FromItem(a: Atom, q: Quant, f0: UnitInfo, r0: UnitInfo, u: UnitInfo) {
    u.flags.Known? ==>
      || SameUnit(u, f0) || SameUnit(u, r0)
      || ((q.Once? || q.min > 0) && Comes(a, UnitIn(u)))
      || (q.Times? && q.min > 1 && AtomHas(a, UnitIn(u)))
  }

  /** The case of the first unit of a slice may be changed, unless a caseless unit occurs later. */
  ghost predicate BranchSwaps(b: SrcBranch, first: UnitInfo, req: UnitInfo) {
    (first.flags.Known? ==> SwapsBranch(b, UnitIn(first))) && (req.flags.Known? ==> SwapsBranch(b, UnitIn(req)))
  }

  ghost predicate AltsSwaps(a: SrcAlts, first: UnitInfo, req: UnitInfo) {
    (first.flags.Known? ==> SwapsAlts(a, UnitIn(first))) && (req.flags.Known? ==> SwapsAlts(a, UnitIn(req)))
  }

  lemma AdvanceUnit(done: SrcBranch, a: Atom, q: Quant, f0: UnitInfo, r0: UnitInfo, u: UnitInfo)
    requires BranchFacts(done, f0, r0) && BranchSwaps(done, f0, r0) && FromItem(a, q, f0, r0, u) && u.flags.Known?
    ensures SwapsBranch(Snoc(done, a, q), UnitIn(u))
  {
    if SameUnit(u, f0) || SameUnit(u, r0) {
      forall e: Env, i: nat, j: nat | i <= |e.s| && InSBranch(done, e, i, j) ensures i < j {
        assert UnitsAt(f0, r0, e.s, i, j);
      }
      SwapKept(done, a, q, UnitIn(u));
    } else if (q.Once? || q.min > 0) && Comes(a, UnitIn(u)) {
      SwapComes(done, a, q, UnitIn(u));
    } else {
      SwapTwice(done, a, q, UnitIn(u));
    }
  }

  lemma AdvanceSwaps(done: SrcBranch, a: Atom, q: Quant, f0: UnitInfo, r0: UnitInfo, f1: UnitInfo, r1: UnitInfo)
    requires BranchFacts(done, f0, r0) && BranchSwaps(done, f0, r0) && FromItem(a, q, f0, r0, f1)
             && FromItem(a, q, f0, r0, r1)
    ensures BranchSwaps(Snoc(done, a, q), f1, r1)
  {
    if f1.flags.Known? { AdvanceUnit(done, a, q, f0, r0, f1); }
    if r1.flags.Known? { AdvanceUnit(done, a, q, f0, r0, r1); }
  }

  lemma BeginsHas(a: Atom, u: UnitInfo)
    requires Begins(a, u)
    ensures AtomHas(a, UnitIn(u))
  {
    forall e: Env, i: nat, j: nat | i <= |e.s| && InAtom(a, e, i, j)
      ensures i < j && i < |e.s| && IsUnit(UnitIn(u), e.s[i]) {
      assert Is(u, e.s[i]);
    }
  }

  /** The units of a group come from it. */
  lemma GroupComes(a: Atom, subf: UnitInfo, subr: UnitInfo)
    requires a.Paren? && AltsFacts(a.alts, subf, subr) && AltsSwaps(a.alts, subf, subr)
    ensures subf.flags.Known? ==> Comes(a, UnitIn(subf))
    ensures subr.flags.Known? ==> Comes(a, UnitIn(subr))
  {
    if subf.flags.Known? { GroupUnitComes(a, subf, subf, subr); }
    if subr.flags.Known? { GroupUnitComes(a, subr, subf, subr); }
  }

  lemma GroupUnitComes(a: Atom, u: UnitInfo, subf: UnitInfo, subr: UnitInfo)
    requires a.Paren? && AltsFacts(a.alts, subf, subr) && AltsSwaps(a.alts, subf, subr) && u.flags.Known?
             && (u == subf || u == subr)
    ensures Comes(a, UnitIn(u))
  {
    forall e: Env, i: nat, j: nat | i <= |e.s| && InAtom(a, e, i, j) ensures exists k ::
        i <= k < j && k < |e.s| && IsUnit(UnitIn(u), e.s[k]) {
      assert InSAlts(a.alts, e, i, j);
      assert UnitsAt(subf, subr, e.s, i, j);
      if u == subf {
        assert Is(u, e.s[i]);
      } else {
        var k :| (if subf.flags.Known? then i + 1 else i) <= k < j && k < |e.s| && Is(subr, e.s[k]);
        assert IsUnit(UnitIn(u), e.s[k]);
      }
    }
    if UnitIn(u).caseless {
      forall e: Env, i: nat, j: nat | i < |e.s| && PlainNewline(e.nl) && InAtom(a, e, i, j)
        ensures Late(UnitIn(u), e.s, i, j) || InAtom(a, FlipAt(e, i), i, j)
      {
        assert InSAlts(a.alts, e, i, j);
      }
    }
  }

  // --- the kinds of item ------------------------------------------------------------

  predicate IsLiteral(a: Atom) { a.One? && a.item.Lit? && (a.item.op == OP_CHAR || a.item.op == OP_CHARI) }

  function LiteralUnit(a: Atom, vary: bool): UnitInfo
    requires IsLiteral(a)
  {
    UnitInfo(a.item.c, Known(a.item.op == OP_CHARI, vary))
  }

  /** A literal becomes the first unit, or else the required one. */
  lemma LiteralFacts(a: Atom, f0: UnitInfo, r0: UnitInfo, vary: bool)
    requires IsLiteral(a)
    ensures f0.flags.Unset? ==> AtomFacts(a, f0, r0, LiteralUnit(a, false), r0)
    ensures !f0.flags.Unset? ==> AtomFacts(a, f0, r0, f0, LiteralUnit(a, vary))
  {
    var u := LiteralUnit(a, vary);
    if !f0.flags.Unset? {
      forall e: Env, i: nat, m: nat, x: nat | UnitsAt(f0, r0, e.s, i, m) && InAtom(a, e, m, x)
        ensures UnitsAt(f0, u, e.s, i, x)
      {
        assert Is(u, e.s[m]);
      }
    }
  }

  /** An item that consumes a character, but no particular one. */
  lemma OtherFacts(a: Atom, f0: UnitInfo, r0: UnitInfo, f1: UnitInfo)
    requires a.One? && f1 == (if f0.flags.Unset? then f0.(flags := Nothing) else f0)
    ensures AtomFacts(a, f0, r0, f1, r0) && Weaker(f0, r0, f1, r0)
  {
  }

  lemma ZeroWidthFacts(a: Atom, f0: UnitInfo, r0: UnitInfo, f1: UnitInfo)
    requires a.Zero? && (f1 == f0 || (f0.flags.Unset? && f1 == f0.(flags := Nothing)))
    ensures AtomFacts(a, f0, r0, f1, r0) && Quiet(a)
  {
  }

  /** The units of a group joined to those of what comes before it. */
  lemma GroupFacts(a: Atom, f0: UnitInfo, r0: UnitInfo, subf: UnitInfo, subr: UnitInfo, f1: UnitInfo, r1: UnitInfo,
                   vary: bool)
    requires a.Paren? && AltsFacts(a.alts, subf, subr)
    requires f1 == (if !f0.flags.Unset? || subf.flags.Unset? then f0 else if subf.flags.Known? then subf
                    else f0.(flags := Nothing))
    requires r1 == (if subr.flags.Known? then subr
                    else if subf.flags.Known? && !f0.flags.Unset? then
                      UnitInfo(subf.c, Known(subf.flags.caseless, vary))
                    else r0)
    ensures AtomFacts(a, f0, r0, f1, r1)
    ensures f0.flags.Unset? && subf.flags.Unset? ==> Quiet(a)
    ensures subf.flags.Known? ==> Begins(a, subf)
  {
    forall e: Env, i: nat, m: nat, x: nat | UnitsAt(f0, r0, e.s, i, m) && InAtom(a, e, m, x)
      ensures UnitsAt(f1, r1, e.s, i, x)
    {
      assert InSAlts(a.alts, e, m, x);
      assert UnitsAt(subf, subr, e.s, m, x);
      if !subr.flags.Known? && subf.flags.Known? && !f0.flags.Unset? { assert Is(r1, e.s[m]); }
    }
    forall e: Env, i: nat, j: nat | i <= |e.s| && InAtom(a, e, i, j) ensures UnitsAt(subf, subr, e.s, i, j) {
      assert InSAlts(a.alts, e, i, j);
    }
  }

  // --- which units are found, by structure -----------------------------------------------------

  /** How a branch begins: with nothing that is consumed so far, with no unit that is known, or with a unit. */
  datatype Lead = NoneYet | NoUnit | Leads(u: CodeUnit)

  function LeadOf(f: UnitInfo): Lead {
    if f.flags.Unset? then NoneYet else if f.flags.Known? then Leads(UnitIn(f)) else NoUnit
  }

  function LeadAtom(a: Atom): Lead
    decreases a, 0
  {
    match a
    case Zero(op) => if op == OP_CIRCM then NoUnit else NoneYet
    case One(it) => if it.Lit? && it.op == OP_CHAR then Leads(CodeUnit(it.c, false))
                    else if it.Lit? && it.op == OP_CHARI then Leads(CodeUnit(it.c, true))
                    else NoUnit
    case Paren(_, alts) => LeadAlts(alts)
  }

  /** After an item: an item that need not occur takes the place of the first unit. */
  function LeadItem(a: Atom, q: Quant, l: Lead): Lead
    decreases a, 1
  {
    if !l.NoneYet? then l else if LeadAtom(a).Leads? && q.Times? && q.min == 0 then NoUnit else LeadAtom(a)
  }

  function LeadBranch(b: SrcBranch, l: Lead): Lead
    decreases b
  {
    if b.SNil? then l else LeadBranch(b.rest, LeadItem(b.atom, b.quant, l))
  }

  function MergeLeads(l: Lead, k: Lead): Lead { if l == k then l else NoUnit }

  function LeadAlts(a: SrcAlts): Lead
    decreases a
  {
    var l := LeadBranch(a.branch, NoneYet);
    if a.SOr? then MergeLeads(l, LeadAlts(a.more)) else l
  }

  /** First units do not vary. */
  predicate Steady(f: UnitInfo) { (f.flags.Known? ==> !f.flags.vary) && (f.flags.Unset? ==> f.c == 0) }

  /** Something in the branch can be repeated different numbers of times. */
  predicate VariesBranch(b: SrcBranch) { b.SCons? && (VariesItem(b.atom, b.quant) || VariesBranch(b.rest)) }

  predicate VariesItem(a: Atom, q: Quant) { (a.Paren? && VariesAlts(a.alts)) || (q.Times? && q.min != q.max) }

  predicate VariesAlts(a: SrcAlts) { VariesBranch(a.branch) || (a.SOr? && VariesAlts(a.more)) }

  predicate MustOccur(q: Quant) { q.Once? || q.min > 0 }

  /** A literal that must occur comes after an item that may have consumed something. */
  predicate LaterLiteral(b: SrcBranch, begun: bool) {
    b.SCons? && ((begun && IsLiteral(b.atom) && MustOccur(b.quant)) || LaterLiteral(b.rest, begun || b.atom.One?))
  }

  /** A branch that starts with a literal that must occur starts with a unit. */
  lemma LiteralLeads(b: SrcBranch)
    requires b.SCons? && IsLiteral(b.atom) && MustOccur(b.quant)
    ensures LeadBranch(b, NoneYet) == Leads(CodeUnit(b.atom.item.c, b.atom.item.op == OP_CHARI))
  {
    assert LeadAtom(b.atom) == Leads(CodeUnit(b.atom.item.c, b.atom.item.op == OP_CHARI));
    LeadStays(b.rest, LeadItem(b.atom, b.quant, NoneYet));
  }

  lemma LaterNext(b: SrcBranch, begun: bool, begun': bool)
    requires b.SCons? && (begun || b.atom.One? ==> begun')
    ensures LaterLiteral(b, begun) ==>
              (begun && IsLiteral(b.atom) && MustOccur(b.quant)) || LaterLiteral(b.rest, begun')
  {
    if LaterLiteral(b.rest, begun || b.atom.One?) && begun' { LaterMore(b.rest, begun || b.atom.One?); }
  }

  lemma {:induction false} LaterMore(b: SrcBranch, begun: bool)
    requires LaterLiteral(b, begun)
    ensures LaterLiteral(b, true)
    decreases b
  {
    if !(begun && IsLiteral(b.atom) && MustOccur(b.quant)) { LaterMore(b.rest, begun || b.atom.One?); }
  }

  lemma {:induction false} LeadStays(b: SrcBranch, l: Lead)
    requires !l.NoneYet?
    ensures LeadBranch(b, l) == l
    decreases b
  {
    if b.SCons? { LeadStays(b.rest, l); }
  }

  /** One branch: the units after each item. */
  method BranchUnits(b: SrcBranch, vary0: bool) returns (first: UnitInfo, req: UnitInfo, vary: bool)
    requires OkSBranch(b)
    ensures BranchFacts(b, first, req) && BranchSwaps(b, first, req)
    ensures LeadOf(first) == LeadBranch(b, NoneYet) && Steady(first)
    ensures LaterLiteral(b, false) ==> req.flags.Known?
    ensures vary <==> vary0 || VariesBranch(b)
    decreases b, 2
  {
    first, req, vary := UnitInfo(0, Unset), UnitInfo(0, Unset), vary0;
    var rest := b;
    ghost var done := SNil;
    while rest.SCons?
      invariant OkSBranch(rest) && Append(done, rest) == b
      invariant BranchFacts(done, first, req) && BranchSwaps(done, first, req)
      invariant LeadBranch(rest, LeadOf(first)) == LeadBranch(b, NoneYet) && Steady(first)
      invariant LaterLiteral(b, false) ==> req.flags.Known? || LaterLiteral(rest, !first.flags.Unset?)
      invariant vary || VariesBranch(rest) <==> vary0 || VariesBranch(b)
      decreases rest
    {
      var a, q := rest.atom, rest.quant;
      ghost var f0, r0 := first, req;
      first, req, vary := QuantUnits(a, q, vary, first, req);
      Advance(done, a, q, f0, r0, first, req);
      AdvanceSwaps(done, a, q, f0, r0, first, req);
      LaterNext(rest, !f0.flags.Unset?, !first.flags.Unset?);
      SnocAppend(done, rest);
      done := Snoc(done, a, q);
      rest := rest.rest;
    }
    AppendNil(done);
  }

  /** The units after an item and its quantifier, and what they go back to when the item may be left out. */
  method QuantUnits(a: Atom, q: Quant, vary0: bool, f0: UnitInfo, r0: UnitInfo)
      returns (first: UnitInfo, req: UnitInfo, vary: bool)
    requires OkSBranch(SCons(a, q, SNil)) && Steady(f0)
    ensures ItemFacts(a, q, f0, r0, first, req) && FromItem(a, q, f0, r0, first) && FromItem(a, q, f0, r0, req)
    ensures LeadOf(first) == LeadItem(a, q, LeadOf(f0)) && Steady(first)
    ensures r0.flags.Known? || (!f0.flags.Unset? && IsLiteral(a) && MustOccur(q)) ==> req.flags.Known?
    ensures !f0.flags.Unset? || a.One? ==> !first.flags.Unset?
    ensures vary <==> vary0 || VariesItem(a, q)
    decreases a, 1
  {
    first, req, vary := f0, r0, vary0;
    var zerofirst, zeroreq, groupset := f0, r0, false;
    match a {
      case Zero(op) =>
        if op == OP_CIRCM && first.flags.Unset? {
          first := first.(flags := Nothing);
          zerofirst := zerofirst.(flags := Nothing);
        }
        ZeroWidthFacts(a, f0, r0, first);
      case One(it) =>
        first, req, zerofirst, zeroreq := ItemUnits(a, vary, first, req);
      case Paren(_, alts) =>
        first, req, zerofirst, zeroreq, groupset, vary := GroupUnits(a, vary, first, req);
    }
    if q.Times? {
      ghost var f1, r1 := first, req;
      if q.min == 0 { first, req := zerofirst, zeroreq; }
      if q.min > 1 {
        if a.One? && a.item.Lit? && a.item.op <= OP_CHARI {
          req := UnitInfo(a.item.c, Known(a.item.op == OP_CHARI, vary));
          LiteralComes(a.item);
        } else if a.Paren? && groupset && !req.flags.Known? {
          BeginsHas(a, first);
          req := first;
        }
      }
      QuantFacts(a, q, f0, r0, f1, r1, zerofirst, zeroreq, groupset, req);
      vary := vary || q.min != q.max;
    } else {
      SomeFacts(a, q, f0, r0, first, req);
    }
  }

  /** The units after an item and its quantifier. */
  lemma QuantFacts(a: Atom, q: Quant, f0: UnitInfo, r0: UnitInfo, f1: UnitInfo, r1: UnitInfo,
                   zf: UnitInfo, zr: UnitInfo, groupset: bool, r2: UnitInfo)
    requires q.Times? && (q.min == 0 ==> Weaker(f0, r0, zf, zr) && (zf.flags.Unset? ==> Quiet(a)) && r2 == zr)
    requires AtomFacts(a, f0, r0, f1, r1) && (f1.flags.Unset? ==> Quiet(a))
    requires q.min > 0 ==> r2 == r1 || (q.min > 1 && Begins(a, r2))
    ensures if q.min == 0 then ItemFacts(a, q, f0, r0, zf, zr) else ItemFacts(a, q, f0, r0, f1, r2)
  {
    if q.min == 0 {
      ZeroFacts(a, q, f0, r0, zf, zr);
    } else {
      SomeFacts(a, q, f0, r0, f1, r1);
      if r2 != r1 { TwiceFacts(a, q, f0, r0, f1, r1, r2); }
    }
  }

  /** A literal, a negated literal, a type or a class. */
  method ItemUnits(a: Atom, vary: bool, f0: UnitInfo, r0: UnitInfo)
      returns (first: UnitInfo, req: UnitInfo, zerofirst: UnitInfo, zeroreq: UnitInfo)
    requires a.One?
    ensures AtomFacts(a, f0, r0, first, req) && !first.flags.Unset?
    ensures Weaker(f0, r0, zerofirst, zeroreq) && !zerofirst.flags.Unset?
    ensures FromAtom(a, f0, r0, first) && FromAtom(a, f0, r0, req)
    ensures (zerofirst.flags.Known? ==> SameUnit(zerofirst, f0)) && zeroreq == r0
    ensures LeadOf(first) == LeadItem(a, Once, LeadOf(f0))
    ensures LeadOf(zerofirst) == if f0.flags.Unset? then NoUnit else LeadOf(f0)
    ensures (Steady(f0) ==> Steady(first) && Steady(zerofirst)) && (r0.flags.Known? ==> req.flags.Known?)
    ensures IsLiteral(a) && !f0.flags.Unset? ==> req.flags.Known?
  {
    first, req, zerofirst, zeroreq := f0, r0, f0, r0;
    if a.item.Lit? && (a.item.op == OP_CHAR || a.item.op == OP_CHARI) {
      var caseless := a.item.op == OP_CHARI;
      LiteralFacts(a, f0, r0, vary);
      LiteralComes(a.item);
      if first.flags.Unset? {
        zerofirst := zerofirst.(flags := Nothing);
        first := UnitInfo(a.item.c, Known(caseless, false));
      } else {
        req := UnitInfo(a.item.c, Known(caseless, vary));
      }
    } else {
      if first.flags.Unset? { first := first.(flags := Nothing); }
      zerofirst := first;
      OtherFacts(a, f0, r0, first);
    }
  }

  /** A group: compile its alternatives and take over what they found. */
  method GroupUnits(a: Atom, vary0: bool, f0: UnitInfo, r0: UnitInfo)
      returns (first: UnitInfo, req: UnitInfo, zerofirst: UnitInfo, zeroreq: UnitInfo, groupset: bool, vary: bool)
    requires a.Paren? && OkSAlts(a.alts)
    ensures AtomFacts(a, f0, r0, first, req) && (first.flags.Unset? ==> Quiet(a))
    ensures Weaker(f0, r0, zerofirst, zeroreq) && (zerofirst.flags.Unset? ==> Quiet(a))
    ensures groupset ==> Begins(a, first)
    ensures FromAtom(a, f0, r0, first) && FromAtom(a, f0, r0, req)
    ensures (zerofirst.flags.Known? ==> SameUnit(zerofirst, f0)) && zeroreq == r0
    ensures LeadOf(first) == LeadItem(a, Once, LeadOf(f0))
    ensures LeadOf(zerofirst) == if f0.flags.Unset? && !LeadAtom(a).NoneYet? then NoUnit else LeadOf(f0)
    ensures (Steady(f0) ==> Steady(first) && Steady(zerofirst)) && (r0.flags.Known? ==> req.flags.Known?)
    ensures vary <==> vary0 || VariesAlts(a.alts)
    decreases a, 0
  {
    var subf, subr;
    subf, subr, vary := AltsUnits(a.alts, vary0);
    GroupComes(a, subf, subr);
    first, req, zerofirst, zeroreq, groupset := f0, r0, f0, r0, false;
    ghost var subr0 := subr;
    if first.flags.Unset? && !subf.flags.Unset? {
      if subf.flags.Known? {
        first, groupset := subf, true;
      } else {
        first := first.(flags := Nothing);
      }
      zerofirst := zerofirst.(flags := Nothing);
    } else if subf.flags.Known? && !subr.flags.Known? {
      subr := UnitInfo(subf.c, Known(subf.flags.caseless, vary0 || subf.flags.vary));
    }
    if subr.flags.Known? { req := subr; }
    GroupFacts(a, f0, r0, subf, subr0, first, req, vary0 || (subf.flags.Known? && subf.flags.vary));
  }

  function NoVary(f: Flags): Flags { if f.Known? then Known(f.caseless, false) else f }

  function OrVary(f: Flags, g: Flags): Flags { if f.Known? && g.Known? then Known(f.caseless, f.vary || g.vary) else f }

  /** What is left to look at when the units hold for the alternatives before `rest`. */
  ghost predicate AltsLeft(a: SrcAlts, rest: Option<SrcAlts>, first: UnitInfo, req: UnitInfo) {
    forall e: Env, i: nat, j: nat {:trigger InSAlts(a, e, i, j)} ::
      i <= |e.s| && InSAlts(a, e, i, j) ==> UnitsAt(first, req, e.s, i, j)
                                            || (rest.Some? && InSAlts(rest.value, e, i, j))
  }

  function NextAlts(a: SrcAlts): Option<SrcAlts> { if a.SOr? then Some(a.more) else None }

  lemma AltsAdvance(a: SrcAlts, rest: SrcAlts, f0: UnitInfo, r0: UnitInfo, bf: UnitInfo, br: UnitInfo, f1: UnitInfo,
                    r1: UnitInfo)
    requires AltsLeft(a, Some(rest), f0, r0) && BranchFacts(rest.branch, bf, br)
    requires Weaker(f0, r0, f1, r1) && Weaker(bf, br, f1, r1)
    ensures AltsLeft(a, NextAlts(rest), f1, r1)
  {
    forall e: Env, i: nat, j: nat | i <= |e.s| && InSAlts(a, e, i, j)
      ensures UnitsAt(f1, r1, e.s, i, j) || (rest.SOr? && InSAlts(rest.more, e, i, j))
    {
      if !UnitsAt(f0, r0, e.s, i, j) && InSBranch(rest.branch, e, i, j) { assert UnitsAt(bf, br, e.s, i, j); }
    }
  }

  /** Some alternatives are still to be looked at; the slices of the others may change the case of their first unit. */
  ghost predicate SwapsLeft(a: SrcAlts, rest: Option<SrcAlts>, u: CodeUnit) {
    u.caseless ==>
      forall e: Env, i: nat, j: nat {:trigger InSAlts(a, e, i, j)} ::
        i < |e.s| && PlainNewline(e.nl) && InSAlts(a, e, i, j) ==>
          Late(u, e.s, i, j) || InSAlts(a, FlipAt(e, i), i, j) || (rest.Some? && InSAlts(rest.value, e, i, j))
  }

  ghost predicate BothLeft(a: SrcAlts, rest: Option<SrcAlts>, first: UnitInfo, req: UnitInfo) {
    (first.flags.Known? ==> SwapsLeft(a, rest, UnitIn(first))) && (req.flags.Known? ==> SwapsLeft(a, rest, UnitIn(req)))
  }

  /** What is left of the alternatives belongs to them. */
  ghost predicate PartOf(a: SrcAlts, rest: SrcAlts) {
    forall e: Env, i: nat, j: nat {:trigger InSAlts(rest, e, i, j)} :: InSAlts(rest, e, i, j) ==> InSAlts(a, e, i, j)
  }

  lemma PartOfMore(a: SrcAlts, rest: SrcAlts)
    requires PartOf(a, rest) && rest.SOr?
    ensures PartOf(a, rest.more)
  {
    forall e: Env, i: nat, j: nat | InSAlts(rest.more, e, i, j) ensures InSAlts(a, e, i, j) {
      assert InSAlts(rest, e, i, j);
    }
  }

  predicate EitherUnit(u: UnitInfo, f: UnitInfo, r: UnitInfo) { u.flags.Known? ==> SameUnit(u, f) || SameUnit(u, r) }

  lemma LeftAdvance(a: SrcAlts, rest: SrcAlts, f0: UnitInfo, r0: UnitInfo, bf: UnitInfo, br: UnitInfo, u: UnitInfo)
    requires PartOf(a, rest) && BothLeft(a, Some(rest), f0, r0) && BranchSwaps(rest.branch, bf, br)
    requires u.flags.Known? && EitherUnit(u, f0, r0) && EitherUnit(u, bf, br)
    ensures SwapsLeft(a, NextAlts(rest), UnitIn(u))
  {
    var v := UnitIn(u);
    assert SwapsLeft(a, Some(rest), v) && SwapsBranch(rest.branch, v);
    if v.caseless {
      forall e: Env, i: nat, j: nat | i < |e.s| && PlainNewline(e.nl) && InSAlts(a, e, i, j)
        ensures Late(v, e.s, i, j) || InSAlts(a, FlipAt(e, i), i, j) || (rest.SOr? && InSAlts(rest.more, e, i, j))
      {
        if InSAlts(rest, e, i, j) && InSBranch(rest.branch, e, i, j) && !Late(v, e.s, i, j) {
          assert InSBranch(rest.branch, FlipAt(e, i), i, j);
          assert InSAlts(rest, FlipAt(e, i), i, j);
        }
      }
    }
  }

  /** The alternatives of a group: their units must agree, except that a first unit that does not can still be
      required. */
  method AltsUnits(a: SrcAlts, vary0: bool) returns (first: UnitInfo, req: UnitInfo, vary: bool)
    requires OkSAlts(a)
    ensures AltsFacts(a, first, req) && AltsSwaps(a, first, req)
    ensures LeadOf(first) == LeadAlts(a) && Steady(first)
    ensures a.SLast? && LaterLiteral(a.branch, false) ==> req.flags.Known?
    ensures vary <==> vary0 || VariesAlts(a)
    decreases a, 3
  {
    first, req, vary := BranchUnits(a.branch, vary0);
    var rest := NextAlts(a);
    FirstLeft(a, first, req);
    while rest.Some?
      invariant rest.Some? ==> OkSAlts(rest.value) && PartOf(a, rest.value)
      invariant BothLeft(a, rest, first, req)
      invariant AltsLeft(a, rest, first, req)
      invariant Steady(first) && LeadAlts(a) == if rest.Some? then MergeLeads(LeadOf(first), LeadAlts(rest.value))
                                                else LeadOf(first)
      invariant vary || (rest.Some? && VariesAlts(rest.value)) <==> vary0 || VariesAlts(a)
      invariant a.SLast? ==> rest.None? && (LaterLiteral(a.branch, false) ==> req.flags.Known?)
      invariant rest.Some? ==> (a decreases to rest.value)
      decreases rest.Some?, if rest.Some? then rest.value else a
    {
      var bf, br;
      bf, br, vary := BranchUnits(rest.value.branch, vary);
      ghost var f0, r0, bf0, br0 := first, req, bf, br;
      first, req := MergeUnits(first, req, bf, br);
      AltsAdvance(a, rest.value, f0, r0, bf0, br0, first, req);
      if first.flags.Known? { LeftAdvance(a, rest.value, f0, r0, bf0, br0, first); }
      if req.flags.Known? { LeftAdvance(a, rest.value, f0, r0, bf0, br0, req); }
      if rest.value.SOr? { PartOfMore(a, rest.value); }
      rest := NextAlts(rest.value);
    }
  }

  lemma FirstLeft(a: SrcAlts, first: UnitInfo, req: UnitInfo)
    requires BranchSwaps(a.branch, first, req)
    ensures BothLeft(a, NextAlts(a), first, req) && (a.SOr? ==> PartOf(a, a.more))
  {
    forall e: Env, i: nat, j: nat | InSBranch(a.branch, e, i, j) ensures InSAlts(a, e, i, j) { }
    if a.SOr? {
      forall e: Env, i: nat, j: nat | InSAlts(a.more, e, i, j) ensures InSAlts(a, e, i, j) { }
    }
  }

  /** The units of the alternatives so far and those of the next one. */
  method MergeUnits(f0: UnitInfo, r0: UnitInfo, bf: UnitInfo, br0: UnitInfo) returns (first: UnitInfo, req: UnitInfo)
    requires Steady(f0) && Steady(bf)
    ensures LeadOf(first) == MergeLeads(LeadOf(f0), LeadOf(bf)) && Steady(first)
    ensures Weaker(f0, r0, first, req) && Weaker(bf, br0, first, req)
    ensures EitherUnit(first, f0, r0) && EitherUnit(first, bf, br0) && EitherUnit(req, f0, r0)
            && EitherUnit(req, bf, br0)
  {
    first, req := f0, r0;
    var br := br0;
    if first != bf {
      if first.flags.Known? && !req.flags.Known? { req := first; }
      first := first.(flags := Nothing);
    }
    if !first.flags.Known? && bf.flags.Known? && !br.flags.Known? { br := bf; }
    if NoVary(req.flags) != NoVary(br.flags) || req.c != br.c {
      req := req.(flags := Nothing);
    } else {
      req := UnitInfo(br.c, OrVary(req.flags, br.flags));
    }
    MergeFacts(f0, r0, first, req);
    MergeFacts(bf, br0, first, req);
  }

  /** Units that say less. */
  lemma MergeFacts(f0: UnitInfo, r0: UnitInfo, f1: UnitInfo, r1: UnitInfo)
    requires f1 == f0 || f1.flags.Nothing?
    requires !r1.flags.Known? || (r0.flags.Known? && SameUnit(r1, r0))
             || (f1.flags.Nothing? && f0.flags.Known? && SameUnit(r1, f0))
    ensures Weaker(f0, r0, f1, r1)
  {
    forall s: seq<Unit>, i: nat, m: nat | UnitsAt(f0, r0, s, i, m) ensures UnitsAt(f1, r1, s, i, m) {
      if r1.flags.Known? {
        if r0.flags.Known? && SameUnit(r1, r0) {
          var k :| (if f0.flags.Known? then i + 1 else i) <= k < m && k < |s| && Is(r0, s[k]);
          assert Is(r1, s[k]);
        } else {
          assert Is(r1, s[i]);
        }
      }
    }
  }
}
