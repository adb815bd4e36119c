/** Compiling a pattern from start to end: the code means what the pattern means, and the facts that are recorded for
    the search hold for every match. */
module StartFacts {
  import opened Opcodes
  import opened Bits
  import opened Regex
  import opened Language
  import opened Layout
  import opened BracketCount
  import opened Source
  import opened Unroll
  import opened Unrolling
  import opened CaseSwap
  import opened SourceLanguage
  import opened EmitStudy
  import opened PossessRule
  import opened PossessRewrite
  import opened AutoPossess
  import opened FirstUnit
  import opened CompileCode
  import opened StudyMin
  import opened StudyStart
  import opened Study
  import opened Anchor
  import opened DfaMatch
  import opened DfaSearch

  // --- making repeats possessive changes neither the language nor the shortest match -----------

  lemma {:induction false} PossessIn(n: Node, x: nat, d: set<nat>, e: Env, i: nat, j: nat)
    requires i <= |e.s|
    ensures InNode(PossessNode(n, x, d), e, i, j) <==> InNode(n, e, i, j)
    decreases n, |e.s| - i
  {
    match n
    case Group(_, _, _, _) => PossessInGroup(n, x, d, e, i, j);
    case Optional(op, g) => PossessIn(g, x + 1, d, e, i, j);
    case _ =>
  }

  lemma {:induction false} PossessInGroup(n: Node, x: nat, d: set<nat>, e: Env, i: nat, j: nat)
    requires n.Group? && i <= |e.s|
    ensures InNode(PossessNode(n, x, d), e, i, j) <==> InNode(n, e, i, j)
    decreases n, |e.s| - i, 0
  {
    var g, y := PossessNode(n, x, d), x + BraSize(n.bra);
    PossessInAlts(n.alts, y, d, e, i, j);
    forall m: nat | i < m <= |e.s|
      ensures (InAlts(g.alts, e, i, m) && InNode(g, e, m, j)) == (InAlts(n.alts, e, i, m) && InNode(n, e, m, j))
    {
      PossessInAlts(n.alts, y, d, e, i, m);
      PossessIn(n, x, d, e, m, j);
    }
  }

  lemma {:induction false} PossessInAlts(a: Alts, x: nat, d: set<nat>, e: Env, i: nat, j: nat)
    requires i <= |e.s|
    ensures InAlts(PossessAlts(a, x, d), e, i, j) <==> InAlts(a, e, i, j)
    decreases a
  {
    PossessInBranch(a.branch, x, d, e, i, j);
    if a.Or? { PossessInAlts(a.more, x + BranchSize(a.branch) + 1 + LINK_SIZE, d, e, i, j); }
  }

  lemma {:induction false} PossessInBranch(b: Branch, x: nat, d: set<nat>, e: Env, i: nat, j: nat)
    requires i <= |e.s|
    ensures InBranch(PossessBranch(b, x, d), e, i, j) <==> InBranch(b, e, i, j)
    decreases b
  {
    if b.Cons? {
      var n, t, y := PossessNode(b.head, x, d), PossessBranch(b.tail, x + NodeSize(b.head), d), x + NodeSize(b.head);
      forall m: nat | i <= m <= |e.s|
        ensures (InNode(n, e, i, m) && InBranch(t, e, m, j)) == (InNode(b.head, e, i, m) && InBranch(b.tail, e, m, j))
      {
        PossessIn(b.head, x, d, e, i, m);
        PossessInBranch(b.tail, y, d, e, m, j);
      }
    }
  }

  lemma {:induction false} PossessTidy(n: Node, x: nat, d: set<nat>, dup: bool, len: nat -> nat)
    requires Tidy(n, dup, len)
    ensures Tidy(PossessNode(n, x, d), dup, len) && Shortest(PossessNode(n, x, d)) == Shortest(n)
    decreases n
  {
    match n
    case Group(bra, _, alts, _) => PossessTidyAlts(alts, x + BraSize(bra), d, dup, len);
    case Optional(_, g) => PossessTidy(g, x + 1, d, dup, len);
    case _ =>
  }

  lemma {:induction false} PossessTidyAlts(a: Alts, x: nat, d: set<nat>, dup: bool, len: nat -> nat)
    requires TidyAlts(a, dup, len)
    ensures TidyAlts(PossessAlts(a, x, d), dup, len) && ShortestAlts(PossessAlts(a, x, d)) == ShortestAlts(a)
    decreases a
  {
    PossessTidyBranch(a.branch, x, d, dup, len);
    if a.Or? { PossessTidyAlts(a.more, x + BranchSize(a.branch) + 1 + LINK_SIZE, d, dup, len); }
  }

  lemma {:induction false} PossessTidyBranch(b: Branch, x: nat, d: set<nat>, dup: bool, len: nat -> nat)
    requires TidyBranch(b, dup, len)
    ensures TidyBranch(PossessBranch(b, x, d), dup, len) && ShortestBranch(PossessBranch(b, x, d)) == ShortestBranch(b)
    decreases b
  {
    if b.Cons? {
      PossessTidy(b.head, x, d, dup, len);
      PossessTidyBranch(b.tail, x + NodeSize(b.head), d, dup, len);
    }
  }

  // --- the facts that are recorded ----------------------------------------------------------------

  /** The units found while compiling hold for every match of the code. */
  ghost predicate UnitsHold(pat: Node, first: UnitInfo, req: UnitInfo) {
    forall e: Env, i: nat, j: nat {:trigger InNode(pat, e, i, j)} ::
      i <= |e.s| && InNode(pat, e, i, j) ==> UnitsAt(first, req, e.s, i, j)
  }

  function UnitOf(u: UnitInfo): CodeUnit
    requires u.flags.Known?
  {
    Proper(UnitIn(u))
  }

  /** The unit, caseless only if it has two cases. */
  function Proper(u: CodeUnit): CodeUnit { CodeUnit(u.c, u.caseless && Flip(u.c) != u.c) }

  /** A first unit that has replaced the start bits is not the required one, in either case: where the required one is
      caseless, the bits would otherwise hold both of its cases. */
  lemma NotTheRequired(a: SrcAlts, d: set<nat>, first: UnitInfo, req: UnitInfo, m: Bitmap, u: CodeUnit, e: Env, i: nat,
                       j: nat)
    requires OkSAlts(a) && AltsFacts(a, first, req) && AltsSwaps(a, first, req) && req.flags.Known?
    requires var pat := PossessNode(CodeOf(a), 0, d); i <= |e.s| && InNode(pat, e, i, j) && NodeStarts(m, pat, false)
    requires Stands(m, u) && MayReplace(u, Some(UnitOf(req))) && PlainNewline(e.nl)
    ensures ReqFrom(UnitOf(req), e.s, i + 1)
  {
    var pat, v := PossessNode(CodeOf(a), 0, d), UnitIn(req);
    PossessIn(CodeOf(a), 0, d, e, i, j);
    SameLanguage(a, e, i, j);
    assert UnitsAt(first, req, e.s, i, j) && Hit(m, e, i);
    var k :| (if first.flags.Known? then i + 1 else i) <= k < j && k < |e.s| && Is(req, e.s[k]);
    if k == i && !Late(v, e.s, i, j) {
      if v.caseless {
        var f := FlipAt(e, i);
        assert InSAlts(a, e, i, j) && InSAlts(a, f, i, j);
        SameLanguage(a, f, i, j);
        PossessIn(CodeOf(a), 0, d, f, i, j);
        assert InNode(pat, f, i, j) && Hit(m, f, i);
        assert IsUnit(u, e.s[i]) && IsUnit(u, FlipUnit(e.s[i]));
        FlipWord(req.c);
      }
      assert false;
    }
    if k == i { k :| i < k < j && k < |e.s| && IsUnit(v, e.s[k]); }
    assert IsUnit(UnitOf(req), e.s[k]);
  }

  lemma FactsAre(a: SrcAlts, d: set<nat>, first: UnitInfo, req: UnitInfo, m: Bitmap, done: bool, f: StartFacts)
    requires OkSAlts(a) && AltsFacts(a, first, req) && AltsSwaps(a, first, req)
    requires done ==> NodeStarts(m, PossessNode(CodeOf(a), 0, d), false)
    requires f.first.Some? ==>
      (first.flags.Known? && f.first.value == UnitOf(first))
      || (!first.flags.Known? && done && Stands(m, f.first.value) && MayReplace(f.first.value, f.req))
    requires f.first.None? ==> !first.flags.Known? && (f.bits.Some? ==> done && f.bits.value == m)
    requires f.req.Some? ==> req.flags.Known? && f.req.value == UnitOf(req)
    requires f.minlength <= Shortest(PossessNode(CodeOf(a), 0, d))
             || (f.minlength == 1 && (f.first.Some? || f.bits.Some? || req.flags.Known?))
             || (f.minlength == 2 && first.flags.Known? && req.flags.Known?)
    ensures forall e: Env :: PlainNewline(e.nl) ==> FactsHold(f, PossessNode(CodeOf(a), 0, d), e)
  {
    var pat := PossessNode(CodeOf(a), 0, d);
    CodeUnits(a, d, first, req);
    forall e: Env, i: nat, j: nat | PlainNewline(e.nl) && i <= |e.s| && InNode(pat, e, i, j)
      ensures FactsAt(f, e.s, i, j) {
      ShortestSound(pat, e, i, j);
      NodeSpan(pat, e, i, j);
      assert UnitsAt(first, req, e.s, i, j);
      if done { assert Hit(m, e, i); }
      if req.flags.Known? {
        var k :| (if first.flags.Known? then i + 1 else i) <= k < j && k < |e.s| && Is(req, e.s[k]);
        assert IsUnit(UnitOf(req), e.s[k]);
        if f.first.Some? && !first.flags.Known? && f.req.Some? {
          NotTheRequired(a, d, first, req, m, f.first.value, e, i, j);
        }
      }
    }
  }

  lemma CodeUnits(a: SrcAlts, d: set<nat>, first: UnitInfo, req: UnitInfo)
    requires OkSAlts(a) && AltsFacts(a, first, req)
    ensures UnitsHold(PossessNode(CodeOf(a), 0, d), first, req)
  {
    forall e: Env, i: nat, j: nat | i <= |e.s| && InNode(PossessNode(CodeOf(a), 0, d), e, i, j)
      ensures UnitsAt(first, req, e.s, i, j) {
      PossessIn(CodeOf(a), 0, d, e, i, j);
      SameLanguage(a, e, i, j);
    }
  }

  /** The bracket around the whole pattern. */
  lemma WholeHere(code: seq<Cell>, pat: Node)
    requires Compiled(code, pat)
    ensures Here(code, 0, Cons(pat, Nil), Top)
  {
    assert LaidBranch(code, NodeSize(pat), Nil);
    assert BranchSize(Cons(pat, Nil)) == NodeSize(pat);
    assert Standing(code, 0, Cons(pat, Nil), Top);
  }

  /** The map holds the start set of the pattern. */
  ghost predicate IsStartMap(m: Bitmap, pat: Node) { forall d: Unit :: Bit(m, d) <==> Starts(pat, d) }

  /** Where the start set can be seen, it is recorded: as a map, or as the first unit that stands for it. */
  ghost predicate StartRecorded(f: StartFacts, pat: Node) {
    if f.first.Some? then forall d: Unit :: IsUnit(f.first.value, d) <==> Starts(pat, d)
    else f.bits.Some? && IsStartMap(f.bits.value, pat)
  }

  /** The length that the units require at least: the first one, the required one, or any at all. */
  function LeastLength(f: StartFacts, first: UnitInfo, req: UnitInfo): nat {
    var n := (if first.flags.Known? then 1 else 0) + (if req.flags.Known? then 1 else 0);
    if n == 0 && f.bits.Some? then 1 else n
  }

  /** Looks for start bits where no first unit is known. */
  method StudyStarts(code: seq<Cell>, last: Option<CodeUnit>, ghost pat: Node)
      returns (done: bool, first: Option<CodeUnit>, m: Bitmap)
    requires Compiled(code, pat)
    ensures done ==> NodeStarts(m, pat, false) && IsStartMap(m, pat)
    ensures first.Some? ==> done && Stands(m, first.value) && MayReplace(first.value, last)
    ensures StartOf(pat).Done? && Brackets(pat) <= 1000 ==> done
  {
    WholeHere(code, pat);
    var bits := new Unit[CLASS_SIZE](_ => 0);
    ghost var m0 := MapIn(bits);
    forall d: Unit ensures !Bit(m0, d) { ZeroByte(d % 8); }
    var rc, depth := SetStartBits(code, 0, bits, 0, pat, Nil, Top);
    done, m, first := rc.Done?, bits[..], None;
    if done { first := FirstFromBits(m, last); }
  }

  /** Records the first and the required unit, studies the code for start bits and for the minimum length, and makes the
      minimum length what the units require at least. `startline` is the answer of is_startline. */
  method StartOptimize(code: seq<Cell>, anchored: bool, startline: bool, first: UnitInfo, req: UnitInfo, consumes: bool,
                       dup: bool,
                       ghost a: SrcAlts, ghost d: set<nat>, ghost len: nat -> nat) returns (f: StartFacts)
    requires OkSAlts(a) && AltsFacts(a, first, req) && AltsSwaps(a, first, req)
    requires var pat := PossessNode(CodeOf(a), 0, d);
             Compiled(code, pat) && Tidy(pat, dup, len) && (consumes <==> Shortest(pat) > 0)
    ensures forall e: Env :: PlainNewline(e.nl) ==> FactsHold(f, PossessNode(CodeOf(a), 0, d), e)
    ensures first.flags.Known? ==> f.first == Some(UnitOf(first)) && f.bits.None?
    ensures f.req == if req.flags.Known? && (!anchored || req.flags.vary) then Some(UnitOf(req)) else None
    ensures f.minlength >= LeastLength(f, first, req)
    ensures var pat, least := PossessNode(CodeOf(a), 0, d), LeastLength(f, first, req);
            Brackets(pat) <= 1000 ==>
              f.minlength == if Clamp(Shortest(pat)) < least then least else Clamp(Shortest(pat))
    ensures var pat := PossessNode(CodeOf(a), 0, d);
            !first.flags.Known? && (anchored || !startline) && StartOf(pat).Done? && Brackets(pat) <= 1000 ==>
              StartRecorded(f, pat)
  {
    ghost var pat := PossessNode(CodeOf(a), 0, d);
    var minminlength := 0;
    var fact, bits, last := None, None, None;
    if first.flags.Known? {
      fact := Some(UnitOf(first));
      minminlength := minminlength + 1;
    }
    if req.flags.Known? {
      minminlength := minminlength + 1;
      if !anchored || req.flags.vary { last := Some(UnitOf(req)); }
    }
    ghost var m, done := seq(CLASS_SIZE, i => 0), false;
    if fact.None? && (anchored || !startline) {
      var d, u, map1 := StudyStarts(code, last, pat);
      m, done := map1, d;
      if d { if u.Some? { fact := u; } else { bits := Some(map1); } }
    }
    var minlength := 0;
    if consumes {
      WholeHere(code, pat);
      var min, count := FindMinLength(code, 0, dup, 0, pat, Nil, Top, len);
      if min >= 0 { minlength := min; }
    }
    if bits.Some? && minminlength == 0 { minminlength := 1; }
    if minlength < minminlength { minlength := minminlength; }
    f := StartFacts(fact, bits, last, minlength);
    FactsAre(a, d, first, req, m, done, f);
  }

  /** What ordered matching finds first when the whole pattern is tried at offset i. */
  function SourceMatch(a: SrcAlts, e: Env, i: nat): Option<State>
    requires OkSAlts(a)
  {
    TrySAlts(a, e, State(i, map[]), Accept)
  }

  /** The code of a pattern after auto-possessification. */
  lemma PossessedMeansSource(a: SrcAlts, pat: Node)
    requires OkSAlts(a)
    requires forall e: Env, i: nat :: OkNewline(e.nl) ==> FirstMatch(pat, e, i) == FirstMatch(CodeOf(a), e, i)
    ensures forall e: Env, i: nat :: OkNewline(e.nl) ==> FirstMatch(pat, e, i) == SourceMatch(a, e, i)
  {
    forall e: Env, i: nat | OkNewline(e.nl) ensures FirstMatch(pat, e, i) == SourceMatch(a, e, i) {
      CodeMeansSource(a, e, i);
    }
  }

  lemma EmptySet(n: Node, x: nat)
    ensures PossessNode(n, x, {}) == n
    decreases n
  {
    match n
    case Group(bra, _, alts, _) => EmptySetAlts(alts, x + BraSize(bra));
    case Optional(_, g) => EmptySet(g, x + 1);
    case _ =>
  }

  lemma EmptySetAlts(a: Alts, x: nat)
    ensures PossessAlts(a, x, {}) == a
    decreases a
  {
    EmptySetBranch(a.branch, x);
    if a.Or? { EmptySetAlts(a.more, x + BranchSize(a.branch) + 1 + LINK_SIZE); }
  }

  lemma EmptySetBranch(b: Branch, x: nat)
    ensures PossessBranch(b, x, {}) == b
    decreases b
  {
    if b.Cons? {
      EmptySet(b.head, x);
      EmptySetBranch(b.tail, x + NodeSize(b.head));
    }
  }

  /** A compiled pattern as the search uses it. */
  datatype Program = Program(code: seq<Cell>, anchored: bool, facts: StartFacts)

  /** What is known of the program compiled from pattern a; pat is the pattern that its code lays out. */
  ghost predicate Faithful(a: SrcAlts, p: Program, pat: Node)
    requires OkSAlts(a)
  {
    && Compiled(p.code, pat)
    && forall e: Env, i: nat :: OkNewline(e.nl) ==> FirstMatch(pat, e, i) == SourceMatch(a, e, i)
  }

  /** Compiles a pattern: measures it, emits its code, makes repeats possessive unless the caller does not want that,
      sees whether it is anchored, and records the facts for the search. */
  method Compile(a: SrcAlts, anchored0: bool, noAutoPossess: bool, startline: bool, dup: bool,
                 ghost named: nat -> SrcAlts)
      returns (p: Option<Program>, ghost pat: Node)
    requires OkSAlts(a) && (dup || Numbered(a, named))
    ensures p.None? ==> 1 + PrePass.BRACKETS + PrePass.PreAlts(a) > PrePass.MAX_PATTERN_SIZE
    ensures p.Some? ==> Faithful(a, p.value, pat) && (noAutoPossess ==> pat == CodeOf(a))
    ensures p.Some? ==> p.value.anchored == (anchored0 || AnchorNode(pat))
    ensures p.Some? ==> forall e: Env :: PlainNewline(e.nl) ==> FactsHold(p.value.facts, pat, e)
    ensures p.Some? && LeadAlts(a).Leads? ==> p.value.facts.first == Some(Proper(LeadAlts(a).u))
    ensures p.Some? && a.SLast? && LaterLiteral(a.branch, false) && !p.value.anchored ==> p.value.facts.req.Some?
    ensures p.Some? && Brackets(pat) <= 1000 ==> p.value.facts.minlength >= Clamp(Shortest(pat))
    ensures p.Some? && Brackets(pat) <= 1000 && StartOf(pat).Done? && (p.value.anchored || !startline) ==>
              p.value.facts.first.Some? || (p.value.facts.bits.Some? && IsStartMap(p.value.facts.bits.value, pat))
  {
    var ok, code, consumes := CompilePattern(a);
    pat := CodeOf(a);
    var f, r, vary := AltsUnits(a, false);
    if !ok { return None, pat; }
    ghost var d: set<nat> := {};
    EmptySet(pat, 0);
    if !noAutoPossess {
      var rc;
      rc, d := AutoPossessify(code, pat);
    }
    ghost var len := LengthNamed(named);
    AltsTidy(a, dup, named);
    ConsumesShortest(a);
    PossessTidy(pat, 0, d, dup, len);
    pat := PossessNode(pat, 0, d);
    PossessedMeansSource(a, pat);
    WholeHere(code[..], pat);
    var anchored := anchored0;
    if !anchored { anchored := IsAnchored(code[..], 0, pat, Nil, Top); }
    var facts := StartOptimize(code[..], anchored, startline, f, r, consumes, dup, a, d, len);
    p := Some(Program(code[..], anchored, facts));
  }
}
