/** Parsed patterns for which the lengths of lookbehinds are wrong. */
module LookbehindFindings {
  import opened Folding
  import opened Regex
  import opened ParsedPattern
  import opened ParsedLength
  import opened Lookbehind

  function Char(u: int): PAtom { Simple([u]) }

  function One(a: PAtom): PBranch { PCons(a, NoQuant, PNil) }

  function Two(a: PAtom, b: PAtom): PBranch { PCons(a, NoQuant, One(b)) }

  lemma CharLength(g: Groups, u: int, d: nat)
    requires 0 <= u < 256
    ensures AtomLength(g, Char(u), d) == Some(1) && ProperAtom(Char(u))
  {
  }

  lemma BranchLengths(g: Groups, u: int, w: int, d: nat)
    requires 0 <= u < 256 && 0 <= w < 256
    ensures BranchLength(g, One(Char(u)), d) == Some(1) && BranchLength(g, Two(Char(u), Char(w)), d) == Some(2)
    ensures ProperBranch(One(Char(u))) && ProperBranch(Two(Char(u), Char(w)))
  {
    CharLength(g, u, d);
    CharLength(g, w, d);
    assert BranchLength(g, One(Char(w)), d) == Some(1);
    assert ProperBranch(One(Char(w)));
  }

  lemma CharsAt(c: Code, p: nat, u: int, w: int)
    requires p + 2 < |c| && c[p] == u && c[p + 1] == w
    ensures BranchAt(c, p, One(Char(u))) && BranchAt(c, p, Two(Char(u), Char(w)))
    ensures BranchUnits(One(Char(u))) == 1 && BranchUnits(Two(Char(u), Char(w))) == 2
  {
    assert IsAt(c, p, [u]) && IsAt(c, p + 1, [w]);
    assert BranchAt(c, p + 1, PNil) && BranchAt(c, p + 2, PNil);
    assert BranchAt(c, p + 1, One(Char(w)));
  }

  lemma OneCopy(g: Groups, a: PAtom, d: nat, e: Setting, i: int, j: int)
    requires InAtom(g, a, d, e, i, j)
    ensures InBranch(g, One(a), d, e, i, j)
  {
    assert InCopies(g, a, 0, d, e, j, j);
    assert InCopies(g, a, 1, d, e, i, j);
    assert InBranch(g, PNil, d, e, j, j);
    assert Times(NoQuant, 1);
  }

  lemma OneCharacter(g: Groups, u: int, d: nat, e: Setting, i: int)
    requires 0 <= u < 256 && 0 <= i < |e.s| && e.takes([u], e.s[i])
    ensures InAlts(g, PLast(One(Char(u))), d, e, i, i + 1)
  {
    assert InSimple([u], e, i, i + 1);
    OneCopy(g, Char(u), d, e, i, i + 1);
  }

  // --- a group that is hidden -----------------------------------------------------------------------------

  /** The options PCRE2_ANCHORED, PCRE2_UTF and PCRE2_ALLOW_EMPTY_CLASS together: the start of capturing group 1. */
  const HIDING_OPTIONS := 0x8008_0001

  /** (?:(?-i)ab)(c)(?<=(?1)) with these options and PCRE2_CASELESS. */
  function HidingPattern(): Code {
    [META_NOCAPTURE, META_OPTIONS, HIDING_OPTIONS, 97, 98, META_KET, META_CAPTURE + 1, 99, META_KET,
     META_LOOKBEHIND, 0, 14, META_RECURSE + 1, 0, 21, META_KET, META_END]
  }

  /** What the search finds for group 1, what group 1 is, and the branch of the lookbehind. */
  function FoundGroup(): PAlts { PLast(Two(Char(97), Char(98))) }

  function RealGroup(): PAlts { PLast(One(Char(99))) }

  function CallBranch(): PBranch { One(Reference(META_RECURSE + 1, [0, 21])) }

  function GroupAt(a: PAlts, p: nat): Groups { Groups(_ => a, _ => p, iset{1}, _ => a, _ => PNil) }

  function HidingView(): Parsed { Parsed(HidingPattern(), GroupAt(FoundGroup(), 3), 1, false) }

  predicate IsHiding(c: Code) {
    && |c| == 17 && c[0] == META_NOCAPTURE && c[1] == META_OPTIONS && c[2] == HIDING_OPTIONS && c[3] == 97 && c[4] == 98
    && c[5] == META_KET && c[6] == META_CAPTURE + 1 && c[7] == 99 && c[8] == META_KET && c[9] == META_LOOKBEHIND
    && c[10] == 0 && c[11] == 14 && c[12] == META_RECURSE + 1 && c[13] == 0 && c[14] == 21 && c[15] == META_KET
    && c[16] == META_END
  }

  lemma HidingUnits()
    ensures IsHiding(HidingPattern())
  {
  }

  lemma HidingEnd(c: Code)
    requires IsHiding(c)
    ensures Items(c, 9)
  {
    assert Items(c, 16);
    assert Items(c, 15);
    assert NextItem(c, 12) == 15;
    assert Items(c, 12);
    assert NextItem(c, 9) == 12;
  }

  lemma HidingMiddle(c: Code)
    requires IsHiding(c)
    ensures Items(c, 6) && FirstOf(c, 6, META_CAPTURE + 1) == Some(6)
  {
    HidingEnd(c);
    assert Items(c, 8);
    assert Items(c, 7);
  }

  lemma HidingItems(c: Code)
    requires IsHiding(c)
    ensures Items(c, 0) && FirstOf(c, 0, META_CAPTURE + 1) == Some(6)
  {
    HidingMiddle(c);
    assert Items(c, 5) && FirstOf(c, 5, META_CAPTURE + 1) == Some(6);
    assert Items(c, 4) && FirstOf(c, 4, META_CAPTURE + 1) == Some(6);
    assert Items(c, 3) && FirstOf(c, 3, META_CAPTURE + 1) == Some(6);
    assert NextItem(c, 1) == 3;
    assert Items(c, 1) && FirstOf(c, 1, META_CAPTURE + 1) == Some(6);
  }

  lemma HidingScan(c: Code)
    requires IsHiding(c)
    ensures Scan(c, 0, META_CAPTURE + 1) == 2
  {
    assert Scan(c, 2, META_CAPTURE + 1) == 2;
    assert Scan(c, 1, META_CAPTURE + 1) == 2;
  }

  /** What the search finds is read as a group. */
  lemma HidingFound(v: Parsed)
    requires IsHiding(v.c) && v.g == GroupAt(FoundGroup(), 3) && v.count == 1
    ensures GroupsFound(v)
  {
    var a := FoundGroup();
    HidingScan(v.c);
    CharsAt(v.c, 3, 97, 98);
    BranchLengths(v.g, 97, 98, 0);
    assert NumberedBranch(v, 4, One(Char(98)));
    assert NumberedAlts(v, 3, a);
    InsideFold(v, 3, 5, a);
    assert SingleBranch(One(Char(98)));
  }

  lemma HidingReal(c: Code)
    requires IsHiding(c)
    ensures AltsAt(c, 7, RealGroup())
  {
    CharsAt(c, 7, 99, c[8]);
  }

  lemma HidingCall(v: Parsed)
    requires IsHiding(v.c) && v.count == 1 && 1 in v.g.used
    ensures Ahead(v, 12, CallBranch())
  {
    var a := CallBranch().atom;
    assert IsAt(v.c, 13, [0, 21]) && BranchAt(v.c, 15, PNil);
    assert Data(META_RECURSE + 1) == 1 && DataSize(META_RECURSE + 1) == Some(2);
    assert ProperAtom(a);
    AheadFold(v, 12, 15, CallBranch());
  }

  lemma HidingLengths(g: Groups, f: Groups, e: Setting, i: int)
    requires g.contents(1) == RealGroup() && f.contents(1) == FoundGroup()
    requires 0 <= i < |e.s| && e.takes([99], e.s[i])
    ensures BranchLength(f, CallBranch(), 1) == Some(2) && InBranch(g, CallBranch(), 1, e, i, i + 1)
  {
    BranchLengths(f, 97, 98, 0);
    assert AltsLength(f, FoundGroup(), 0) == Some(2);
    OneCharacter(g, 99, 0, e, i);
    var call := Reference(META_RECURSE + 1, [0, 21]);
    assert Data(META_RECURSE + 1) == 1 && Meta(META_RECURSE + 1) == META_RECURSE;
    assert InAtom(g, call, 1, e, i, i + 1);
    OneCopy(g, call, 1, e, i, i + 1);
  }

  /** The search takes the value of the options for the start of group 1: what it finds there is read as a group of two
      characters, so that the lookbehind goes back by two, although the group it calls can match only one. */
  lemma HiddenGroup(g: Groups, e: Setting, i: int)
    requires g.contents(1) == RealGroup() && 0 <= i < |e.s| && e.takes([99], e.s[i])
    ensures var v := HidingView();
            && Items(v.c, 0) && FirstOf(v.c, 0, META_CAPTURE + 1) == Some(6) && AltsAt(v.c, 7, RealGroup())
            && Scan(v.c, 0, META_CAPTURE + 1) == 2 && GroupsFound(v) && Ahead(v, 12, CallBranch())
            && BranchLength(v.g, CallBranch(), 1) == Some(2) && InBranch(g, CallBranch(), 1, e, i, i + 1)
  {
    var v := HidingView();
    HidingUnits();
    HidingItems(v.c);
    HidingScan(v.c);
    HidingFound(v);
    HidingCall(v);
    HidingReal(v.c);
    HidingLengths(g, v.g, e, i);
  }

  // --- a lookbehind that is read a second time ------------------------------------------------------------

  /** Where the reading of the branches of a lookbehind stops: at an ALT that has been written to, or at the end. */
  function StopAt(c: Code, m: Marks, x: nat, a: PAlts): nat
    decreases a
  {
    var q := x + BranchUnits(a.branch);
    if a.POr? && q < |c| && q < |m| && c[q] == META_ALT && m[q] == 0 then StopAt(c, m, q + 1, a.more) else q
  }

  /** No ALT of the lookbehind has been written to. */
  predicate Unwritten(c: Code, m: Marks, x: nat, a: PAlts)
    decreases a
  {
    var q := x + BranchUnits(a.branch);
    a.POr? ==> q < |m| && m[q] == 0 && Unwritten(c, m, q + 1, a.more)
  }

  /** The reading comes to the end of the lookbehind exactly when no ALT of it has been written to. */
  lemma {:induction false} StopsAtKet(c: Code, m: Marks, x: nat, a: PAlts)
    requires AltsAt(c, x, a) && |m| == |c|
    ensures StopAt(c, m, x, a) == x + AltsUnits(a) <==> Unwritten(c, m, x, a)
    ensures StopAt(c, m, x, a) <= x + AltsUnits(a)
    decreases a
  {
    var q := x + BranchUnits(a.branch);
    if a.POr? { StopsAtKet(c, m, q + 1, a.more); }
  }

  lemma ClearUnwritten(c: Code, m: Marks, x: nat, y: nat, a: PAlts)
    requires AltsAt(c, x, a) && Clear(c, m, x, y) && x + AltsUnits(a) <= y
    ensures Unwritten(c, m, x, a)
    decreases a
  {
    var q := x + BranchUnits(a.branch);
    if a.POr? {
      LessClear(c, m, x, y, q + 1, y);
      ClearUnwritten(c, m, q + 1, y, a.more);
    }
  }

  /** ((?<=a|bb)c)(?<=(?1)) */
  function TwicePattern(): Code {
    [META_CAPTURE + 1, META_LOOKBEHIND, 0, 1, 97, META_ALT, 98, 98, META_KET, 99, META_KET,
     META_LOOKBEHIND, 0, 12, META_RECURSE + 1, 0, 19, META_KET, META_END]
  }

  function InnerAlts(): PAlts { POr(One(Char(97)), PLast(Two(Char(98), Char(98)))) }

  function TwiceGroup(): PAlts { PLast(Two(Bracket(BehindKind, META_LOOKBEHIND, 3, InnerAlts()), Char(99))) }

  predicate IsTwice(c: Code) {
    && |c| == 19 && c[0] == META_CAPTURE + 1 && c[1] == META_LOOKBEHIND && c[2] == 0 && c[3] == 1 && c[4] == 97
    && c[5] == META_ALT && c[6] == 98 && c[7] == 98 && c[8] == META_KET && c[9] == 99 && c[10] == META_KET
  }

  lemma TwiceUnits()
    ensures IsTwice(TwicePattern())
  {
  }

  lemma TwiceInner(c: Code)
    requires IsTwice(c)
    ensures AltsAt(c, 4, InnerAlts()) && AltsUnits(InnerAlts()) == 4
  {
    CharsAt(c, 4, 97, c[5]);
    CharsAt(c, 6, 98, 98);
  }

  lemma TwiceLaid(c: Code)
    requires IsTwice(c)
    ensures AltsAt(c, 1, TwiceGroup())
  {
    var a := Bracket(BehindKind, META_LOOKBEHIND, 3, InnerAlts());
    TwiceInner(c);
    assert AtomAt(c, 1, a) && AtomUnits(a) == 8;
    CharsAt(c, 9, 99, c[10]);
  }

  lemma TwiceLengths(g: Groups, d: nat)
    ensures AltsLength(g, TwiceGroup(), d) == Some(1)
  {
    BranchLengths(g, 99, 99, d);
    assert NoWidth(BehindKind);
    assert AtomLength(g, Bracket(BehindKind, META_LOOKBEHIND, 3, InnerAlts()), d) == Some(0);
  }

  /** Group 1 has the length 1. When the lengths of its lookbehind have been written, the reading of that lookbehind for
      the call stops at its ALT; what comes after that up to a closing bracket, two characters, is then taken for the
      rest of the group. */
  lemma ReadTwice(g: Groups, m: Marks, d: nat)
    requires |m| == 19 && m[1] == 1 && m[5] == 2
    ensures var c := TwicePattern();
            && AltsAt(c, 1, TwiceGroup()) && AltsLength(g, TwiceGroup(), d) == Some(1)
            && BranchLength(g, InnerAlts().branch, d) == Some(m[1])
            && BranchLength(g, InnerAlts().more.branch, d) == Some(m[5])
            && AltsAt(c, 4, InnerAlts()) && c[8] == META_KET && StopAt(c, m, 4, InnerAlts()) == 5
            && BranchAt(c, 6, Two(Char(98), Char(98))) && 6 + BranchUnits(Two(Char(98), Char(98))) == 8
            && BranchLength(g, Two(Char(98), Char(98)), d) == Some(2)
  {
    var c := TwicePattern();
    TwiceUnits();
    TwiceLaid(c);
    TwiceInner(c);
    TwiceLengths(g, d);
    BranchLengths(g, 97, 97, d);
    BranchLengths(g, 98, 98, d);
    CharsAt(c, 6, 98, 98);
    CharsAt(c, 4, 97, c[5]);
  }
}
