/** What a written replacement stands for, and what a run of the loop puts out: the subject with its matches
    replaced. */
module SubstituteLaws {
  import opened Regex
  import opened Substitute

  // --- a replacement is written as a list of parts -------------------------------------------------

  /** A character, $$, $n, or ${n}. */
  datatype Part = Char(c: int) | TwoDollars | Numbered(n: nat) | Braced(n: nat)

  function Decimal(n: nat): (t: Text)
    ensures |t| > 0
  {
    if n < 10 then [48 + n] else Decimal(n / 10) + [48 + n % 10]
  }

  function PartText(p: Part): (t: Text)
    ensures |t| > 0
  {
    match p
    case Char(c) => [c]
    case TwoDollars => [DOLLAR, DOLLAR]
    case Numbered(n) => [DOLLAR] + Decimal(n)
    case Braced(n) => [DOLLAR, OPEN] + Decimal(n) + [CLOSE]
  }

  function Written(ps: seq<Part>): Text { if ps == [] then [] else PartText(ps[0]) + Written(ps[1..]) }

  /** No character is a dollar, and no digit follows the number of a group without braces. */
  predicate WellWritten(ps: seq<Part>) {
    forall i :: 0 <= i < |ps| ==>
      && (ps[i].Char? ==> ps[i].c != DOLLAR)
      && (ps[i].Numbered? && i + 1 < |ps| && ps[i + 1].Char? ==> !Digit(ps[i + 1].c))
  }

  /** The subject where a group has matched; \K in a lookahead can put the end before the start. */
  function GroupSlice(s: Text, p: (nat, nat)): Text
    requires p.1 <= |s|
  {
    if p.0 <= p.1 then s[p.0..p.1] else []
  }

  datatype Meaning = Means(text: Text) | Refuses(rc: int)

  function Unset(o: Options): Meaning { if o.unsetEmpty then Means([]) else Refuses(ERROR_UNSET) }

  function GroupMeans(j: Job, ov: seq<Pair>, n: nat): Meaning
    requires Offsets(j.s, ov)
  {
    if n > j.top then (if j.options.unknownUnset then Unset(j.options) else Refuses(ERROR_NOSUBSTRING))
    else if n >= |ov| then Refuses(ERROR_UNAVAILABLE)
    else if ov[n].None? then Unset(j.options)
    else Means(GroupSlice(j.s, ov[n].value))
  }

  function PartMeans(j: Job, ov: seq<Pair>, p: Part): Meaning
    requires Offsets(j.s, ov)
  {
    match p
    case Char(c) => Means([c])
    case TwoDollars => Means([DOLLAR])
    case Numbered(n) => GroupMeans(j, ov, n)
    case Braced(n) => GroupMeans(j, ov, n)
  }

  predicate Offsets(s: Text, ov: seq<Pair>) {
    forall i {:trigger ov[i]} :: 0 <= i < |ov| && ov[i].Some? ==> ov[i].value.0 <= |s| && ov[i].value.1 <= |s|
  }

  /** What the parts mean, one after the other, up to one that is refused. */
  function Says(j: Job, ov: seq<Pair>, ps: seq<Part>): Text
    requires Offsets(j.s, ov)
  {
    if ps == [] || PartMeans(j, ov, ps[0]).Refuses? then []
    else PartMeans(j, ov, ps[0]).text + Says(j, ov, ps[1..])
  }

  function FirstRefusal(j: Job, ov: seq<Pair>, ps: seq<Part>): Option<int>
    requires Offsets(j.s, ov)
  {
    if ps == [] then None
    else if PartMeans(j, ov, ps[0]).Refuses? then Some(PartMeans(j, ov, ps[0]).rc)
    else FirstRefusal(j, ov, ps[1..])
  }

  // --- numbers --------------------------------------------------------------------------------------

  predicate Has(repl: Text, p: nat, t: Text) { p + |t| <= |repl| && repl[p..p + |t|] == t }

  lemma HasParts(repl: Text, p: nat, t: Text, u: Text)
    requires Has(repl, p, t + u)
    ensures Has(repl, p, t) && Has(repl, p + |t|, u)
  {
    var all := repl[p..p + |t + u|];
    assert all[..|t|] == t && all[|t|..] == u;
    assert repl[p..p + |t|] == all[..|t|] && repl[p + |t|..p + |t| + |u|] == all[|t|..];
  }

  lemma HasUnit(repl: Text, p: nat, t: Text, i: nat)
    requires Has(repl, p, t) && i < |t|
    ensures p + i < |repl| && repl[p + i] == t[i]
  {
    assert repl[p + i] == repl[p..p + |t|][i];
  }

  lemma LastDigit(repl: Text, p: nat, n: nat) returns (q: nat)
    requires n >= 10 && Has(repl, p, Decimal(n))
    ensures Has(repl, p, Decimal(n / 10)) && q == p + |Decimal(n / 10)| && q + 1 == p + |Decimal(n)|
    ensures q < |repl| && Digit(repl[q]) && n == (n / 10) * 10 + (repl[q] - 48)
  {
    q := p + |Decimal(n / 10)|;
    HasParts(repl, p, Decimal(n / 10), [48 + n % 10]);
    HasUnit(repl, q, [48 + n % 10], 0);
  }

  lemma FirstDigit(repl: Text, p: nat, n: nat)
    requires Has(repl, p, Decimal(n))
    ensures p < |repl| && Digit(repl[p])
    decreases n
  {
    if n < 10 {
      HasUnit(repl, p, Decimal(n), 0);
    } else {
      var q := LastDigit(repl, p, n);
      FirstDigit(repl, p, n / 10);
    }
  }

  /** All digits of a number that is not too large are read. */
  lemma {:induction false} DigitsRead(j: Job, p: nat, n: nat)
    requires Has(j.repl, p, Decimal(n)) && (n < 10 || n <= j.top)
    ensures p < |j.repl| && ReadNumber(j, p + 1, j.repl[p] - 48) == ReadNumber(j, p + |Decimal(n)|, n)
    decreases n
  {
    FirstDigit(j.repl, p, n);
    if n < 10 {
      HasUnit(j.repl, p, Decimal(n), 0);
    } else {
      var q := LastDigit(j.repl, p, n);
      DigitsRead(j, p, n / 10);
    }
  }

  /** A number that is too large is refused, or its digits are passed over. */
  lemma {:induction false} DigitsOver(j: Job, p: nat, n: nat) returns (r: Name)
    requires Has(j.repl, p, Decimal(n)) && n >= 10 && n > j.top
    ensures p < |j.repl| && ReadNumber(j, p + 1, j.repl[p] - 48) == r
    ensures if j.options.unknownUnset then r.Number? && r.group > j.top && r.next == DigitsEnd(j.repl, p + |Decimal(n)|)
            else r.Wrong? && r.rc == ERROR_NOSUBSTRING
    decreases n
  {
    FirstDigit(j.repl, p, n);
    var q := LastDigit(j.repl, p, n);
    if n / 10 >= 10 && n / 10 > j.top {
      r := DigitsOver(j, p, n / 10);
    } else {
      DigitsRead(j, p, n / 10);
      r := ReadNumber(j, q, n / 10);
    }
  }

  /** Where no digit follows, what is read after the dollar or the brace is the number. */
  lemma NumberRead(j: Job, p: nat, n: nat) returns (r: Name)
    requires Has(j.repl, p, Decimal(n))
    requires p + |Decimal(n)| < |j.repl| ==> !Digit(j.repl[p + |Decimal(n)|])
    ensures p < |j.repl| && Digit(j.repl[p]) && r == ReadGroup(j, p, false)
    ensures if n >= 10 && n > j.top && !j.options.unknownUnset then r.Wrong? && r.rc == ERROR_NOSUBSTRING
            else r.Number? && r.next == p + |Decimal(n)| && (if n > j.top then r.group > j.top else r.group == n)
  {
    FirstDigit(j.repl, p, n);
    r := ReadGroup(j, p, false);
    if n >= 10 && n > j.top {
      r := DigitsOver(j, p, n);
    } else {
      DigitsRead(j, p, n);
    }
  }

  // --- one part -------------------------------------------------------------------------------------

  /** A piece that has been read means what the part means. */
  predicate IsRead(piece: Piece, m: Meaning, next: nat) {
    if m.Means? then piece == Piece(m.text, next) else piece.Bad? && piece.rc == m.rc
  }

  lemma GroupIsRead(j: Job, ov: seq<Pair>, name: Name, n: nat, next: nat)
    requires Offsets(j.s, ov) && name.Number? && (if n > j.top then name.group > j.top else name.group == n)
    ensures IsRead(GroupText(j, ov, name, false, next), GroupMeans(j, ov, n), next)
  {
  }

  lemma GroupPart(j: Job, ov: seq<Pair>, p: nat, n: nat)
    requires Offsets(j.s, ov) && Has(j.repl, p, PartText(Numbered(n)))
    requires var end := p + |PartText(Numbered(n))|; end < |j.repl| ==> !Digit(j.repl[end])
    ensures IsRead(ReadPiece(j, ov, p), GroupMeans(j, ov, n), p + |PartText(Numbered(n))|)
  {
    HasParts(j.repl, p, [DOLLAR], Decimal(n));
    HasUnit(j.repl, p, [DOLLAR], 0);
    var name := NumberRead(j, p + 1, n);
    if name.Number? { GroupIsRead(j, ov, name, n, name.next); }
  }

  /** A dollar and a brace at p, the digits at d, and the closing brace at x. */
  lemma BracedUnits(repl: Text, p: nat, n: nat) returns (d: nat, x: nat)
    requires Has(repl, p, PartText(Braced(n)))
    ensures d == p + 2 && x == d + |Decimal(n)| && x + 1 == p + |PartText(Braced(n))|
    ensures x < |repl| && repl[p] == DOLLAR && repl[p + 1] == OPEN && repl[x] == CLOSE && Has(repl, d, Decimal(n))
  {
    d, x := p + 2, p + 2 + |Decimal(n)|;
    HasParts(repl, p, [DOLLAR, OPEN] + Decimal(n), [CLOSE]);
    HasParts(repl, p, [DOLLAR, OPEN], Decimal(n));
    HasUnit(repl, p, [DOLLAR, OPEN], 0);
    HasUnit(repl, p, [DOLLAR, OPEN], 1);
    HasUnit(repl, x, [CLOSE], 0);
  }

  lemma BracedPart(j: Job, ov: seq<Pair>, p: nat, n: nat)
    requires Offsets(j.s, ov) && Has(j.repl, p, PartText(Braced(n)))
    ensures IsRead(ReadPiece(j, ov, p), GroupMeans(j, ov, n), p + |PartText(Braced(n))|)
  {
    var d, x := BracedUnits(j.repl, p, n);
    var name := NumberRead(j, d, n);
    if name.Number? { GroupIsRead(j, ov, name, n, x + 1); }
  }

  lemma PartRead(j: Job, ov: seq<Pair>, p: nat, part: Part)
    requires Offsets(j.s, ov) && Has(j.repl, p, PartText(part)) && (part.Char? ==> part.c != DOLLAR)
    requires var end := p + |PartText(part)|; part.Numbered? && end < |j.repl| ==> !Digit(j.repl[end])
    ensures p < |j.repl| && IsRead(ReadPiece(j, ov, p), PartMeans(j, ov, part), p + |PartText(part)|)
  {
    HasUnit(j.repl, p, PartText(part), 0);
    match part
    case Char(c) =>
    case TwoDollars => HasUnit(j.repl, p, PartText(part), 1);
    case Numbered(n) => GroupPart(j, ov, p, n);
    case Braced(n) => BracedPart(j, ov, p, n);
  }

  // --- the whole replacement --------------------------------------------------------------------------

  lemma SplitOff(repl: Text, p: nat, t: Text, u: Text)
    requires p <= |repl| && repl[p..] == t + u
    ensures |repl| == p + |t| + |u| && Has(repl, p, t) && repl[p + |t|..] == u
  {
    var all := repl[p..];
    assert |repl| == p + |t + u|;
    assert all[..|t|] == t && all[|t|..] == u;
    assert repl[p..p + |t|] == all[..|t|] && repl[p + |t|..] == all[|t|..];
  }

  /** A part that comes after the number of a group does not begin with a digit. */
  lemma NoDigit(ps: seq<Part>)
    requires |ps| > 1 && WellWritten(ps) && ps[0].Numbered?
    ensures Written(ps[1..]) != [] && !Digit(Written(ps[1..])[0])
  {
    var t, u := PartText(ps[1]), Written(ps[1..][1..]);
    assert ps[1..][0] == ps[1];
    assert Written(ps[1..]) == t + u;
    assert (t + u)[0] == t[0];
  }

  lemma FollowedBy(j: Job, ps: seq<Part>, p: nat, end: nat)
    requires ps != [] && WellWritten(ps) && p <= |j.repl| && j.repl[p..] == Written(ps)
    requires end == p + |PartText(ps[0])|
    ensures end <= |j.repl| && Has(j.repl, p, PartText(ps[0])) && j.repl[end..] == Written(ps[1..])
    ensures ps[0].Numbered? && end < |j.repl| ==> !Digit(j.repl[end])
  {
    var t, u := PartText(ps[0]), Written(ps[1..]);
    SplitOff(j.repl, p, t, u);
    if ps[0].Numbered? && end < |j.repl| {
      NoDigit(ps);
      assert j.repl[end] == j.repl[end..][0];
    }
  }

  /** The expansion comes to this text, and ends as given. */
  predicate ComesTo(x: Expansion, text: Text, refusal: Option<int>) {
    && x.text == text
    && if refusal.None? then x.error.None? else x.error.Some? && x.error.value.0 == refusal.value
  }

  lemma ExpandOne(j: Job, ov: seq<Pair>, p: nat, m: Meaning, next: nat, text: Text, refusal: Option<int>)
    requires p < |j.repl| && IsRead(ReadPiece(j, ov, p), m, next)
    requires m.Means? ==> ComesTo(Expand(j, ov, next), text, refusal)
    ensures if m.Means? then ComesTo(Expand(j, ov, p), m.text + text, refusal)
            else ComesTo(Expand(j, ov, p), [], Some(m.rc))
  {
  }

  lemma RestWritten(ps: seq<Part>)
    requires ps != [] && WellWritten(ps)
    ensures WellWritten(ps[1..])
  {
    forall i | 0 <= i < |ps[1..]|
      ensures ps[1..][i].Char? ==> ps[1..][i].c != DOLLAR
      ensures ps[1..][i].Numbered? && i + 1 < |ps[1..]| && ps[1..][i + 1].Char? ==> !Digit(ps[1..][i + 1].c)
    {
      assert ps[1..][i] == ps[i + 1];
    }
  }

  lemma {:induction false} ExpandsTo(j: Job, ov: seq<Pair>, ps: seq<Part>, p: nat)
    requires Offsets(j.s, ov) && WellWritten(ps) && p <= |j.repl| && j.repl[p..] == Written(ps)
    ensures ComesTo(Expand(j, ov, p), Says(j, ov, ps), FirstRefusal(j, ov, ps))
    decreases |ps|
  {
    if ps != [] {
      var end := FirstIsRead(j, ov, ps, p);
      RestWritten(ps);
      ExpandsTo(j, ov, ps[1..], end);
      ExpandOne(j, ov, p, PartMeans(j, ov, ps[0]), end, Says(j, ov, ps[1..]), FirstRefusal(j, ov, ps[1..]));
    }
  }

  lemma FirstIsRead(j: Job, ov: seq<Pair>, ps: seq<Part>, p: nat) returns (end: nat)
    requires Offsets(j.s, ov) && ps != [] && WellWritten(ps) && p <= |j.repl| && j.repl[p..] == Written(ps)
    ensures p < |j.repl| && IsRead(ReadPiece(j, ov, p), PartMeans(j, ov, ps[0]), end)
    ensures end <= |j.repl| && j.repl[end..] == Written(ps[1..])
  {
    end := p + |PartText(ps[0])|;
    FollowedBy(j, ps, p, end);
    PartRead(j, ov, p, ps[0]);
  }

  /** A replacement that is not taken literally: each part is put in for what it means, up to the first that is
      refused, whose reason is reported. */
  lemma ReplacementMeans(j: Job, ov: seq<Pair>, ps: seq<Part>)
    requires Offsets(j.s, ov) && WellWritten(ps) && j.repl == Written(ps) && !j.options.literal
    ensures ComesTo(Replacement(j, ov), Says(j, ov, ps), FirstRefusal(j, ov, ps))
  {
    assert j.repl[0..] == j.repl;
    ExpandsTo(j, ov, ps, 0);
  }

  /** Where all the groups are set there is no error, and the text is that of the parts, put together. */
  function Flattened(j: Job, ov: seq<Pair>, ps: seq<Part>): Text
    requires Offsets(j.s, ov)
    requires forall i :: 0 <= i < |ps| ==> IsSet(j, ov, ps[i])
  {
    if ps == [] then []
    else
      assert IsSet(j, ov, ps[0]);
      (match ps[0]
       case Char(c) => [c]
       case TwoDollars => [DOLLAR]
       case Numbered(n) => GroupSlice(j.s, ov[n].value)
       case Braced(n) => GroupSlice(j.s, ov[n].value)) + Flattened(j, ov, ps[1..])
  }

  predicate IsSet(j: Job, ov: seq<Pair>, p: Part) {
    p.Numbered? || p.Braced? ==> p.n <= j.top && p.n < |ov| && ov[p.n].Some?
  }

  lemma {:induction false} AllSet(j: Job, ov: seq<Pair>, ps: seq<Part>)
    requires Offsets(j.s, ov) && forall i :: 0 <= i < |ps| ==> IsSet(j, ov, ps[i])
    ensures FirstRefusal(j, ov, ps).None? && Says(j, ov, ps) == Flattened(j, ov, ps)
    decreases |ps|
  {
    if ps != [] {
      assert IsSet(j, ov, ps[0]);
      forall i | 0 <= i < |ps[1..]| ensures IsSet(j, ov, ps[1..][i]) { assert IsSet(j, ov, ps[i + 1]); }
      AllSet(j, ov, ps[1..]);
    }
  }

  /** Where all the groups are set there is no error, and every part stands for its character, one dollar, or what its
      group has matched. */
  lemma ReplacementOfSet(j: Job, ov: seq<Pair>, ps: seq<Part>)
    requires Offsets(j.s, ov) && WellWritten(ps) && j.repl == Written(ps) && !j.options.literal
    requires forall i :: 0 <= i < |ps| ==> IsSet(j, ov, ps[i])
    ensures Replacement(j, ov) == Expansion(Flattened(j, ov, ps), None)
  {
    ReplacementMeans(j, ov, ps);
    AllSet(j, ov, ps);
  }

  // --- a run of the loop ------------------------------------------------------------------------------

  /** The matches that the loop replaces, in order, by their offsets. */
  ghost function Hits(j: Job, start: nat, magic: bool, saved: Saved, subs: nat): seq<seq<Pair>>
    requires Honours(j) && Phase(j, start, magic, saved)
    decreases |j.s| - start, !magic
  {
    match j.m(start, magic)
    case Failed(_) => []
    case NoMatch =>
      if !magic || start >= |j.s| then [] else Hits(j, start + StepOver(j, start), false, saved, subs)
    case Matched(ov) =>
      var (b, e) := ov[0].value;
      if e < b || b < start then []
      else if saved.Some? && saved.value.0 == b && saved.value.1 == e then
        (if b == e && saved.value.2 != start then Hits(j, start, true, Some((b, e, start)), subs) else [])
      else if subs == INT_MAX || Replacement(j, ov).error.Some? then []
      else if !j.options.global then [ov]
      else [ov] + Hits(j, e, b == e == start, Some((b, e, start)), subs + 1)
  }

  /** After an empty match the search goes on after one character, and never between CR and LF where they are one
      newline. */
  lemma StepsOver(j: Job, start: nat)
    requires start < |j.s|
    ensures var next := start + StepOver(j, start);
            && start < next <= |j.s|
            && !(j.crlf && next < |j.s| && j.s[next - 1] == 13 && j.s[next] == 10)
            && (next != start + 1 ==> j.crlf && j.s[start..next] == [13, 10])
  {
  }

  /** Each is what the matcher answers somewhere after the end of the one before, and none starts before that. */
  ghost predicate InTurn(j: Job, from: nat, hits: seq<seq<Pair>>)
    decreases |hits|
  {
    if hits == [] then from <= |j.s|
    else
      var ov := hits[0];
      && |ov| > 0 && ov[0].Some? && from <= ov[0].value.0 <= ov[0].value.1 <= |j.s|
      && Replacement(j, ov).error.None?
      && (exists f: nat, magic: bool :: from <= f <= ov[0].value.0 && j.m(f, magic) == Matched(ov))
      && InTurn(j, ov[0].value.1, hits[1..])
  }

  /** The subject from an offset on, with the replacement of each match instead of it; or the replacements only. */
  ghost function Woven(j: Job, from: nat, hits: seq<seq<Pair>>): Text
    requires InTurn(j, from, hits)
    decreases |hits|
  {
    if hits == [] then Unless(j.options.replacementOnly, j.s[from..])
    else
      var (b, e) := hits[0][0].value;
      Unless(j.options.replacementOnly, j.s[from..b]) + Replacement(j, hits[0]).text + Woven(j, e, hits[1..])
  }

  lemma UnlessParts(only: bool, s: Text, a: nat, b: nat, e: nat)
    requires a <= b <= e <= |s|
    ensures Unless(only, s[a..e]) == Unless(only, s[a..b]) + Unless(only, s[b..e])
  {
    assert s[a..e] == s[a..b] + s[b..e];
  }

  /** Text that is passed over before the next match belongs to what comes before it. */
  lemma WovenFrom(j: Job, from: nat, next: nat, hits: seq<seq<Pair>>)
    requires from <= next && InTurn(j, next, hits)
    ensures InTurn(j, from, hits) && next <= |j.s|
    ensures Woven(j, from, hits) == Unless(j.options.replacementOnly, j.s[from..next]) + Woven(j, next, hits)
  {
    var only := j.options.replacementOnly;
    if hits == [] {
      UnlessParts(only, j.s, from, next, |j.s|);
      assert j.s[from..|j.s|] == j.s[from..] && j.s[next..|j.s|] == j.s[next..];
    } else {
      var (b, e) := hits[0][0].value;
      var x, t := Unless(only, j.s[from..next]), Unless(only, j.s[next..b]);
      UnlessParts(only, j.s, from, next, b);
      Joined(x, t, Replacement(j, hits[0]).text);
      Joined(x, t + Replacement(j, hits[0]).text, Woven(j, e, hits[1..]));
    }
  }

  lemma WovenFirst(j: Job, from: nat, ov: seq<Pair>, rest: seq<seq<Pair>>, f: nat, magic: bool)
    requires |ov| > 0 && ov[0].Some? && from <= f <= ov[0].value.0 <= ov[0].value.1 <= |j.s|
    requires j.m(f, magic) == Matched(ov) && Replacement(j, ov).error.None? && InTurn(j, ov[0].value.1, rest)
    ensures InTurn(j, from, [ov] + rest)
    ensures Woven(j, from, [ov] + rest) == Unless(j.options.replacementOnly, j.s[from..ov[0].value.0])
                                           + Replacement(j, ov).text + Woven(j, ov[0].value.1, rest)
  {
    var hits := [ov] + rest;
    assert hits[0] == ov && hits[1..] == rest;
  }

  ghost predicate Weaves(j: Job, start: nat, magic: bool, saved: Saved, subs: nat)
    requires Honours(j) && Phase(j, start, magic, saved)
  {
    WeavesInto(j, start, Loop(j, start, magic, saved, subs), Hits(j, start, magic, saved, subs), subs)
  }

  ghost predicate WeavesInto(j: Job, start: nat, r: Run, hits: seq<seq<Pair>>, subs: nat) {
    r.rc >= 0 ==> InTurn(j, start, hits) && r.text == Woven(j, start, hits) && r.rc == subs + |hits|
                  && (!j.options.global ==> |hits| <= 1)
  }

  lemma WeavesSkip(j: Job, start: nat, next: nat, r: Run, hits: seq<seq<Pair>>, subs: nat)
    requires start <= next <= |j.s| && WeavesInto(j, next, r, hits, subs)
    ensures WeavesInto(j, start, Before(Unless(j.options.replacementOnly, j.s[start..next]), r), hits, subs)
  {
    if r.rc >= 0 { WovenFrom(j, start, next, hits); }
  }

  lemma WeavesHit(j: Job, start: nat, magic: bool, ov: seq<Pair>, e: nat, t: Text, r: Run, hits: seq<seq<Pair>>,
                  subs: nat)
    requires |ov| > 0 && ov[0].Some? && start <= ov[0].value.0 <= ov[0].value.1 <= |j.s| && e == ov[0].value.1
    requires j.m(start, magic) == Matched(ov) && Replacement(j, ov).error.None?
    requires t == Unless(j.options.replacementOnly, j.s[start..ov[0].value.0]) + Replacement(j, ov).text
    requires j.options.global && WeavesInto(j, e, r, hits, subs + 1)
    ensures WeavesInto(j, start, Before(t, r), [ov] + hits, subs)
  {
    if r.rc >= 0 { WovenFirst(j, start, ov, hits, start, magic); }
  }

  lemma WeavesOnce(j: Job, start: nat, magic: bool, ov: seq<Pair>, e: nat, t: Text, subs: nat)
    requires |ov| > 0 && ov[0].Some? && start <= ov[0].value.0 <= ov[0].value.1 <= |j.s| && e == ov[0].value.1
    requires j.m(start, magic) == Matched(ov) && Replacement(j, ov).error.None?
    requires t == Unless(j.options.replacementOnly, j.s[start..ov[0].value.0]) + Replacement(j, ov).text
    ensures WeavesInto(j, start, Run(t + Unless(j.options.replacementOnly, j.s[e..]), subs + 1, None), [ov], subs)
  {
    WovenFirst(j, start, ov, [], start, magic);
    assert [ov] + [] == [ov];
  }

  lemma WeavesError(j: Job, start: nat, ov: seq<Pair>, x: Expansion, t: Text, subs: nat)
    requires x == Replacement(j, ov) && x.error.Some?
    ensures WeavesInto(j, start, Run(t, x.error.value.0, Some(x.error.value.1)), [], subs)
  {
    ErrorNegative(j, ov, 0);
  }

  /** A match that is replaced. */
  lemma WeavesReplaced(j: Job, start: nat, magic: bool, saved: Saved, subs: nat, b: nat, e: nat)
    requires Honours(j) && Phase(j, start, magic, saved) && j.m(start, magic).Matched?
    requires j.m(start, magic).ovector[0] == Some((b, e)) && Refused(start, saved, subs, b, e).None?
    requires !(saved.Some? && saved.value.0 == b && saved.value.1 == e)
    requires j.options.global ==> start <= b <= e && Weaves(j, e, b == e == start, Some((b, e, start)), subs + 1)
    ensures Weaves(j, start, magic, saved, subs)
  {
    var ov := j.m(start, magic).ovector;
    var x := Replacement(j, ov);
    var t := Unless(j.options.replacementOnly, j.s[start..b]) + x.text;
    LoopReplaced(j, start, magic, saved, subs, b, e, t, x);
    if x.error.Some? {
      WeavesError(j, start, ov, x, t, subs);
    } else if !j.options.global {
      WeavesOnce(j, start, magic, ov, e, t, subs);
    } else {
      WeavesHit(j, start, magic, ov, e, t, Loop(j, e, b == e == start, Some((b, e, start)), subs + 1),
                Hits(j, e, b == e == start, Some((b, e, start)), subs + 1), subs);
    }
  }

  /** A run without an error puts out the subject with its matches replaced, and returns their number. */
  lemma {:induction false} LoopWeaves(j: Job, start: nat, magic: bool, saved: Saved, subs: nat)
    requires Honours(j) && Phase(j, start, magic, saved)
    ensures Weaves(j, start, magic, saved, subs)
    decreases |j.s| - start, !magic
  {
    var o := j.m(start, magic);
    if o.NoMatch? && magic && start < |j.s| {
      var next := start + StepOver(j, start);
      LoopWeaves(j, next, false, saved, subs);
      WeavesSkip(j, start, next, Loop(j, next, false, saved, subs), Hits(j, next, false, saved, subs), subs);
    } else if o.Matched? {
      var (b, e) := o.ovector[0].value;
      if Refused(start, saved, subs, b, e).None? {
        if saved.Some? && saved.value.0 == b && saved.value.1 == e {
          LoopWeaves(j, start, true, Some((b, e, start)), subs);
        } else {
          if j.options.global { LoopWeaves(j, e, b == e == start, Some((b, e, start)), subs + 1); }
          WeavesReplaced(j, start, magic, saved, subs, b, e);
        }
      }
    }
  }

  /** Replacing all matches, it stops only where the matcher finds nothing more. */
  lemma {:induction false} LoopExhausts(j: Job, start: nat, magic: bool, saved: Saved, subs: nat)
      returns (f: nat, m: bool)
    requires Honours(j) && Phase(j, start, magic, saved) && Loop(j, start, magic, saved, subs).rc >= 0
             && j.options.global
    ensures start <= f <= |j.s| && j.m(f, m).NoMatch? && (m ==> f == |j.s|)
    ensures forall ov: seq<Pair> {:trigger ov in Hits(j, start, magic, saved, subs)} ::
              ov in Hits(j, start, magic, saved, subs) ==> |ov| > 0 && ov[0].Some? && ov[0].value.1 <= f
    decreases |j.s| - start, !magic
  {
    f, m := start, magic;
    var o := j.m(start, magic);
    if o.NoMatch? {
      if magic && start < |j.s| { f, m := LoopExhausts(j, start + StepOver(j, start), false, saved, subs); }
    } else {
      var (b, e) := o.ovector[0].value;
      ErrorNegative(j, o.ovector, 0);
      if saved.Some? && saved.value.0 == b && saved.value.1 == e {
        f, m := LoopExhausts(j, start, true, Some((b, e, start)), subs);
      } else {
        f, m := LoopExhausts(j, e, b == e == start, Some((b, e, start)), subs + 1);
      }
    }
  }

  /** The whole: what comes before the start offset, and the rest with its matches replaced. */
  lemma WholeWeaves(j: Job, start: nat)
    requires Honours(j) && start <= |j.s| && Whole(j, start).rc >= 0
    ensures var hits := Hits(j, start, false, None, 0);
            && InTurn(j, start, hits) && Whole(j, start).rc == |hits|
            && Whole(j, start).text == Unless(j.options.replacementOnly, j.s[..start]) + Woven(j, start, hits)
  {
    LoopWeaves(j, start, false, None, 0);
  }
}
