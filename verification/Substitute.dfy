/** Replacing matches in a subject: the loop over the matches, the replacement text, and the buffer that may turn out
    too small. */
module Substitute {
  import opened Folding
  import opened Regex

  type Text = seq<int>

  const ERROR_NOMATCH := -1
  const ERROR_BADOFFSET := -33
  const ERROR_BADREPLACEMENT := -35
  const ERROR_NOMEMORY := -48
  const ERROR_NOSUBSTRING := -49
  const ERROR_UNAVAILABLE := -54
  const ERROR_UNSET := -55
  const ERROR_REPMISSINGBRACE := -58
  const ERROR_BADSUBSPATTERN := -60
  const ERROR_TOOMANYREPLACE := -61
  const ERROR_INTERNAL_DUPMATCH := -65
  const INT_MAX := 0x7fff_ffff

  /** A captured substring, from its first offset to its second one. */
  type Pair = Option<(nat, nat)>

  /** What the matcher answers. */
  datatype Outcome = NoMatch | Failed(rc: int) | Matched(ovector: seq<Pair>)

  /** The matcher: a start offset, and whether it is to look there only, and not for an empty string. */
  type Matcher = (nat, bool) -> Outcome

  datatype Options = Options(global: bool, literal: bool, replacementOnly: bool, overflowLength: bool,
                             unknownUnset: bool, unsetEmpty: bool)

  /** What is given: the subject, the matcher, the highest group number, whether CRLF counts as a newline, and the
      replacement. */
  datatype Job = Job(s: Text, m: Matcher, top: nat, crlf: bool, options: Options, repl: Text)

  /** The matcher answers with offsets into the subject, and keeps to the options. */
  ghost predicate Honours(j: Job) {
    && (forall start: nat, magic: bool {:trigger j.m(start, magic)} :: j.m(start, magic).Failed? ==>
          j.m(start, magic).rc < 0)
    && forall start: nat, magic: bool {:trigger j.m(start, magic)} :: start <= |j.s| && j.m(start, magic).Matched? ==>
      var ov := j.m(start, magic).ovector;
      && |ov| > 0 && ov[0].Some? && (magic ==> ov[0].value != (start, start))
      && forall i {:trigger ov[i]} :: 0 <= i < |ov| && ov[i].Some? ==> ov[i].value.0 <= |j.s| && ov[i].value.1 <= |j.s|
  }

  // --- the replacement text ------------------------------------------------------------------

  predicate Digit(c: int) { 48 <= c <= 57 }

  predicate Word(c: int) { Digit(c) || 65 <= c <= 90 || 97 <= c <= 122 || c == 95 }

  /** A group number or a name that has been read, or an error and where it is. */
  datatype Name = Number(group: int, next: nat) | Called(name: Text, next: nat) | Wrong(rc: int, at: nat)

  function DigitsEnd(repl: Text, p: nat): (r: nat)
    ensures r >= p
    decreases |repl| - p
  {
    if p < |repl| && Digit(repl[p]) then DigitsEnd(repl, p + 1) else p
  }

  /** The digits of a group number from p on; one that is too large is an error, unless unknown groups count as
      unset. */
  function ReadNumber(j: Job, p: nat, group: int): (r: Name)
    ensures !r.Called? && (r.Number? ==> r.next >= p)
    decreases |j.repl| - p
  {
    if p < |j.repl| && Digit(j.repl[p]) then
      var n := group * 10 + (j.repl[p] - 48);
      if n > j.top then (if j.options.unknownUnset then Number(n, DigitsEnd(j.repl, p + 1))
                         else Wrong(ERROR_NOSUBSTRING, p))
      else ReadNumber(j, p + 1, n)
    else Number(group, p)
  }

  const MAX_NAME := 32

  /** The characters of a name from p on. */
  function ReadName(repl: Text, p: nat, name: Text): (r: Name)
    ensures !r.Number? && (r.Called? ==> r.next >= p && |r.name| > 0)
    decreases |repl| - p
  {
    if p < |repl| && Word(repl[p]) then
      if |name| == MAX_NAME then Wrong(ERROR_BADREPLACEMENT, p) else ReadName(repl, p + 1, name + [repl[p]])
    else if name == [] then Wrong(ERROR_BADREPLACEMENT, p)
    else Called(name, p)
  }

  /** What comes after the dollar, the brace and the star. */
  function ReadGroup(j: Job, p: nat, star: bool): (r: Name)
    requires p < |j.repl|
    ensures !r.Wrong? ==> r.next >= p
  {
    if !star && Digit(j.repl[p]) then ReadNumber(j, p + 1, j.repl[p] - 48) else ReadName(j.repl, p, [])
  }

  datatype Piece = Piece(text: Text, next: nat) | Bad(rc: int, at: nat)

  const MARK := [77, 65, 82, 75]

  /** The text of a group; the pattern has no names, and no marks are set. */
  function GroupText(j: Job, ov: seq<Pair>, name: Name, star: bool, next: nat): (r: Piece)
    requires !name.Wrong?
    ensures r.Piece? ==> r.next == next
  {
    if star then (if name.Called? && name.name == MARK then Piece([], next) else Bad(ERROR_BADREPLACEMENT, next))
    else if name.Called? && !j.options.unknownUnset then Bad(ERROR_NOSUBSTRING, next)
    else
      var group := if name.Called? then j.top + 1 else name.group;
      var rc := LengthByNumber(j, ov, group);
      var rc' := if rc == ERROR_NOSUBSTRING && j.options.unknownUnset then ERROR_UNSET else rc;
      if rc' < 0 then (if rc' == ERROR_UNSET && j.options.unsetEmpty then Piece([], next) else Bad(rc', next))
      else Piece(Between(j.s, ov[group].value), next)
  }

  /** pcre2_substring_length_bynumber: 0, or why there is no such string. */
  function LengthByNumber(j: Job, ov: seq<Pair>, group: int): (rc: int)
    ensures rc <= 0 && (rc == 0 ==> group < |ov| && (0 <= group ==> ov[group].Some?))
  {
    if group > j.top then ERROR_NOSUBSTRING
    else if group >= |ov| then ERROR_UNAVAILABLE
    else if group < 0 || ov[group].None? then ERROR_UNSET
    else 0
  }

  function Between(s: Text, p: (nat, nat)): Text { if p.0 < p.1 <= |s| then s[p.0..p.1] else [] }

  const DOLLAR := 36
  const OPEN := 123
  const CLOSE := 125
  const STAR := 42

  /** A dollar at p and what belongs to it. */
  function ReadDollar(j: Job, ov: seq<Pair>, p: nat): (r: Piece)
    requires p < |j.repl|
    ensures r.Piece? ==> r.next > p
  {
    var a := p + 1;
    if a >= |j.repl| then Bad(ERROR_BADREPLACEMENT, a)
    else if j.repl[a] == DOLLAR then Piece([DOLLAR], a + 1)
    else
      var inparens := j.repl[a] == OPEN;
      var b := if inparens then a + 1 else a;
      if b >= |j.repl| then Bad(ERROR_BADREPLACEMENT, b)
      else
        var star := j.repl[b] == STAR;
        var c := if star then b + 1 else b;
        if c >= |j.repl| then Bad(ERROR_BADREPLACEMENT, c)
        else
          var name := ReadGroup(j, c, star);
          if name.Wrong? then Bad(name.rc, name.at)
          else if inparens && (name.next >= |j.repl|
                               || j.repl[name.next] != CLOSE) then Bad(ERROR_REPMISSINGBRACE, name.next)
          else GroupText(j, ov, name, star, if inparens then name.next + 1 else name.next)
  }

  function ReadPiece(j: Job, ov: seq<Pair>, p: nat): (r: Piece)
    requires p < |j.repl|
    ensures r.Piece? ==> r.next > p
  {
    if j.repl[p] == DOLLAR then ReadDollar(j, ov, p) else Piece([j.repl[p]], p + 1)
  }

  /** The replacement text from p on, and whether an error ends it. */
  datatype Expansion = Expansion(text: Text, error: Option<(int, nat)>)

  function Expand(j: Job, ov: seq<Pair>, p: nat): Expansion
    decreases |j.repl| - p
  {
    if p >= |j.repl| then Expansion([], None)
    else
      var piece := ReadPiece(j, ov, p);
      if piece.Bad? then Expansion([], Some((piece.rc, piece.at)))
      else
        var rest := Expand(j, ov, piece.next);
        Expansion(piece.text + rest.text, rest.error)
  }

  function Replacement(j: Job, ov: seq<Pair>): Expansion {
    if j.options.literal then Expansion(j.repl, None) else Expand(j, ov, 0)
  }

  // --- the loop over the matches ----------------------------------------------------------------

  /** The match before, and where the search for it started. */
  type Saved = Option<(nat, nat, nat)>

  /** What the loop can be in: a second try at an empty match is made only where there was one. */
  predicate Phase(j: Job, start: nat, magic: bool, saved: Saved) {
    && start <= |j.s| && (saved.Some? ==> saved.value.1 <= start)
    && (magic ==> saved.Some? && saved.value.0 == saved.value.1 == start)
    && (saved.Some? ==> j.options.global)
  }

  /** The text that is put out from here on, and how it ends: with the number of replacements, or with an error, which
      may have an offset in the replacement. */
  datatype Run = Run(text: Text, rc: int, at: Option<nat>)

  function Before(t: Text, r: Run): Run { r.(text := t + r.text) }

  function Unless(skip: bool, t: Text): Text { if skip then [] else t }

  /** How far the start moves when nothing was found: past one character, or past CRLF. */
  function StepOver(j: Job, start: nat): nat
    requires start < |j.s|
  {
    if j.crlf && j.s[start] == 13 && start + 1 < |j.s| && j.s[start + 1] == 10 then 2 else 1
  }

  /** The loop over the matches from a start offset on. It ends whatever the matcher does, as long as the matcher
      honours its options: each turn moves the start, or leaves the first try at an offset for the second one. */
  ghost function Loop(j: Job, start: nat, magic: bool, saved: Saved, subs: nat): Run
    requires Honours(j) && Phase(j, start, magic, saved)
    decreases |j.s| - start, !magic
  {
    var o := j.m(start, magic);
    match o
    case Failed(rc) => Run([], rc, None)
    case NoMatch =>
      if !magic || start >= |j.s| then Run(Unless(j.options.replacementOnly, j.s[start..]), subs, None)
      else
        var next := start + StepOver(j, start);
        Before(Unless(j.options.replacementOnly, j.s[start..next]), Loop(j, next, false, saved, subs))
    case Matched(ov) =>
      var (b, e) := ov[0].value;
      if e < b || b < start then Run([], ERROR_BADSUBSPATTERN, None)
      else if saved.Some? && saved.value.0 == b && saved.value.1 == e then
        if b == e && saved.value.2 != start then Loop(j, start, true, Some((b, e, start)), subs)
        else Run([], ERROR_INTERNAL_DUPMATCH, None)
      else if subs == INT_MAX then Run([], ERROR_TOOMANYREPLACE, None)
      else
        var x := Replacement(j, ov);
        var t := Unless(j.options.replacementOnly, j.s[start..b]) + x.text;
        if x.error.Some? then Run(t, x.error.value.0, Some(x.error.value.1))
        else if !j.options.global then Run(t + Unless(j.options.replacementOnly, j.s[e..]), subs + 1, None)
        else Before(t, Loop(j, e, b == e == start, Some((b, e, start)), subs + 1))
  }

  /** The whole output: what comes before the start offset, and what the loop puts out. */
  ghost function Whole(j: Job, start: nat): Run
    requires Honours(j) && start <= |j.s|
  {
    Before(Unless(j.options.replacementOnly, j.s[..start]), Loop(j, start, false, None, 0))
  }

  // --- replacing every match by itself -------------------------------------------------------------

  /** $0 */
  function DollarZero(): Text { [DOLLAR, 48] }

  lemma DollarZeroIs(j: Job, ov: seq<Pair>)
    requires j.repl == DollarZero() && !j.options.literal && |ov| > 0 && ov[0].Some?
    ensures Replacement(j, ov) == Expansion(Between(j.s, ov[0].value), None)
  {
    var name := ReadGroup(j, 1, false);
    assert name == Number(0, 2);
    assert GroupText(j, ov, name, false, 2) == Piece(Between(j.s, ov[0].value), 2);
    assert ReadPiece(j, ov, 0) == Piece(Between(j.s, ov[0].value), 2);
    assert Expand(j, ov, 2) == Expansion([], None);
    assert Between(j.s, ov[0].value) + [] == Between(j.s, ov[0].value);
  }

  lemma Parts(s: Text, a: nat, b: nat, e: nat)
    requires a <= b <= e <= |s|
    ensures s[a..b] + s[b..e] + s[e..] == s[a..]
  {
  }

  /** One replacement by the match itself, and the rest of the run. */
  lemma IdentityStep(j: Job, start: nat, magic: bool, saved: Saved, subs: nat, b: nat, e: nat, rest: Run)
    requires Honours(j) && Phase(j, start, magic, saved) && j.repl == DollarZero() && !j.options.literal
             && !j.options.replacementOnly
    requires j.m(start, magic).Matched? && j.m(start, magic).ovector[0] == Some((b, e)) && start <= b <= e
             && subs != INT_MAX
    requires !(saved.Some? && saved.value.0 == b && saved.value.1 == e)
    requires j.options.global ==> rest == Loop(j, e, b == e == start, Some((b, e, start)), subs + 1)
                                  && (rest.rc >= 0 ==> rest.text == j.s[e..])
    ensures var r := Loop(j, start, magic, saved, subs); r.rc >= 0 ==> r.text == j.s[start..]
  {
    DollarZeroIs(j, j.m(start, magic).ovector);
    assert Between(j.s, (b, e)) == j.s[b..e];
    Parts(j.s, start, b, e);
  }

  /** Replacing every match by $0 gives the subject back. */
  lemma {:induction false} LoopIdentity(j: Job, start: nat, magic: bool, saved: Saved, subs: nat)
    requires Honours(j) && Phase(j, start, magic, saved) && j.repl == DollarZero() && !j.options.literal
             && !j.options.replacementOnly
    ensures var r := Loop(j, start, magic, saved, subs); r.rc >= 0 ==> r.text == j.s[start..]
    decreases |j.s| - start, !magic
  {
    var o := j.m(start, magic);
    if o.NoMatch? && magic && start < |j.s| {
      var next := start + StepOver(j, start);
      LoopIdentity(j, next, false, saved, subs);
      assert j.s[start..next] + j.s[next..] == j.s[start..];
    } else if o.Matched? {
      var (b, e) := o.ovector[0].value;
      if start <= b <= e {
        if saved.Some? && saved.value.0 == b && saved.value.1 == e {
          if b == e && saved.value.2 != start { LoopIdentity(j, start, true, Some((b, e, start)), subs); }
        } else if subs != INT_MAX {
          var rest := Run([], -1, None);
          if j.options.global {
            LoopIdentity(j, e, b == e == start, Some((b, e, start)), subs + 1);
            rest := Loop(j, e, b == e == start, Some((b, e, start)), subs + 1);
          }
          IdentityStep(j, start, magic, saved, subs, b, e, rest);
        }
      }
    }
  }

  lemma SelfReplacement(j: Job, start: nat)
    requires Honours(j) && start <= |j.s| && j.repl == DollarZero() && !j.options.literal && !j.options.replacementOnly
    ensures Whole(j, start).rc >= 0 ==> Whole(j, start).text == j.s
  {
    LoopIdentity(j, start, false, None, 0);
    assert j.s[..start] + j.s[start..] == j.s;
  }

  // --- the buffer ---------------------------------------------------------------------------------------

  /** The output: what has been put out, and what has got into the buffer or was counted only. */
  class Output {
    const buffer: array<int>
    const overflowLength: bool
    var buffOffset: int
    var lengthLeft: int
    var extraNeeded: int
    var overflowed: bool
    ghost var out: Text

    ghost predicate Valid()
      reads this, buffer
    {
      if overflowed then overflowLength && extraNeeded > 0 && |out| == buffer.Length + extraNeeded
      else buffOffset == |out| <= buffer.Length && lengthLeft == buffer.Length - |out| && buffer[..|out|] == out
    }

    constructor (buffer: array<int>, overflowLength: bool)
      ensures Valid() && out == [] && this.buffer == buffer && this.overflowLength == overflowLength
    {
      this.buffer, this.overflowLength := buffer, overflowLength;
      buffOffset, lengthLeft, extraNeeded, overflowed, out := 0, buffer.Length, 0, false, [];
    }

    /** Room is checked before anything is copied. Without room that is an error, or only the length is counted from
        then on. */
    method Put(from: Text) returns (ok: bool)
      requires Valid()
      modifies this, buffer
      ensures ok ==> Valid() && out == old(out) + from
      ensures !ok <==> !overflowLength && |old(out)| + |from| > buffer.Length
    {
      if !overflowed && lengthLeft < |from| {
        if !overflowLength { return false; }
        overflowed := true;
        extraNeeded := |from| - lengthLeft;
      } else if overflowed {
        extraNeeded := extraNeeded + |from|;
      } else {
        forall i | 0 <= i < |from| { buffer[buffOffset + i] := from[i]; }
        buffOffset := buffOffset + |from|;
        lengthLeft := lengthLeft - |from|;
      }
      out := out + from;
      ok := true;
    }

    /** One character at a time. */
    method PutEach(from: Text) returns (ok: bool)
      requires Valid()
      modifies this, buffer
      ensures ok ==> Valid() && out == old(out) + from
      ensures !ok ==> !overflowLength && |old(out)| + |from| > buffer.Length
    {
      var i := 0;
      while i < |from|
        invariant 0 <= i <= |from| && Valid() && out == old(out) + from[..i]
      {
        ok := Put([from[i]]);
        if !ok { return; }
        assert from[..i + 1] == from[..i] + [from[i]];
        i := i + 1;
      }
      assert from[..|from|] == from;
      ok := true;
    }
  }

  // --- reading the replacement ---------------------------------------------------------------------------

  method ParseNumber(j: Job, p0: nat, d: int) returns (r: Name)
    ensures r == ReadNumber(j, p0, d)
  {
    var p, group := p0, d;
    while p < |j.repl|
      invariant p0 <= p && ReadNumber(j, p, group) == ReadNumber(j, p0, d)
      decreases |j.repl| - p
    {
      var next := j.repl[p];
      if !Digit(next) { return Number(group, p); }
      var n := group * 10 + (next - 48);
      if n > j.top {
        if !j.options.unknownUnset { return Wrong(ERROR_NOSUBSTRING, p); }
        var q := p + 1;
        while q < |j.repl| && Digit(j.repl[q])
          invariant q > p && DigitsEnd(j.repl, q) == DigitsEnd(j.repl, p + 1)
          decreases |j.repl| - q
        {
          q := q + 1;
        }
        return Number(n, q);
      }
      p, group := p + 1, n;
    }
    r := Number(group, p);
  }

  method ParseName(repl: Text, p0: nat) returns (r: Name)
    ensures r == ReadName(repl, p0, [])
  {
    var p, name := p0, [];
    while p < |repl| && Word(repl[p])
      invariant p0 <= p && ReadName(repl, p, name) == ReadName(repl, p0, [])
      decreases |repl| - p
    {
      if |name| == MAX_NAME { return Wrong(ERROR_BADREPLACEMENT, p); }
      name := name + [repl[p]];
      p := p + 1;
    }
    r := if name == [] then Wrong(ERROR_BADREPLACEMENT, p) else Called(name, p);
  }

  method ParseDollar(j: Job, ov: seq<Pair>, p: nat) returns (r: Piece)
    requires p < |j.repl|
    ensures r == ReadDollar(j, ov, p)
  {
    var ptr, inparens, star := p + 1, false, false;
    if ptr >= |j.repl| { return Bad(ERROR_BADREPLACEMENT, ptr); }
    if j.repl[ptr] == DOLLAR { return Piece([DOLLAR], ptr + 1); }
    if j.repl[ptr] == OPEN {
      ptr, inparens := ptr + 1, true;
      if ptr >= |j.repl| { return Bad(ERROR_BADREPLACEMENT, ptr); }
    }
    if j.repl[ptr] == STAR {
      ptr, star := ptr + 1, true;
      if ptr >= |j.repl| { return Bad(ERROR_BADREPLACEMENT, ptr); }
    }
    var name;
    if !star && Digit(j.repl[ptr]) {
      name := ParseNumber(j, ptr + 1, j.repl[ptr] - 48);
    } else {
      name := ParseName(j.repl, ptr);
    }
    if name.Wrong? { return Bad(name.rc, name.at); }
    ptr := name.next;
    if inparens {
      if ptr >= |j.repl| || j.repl[ptr] != CLOSE { return Bad(ERROR_REPMISSINGBRACE, ptr); }
      ptr := ptr + 1;
    }
    r := GroupText(j, ov, name, star, ptr);
  }

  /** Puts out the replacement for one match. `ok` is false when there is no room. */
  method PutReplacement(j: Job, ov: seq<Pair>, output: Output) returns (ok: bool, error: Option<(int, nat)>)
    requires output.Valid()
    modifies output, output.buffer
    ensures ok ==> output.Valid() && output.out == old(output.out) + Replacement(j, ov).text
                   && error == Replacement(j, ov).error
    ensures !ok ==> !output.overflowLength && |old(output.out)| + |Replacement(j, ov).text| > output.buffer.Length
  {
    error := None;
    if j.options.literal {
      ok := output.Put(j.repl);
      return;
    }
    var ptr: nat := 0;
    ghost var done: Text, before := [], output.out;
    while ptr < |j.repl|
      invariant output.Valid() && output.out == before + done
      invariant Expand(j, ov, 0) == Expansion(done + Expand(j, ov, ptr).text, Expand(j, ov, ptr).error)
      decreases |j.repl| - ptr
    {
      var piece := Piece([j.repl[ptr]], ptr + 1);
      if j.repl[ptr] == DOLLAR { piece := ParseDollar(j, ov, ptr); }
      assert piece == ReadPiece(j, ov, ptr);
      if piece.Bad? {
        assert done + [] == done;
        return true, Some((piece.rc, piece.at));
      }
      ExpandStep(j, ov, ptr, done);
      ok := output.PutEach(piece.text);
      if !ok { return; }
      done := done + piece.text;
      ptr := piece.next;
    }
    assert done + [] == done;
    ok := true;
  }

  lemma ExpandStep(j: Job, ov: seq<Pair>, p: nat, done: Text)
    requires p < |j.repl| && ReadPiece(j, ov, p).Piece?
    ensures var piece := ReadPiece(j, ov, p); var rest := Expand(j, ov, piece.next);
            && done + Expand(j, ov, p).text == (done + piece.text) + rest.text && Expand(j, ov, p).error == rest.error
            && |done + piece.text| <= |done + Expand(j, ov, p).text|
  {
  }

  // --- the loop -----------------------------------------------------------------------------------------

  /** What has been put out, and what the loop will put out from here on, is the whole. */
  ghost predicate Going(j: Job, total: Run, out: Text, start: nat, magic: bool, saved: Saved, subs: nat)
    requires Honours(j)
  {
    forall k: int {:trigger Look(k)} :: Look(k) ==>
      Phase(j, start, magic, saved) && total == Before(out, Loop(j, start, magic, saved, subs))
  }

  /** After one turn: the loop goes on, is over, has met an error, or has no room. */
  datatype Turned =
    | Again(start: nat, magic: bool, saved: Saved, subs: nat)
    | Over(start: nat, subs: nat)
    | Error(rc: int, at: Option<nat>)
    | NoRoom

  ghost predicate TurnedWell(j: Job, total: Run, t: Turned, out: Text, start: nat, magic: bool)
    requires Honours(j) && start <= |j.s|
  {
    match t
    case Again(start', magic', saved', subs') =>
      && Going(j, total, out, start', magic', saved', subs')
      && start <= start' <= |j.s| && (start' == start ==> magic' && !magic)
    case Over(start', subs') => start' <= |j.s| && total ==
                                  Run(out + Unless(j.options.replacementOnly, j.s[start'..]), subs', None)
    case Error(rc, at) => rc < 0 && total == Run(out, rc, at)
    case NoRoom => true
  }

  lemma TurnNoMatch(j: Job, total: Run, out: Text, start: nat, magic: bool, saved: Saved, subs: nat)
    requires Honours(j) && Going(j, total, out, start, magic, saved, subs) && start <= |j.s|
             && j.m(start, magic).NoMatch?
    ensures !magic || start >= |j.s| ==> TurnedWell(j, total, Over(start, subs), out, start, magic)
    ensures magic && start < |j.s| ==>
              var next := start + StepOver(j, start); var t := Unless(j.options.replacementOnly, j.s[start..next]);
              && TurnedWell(j, total, Again(next, false, saved, subs), out + t, start, magic)
              && |out + t| <= |total.text|
  {
    assert Look(0);
    if magic && start < |j.s| {
      var next := start + StepOver(j, start);
      var t := Unless(j.options.replacementOnly, j.s[start..next]);
      var rest := Loop(j, next, false, saved, subs);
      assert out + (t + rest.text) == (out + t) + rest.text;
    }
  }

  /** A match: what has to be checked before it is replaced. */
  function Refused(start: nat, saved: Saved, subs: nat, b: nat, e: nat): Option<int> {
    if e < b || b < start then Some(ERROR_BADSUBSPATTERN)
    else if saved.Some? && saved.value.0 == b && saved.value.1 == e then
      (if b == e && saved.value.2 != start then None else Some(ERROR_INTERNAL_DUPMATCH))
    else if subs == INT_MAX then Some(ERROR_TOOMANYREPLACE)
    else None
  }

  lemma TurnRefused(j: Job, total: Run, out: Text, start: nat, magic: bool, saved: Saved, subs: nat, b: nat, e: nat)
    requires Honours(j) && Going(j, total, out, start, magic, saved, subs) && start <= |j.s|
             && j.m(start, magic).Matched?
    requires j.m(start, magic).ovector[0] == Some((b, e))
    ensures Refused(start, saved, subs, b, e).Some? ==>
              TurnedWell(j, total, Error(Refused(start, saved, subs, b, e).value, None), out, start, magic)
    ensures Refused(start, saved, subs, b, e).None? && saved.Some? && saved.value.0 == b && saved.value.1 == e ==>
              TurnedWell(j, total, Again(start, true, Some((b, e, start)), subs), out, start, magic)
  {
    assert Look(0);
    assert out + [] == out;
  }

  /** A match that is replaced: the turn ends in an error, is the only one, or another one follows. */
  function AfterReplacement(j: Job, start: nat, subs: nat, b: nat, e: nat, error: Option<(int, nat)>): Turned {
    if error.Some? then Error(error.value.0, Some(error.value.1))
    else if !j.options.global then Over(e, subs + 1)
    else Again(e, b == e == start, Some((b, e, start)), subs + 1)
  }

  /** What the loop puts out for a match that is replaced. */
  lemma LoopReplaced(j: Job, start: nat, magic: bool, saved: Saved, subs: nat, b: nat, e: nat, t: Text, x: Expansion)
    requires Honours(j) && Phase(j, start, magic, saved) && j.m(start, magic).Matched?
    requires j.m(start, magic).ovector[0] == Some((b, e)) && Refused(start, saved, subs, b, e).None?
    requires !(saved.Some? && saved.value.0 == b && saved.value.1 == e)
    requires x == Replacement(j, j.m(start, magic).ovector)
    requires t == Unless(j.options.replacementOnly, j.s[start..b]) + x.text
    ensures start <= b <= e <= |j.s|
    ensures Loop(j, start, magic, saved, subs) ==
              if x.error.Some? then Run(t, x.error.value.0, Some(x.error.value.1))
              else if !j.options.global then Run(t + Unless(j.options.replacementOnly, j.s[e..]), subs + 1, None)
              else Before(t, Loop(j, e, b == e == start, Some((b, e, start)), subs + 1))
  {
  }

  lemma TurnReplaced(j: Job, total: Run, out: Text, start: nat, magic: bool, saved: Saved, subs: nat, b: nat, e: nat)
    requires Honours(j) && Going(j, total, out, start, magic, saved, subs) && start <= |j.s|
             && j.m(start, magic).Matched?
    requires j.m(start, magic).ovector[0] == Some((b, e)) && Refused(start, saved, subs, b, e).None?
    requires !(saved.Some? && saved.value.0 == b && saved.value.1 == e)
    ensures start <= b <= e <= |j.s|
    ensures var x := Replacement(j, j.m(start, magic).ovector);
            var t := Unless(j.options.replacementOnly, j.s[start..b]);
            && |out + t| <= |out + t + x.text| <= |total.text|
            && TurnedWell(j, total, AfterReplacement(j, start, subs, b, e, x.error), out + t + x.text, start, magic)
  {
    assert Look(0);
    var x := Replacement(j, j.m(start, magic).ovector);
    var t := Unless(j.options.replacementOnly, j.s[start..b]);
    LoopReplaced(j, start, magic, saved, subs, b, e, t + x.text, x);
    assert out + (t + x.text) == out + t + x.text;
    if x.error.Some? {
      ErrorNegative(j, j.m(start, magic).ovector, 0);
    } else if !j.options.global {
      Joined(out, t + x.text, Unless(j.options.replacementOnly, j.s[e..]));
    } else {
      Joined(out, t + x.text, Loop(j, e, b == e == start, Some((b, e, start)), subs + 1).text);
    }
  }

  lemma Joined(a: Text, b: Text, c: Text)
    ensures a + (b + c) == (a + b) + c
  {
  }

  lemma {:induction false} ErrorNegative(j: Job, ov: seq<Pair>, p: nat)
    ensures Expand(j, ov, p).error.Some? ==> Expand(j, ov, p).error.value.0 < 0
    decreases |j.repl| - p
  {
    if p < |j.repl| {
      PieceNegative(j, ov, p);
      if ReadPiece(j, ov, p).Piece? { ErrorNegative(j, ov, ReadPiece(j, ov, p).next); }
    }
  }

  lemma PieceNegative(j: Job, ov: seq<Pair>, p: nat)
    requires p < |j.repl|
    ensures ReadPiece(j, ov, p).Bad? ==> ReadPiece(j, ov, p).rc < 0
  {
    if p + 1 < |j.repl| {
      NumberNegative(j);
      NameNegative(j.repl);
    }
  }

  lemma NumberNegative(j: Job)
    ensures forall p: nat, group: int {:trigger ReadNumber(j, p, group)} :: ReadNumber(j, p, group).Wrong? ==>
              ReadNumber(j, p, group).rc < 0
  {
    forall p: nat, group: int ensures ReadNumber(j, p, group).Wrong? ==> ReadNumber(j, p, group).rc < 0 {
      NumberWrong(j, p, group);
    }
  }

  lemma {:induction false} NumberWrong(j: Job, p: nat, group: int)
    ensures ReadNumber(j, p, group).Wrong? ==> ReadNumber(j, p, group).rc < 0
    decreases |j.repl| - p
  {
    if p < |j.repl| && Digit(j.repl[p]) && group * 10 + (j.repl[p] - 48) <= j.top {
      NumberWrong(j, p + 1, group * 10 + (j.repl[p] - 48));
    }
  }

  lemma NameNegative(repl: Text)
    ensures forall p: nat, name: Text {:trigger ReadName(repl, p, name)} :: ReadName(repl, p, name).Wrong? ==>
              ReadName(repl, p, name).rc < 0
  {
    forall p: nat, name: Text ensures ReadName(repl, p, name).Wrong? ==> ReadName(repl, p, name).rc < 0 {
      NameWrong(repl, p, name);
    }
  }

  lemma {:induction false} NameWrong(repl: Text, p: nat, name: Text)
    ensures ReadName(repl, p, name).Wrong? ==> ReadName(repl, p, name).rc < 0
    decreases |repl| - p
  {
    if p < |repl| && Word(repl[p]) && |name| != MAX_NAME { NameWrong(repl, p + 1, name + [repl[p]]); }
  }

  /** One turn of the loop. */
  method Turn(j: Job, ghost total: Run, output: Output, start: nat, magic: bool, saved: Saved, subs: nat)
      returns (t: Turned)
    requires Honours(j) && Going(j, total, output.out, start, magic, saved, subs) && start <= |j.s| && output.Valid()
    modifies output, output.buffer
    ensures !t.NoRoom? ==> output.Valid() && TurnedWell(j, total, t, output.out, start, magic)
    ensures t.NoRoom? ==> !output.overflowLength && |total.text| > output.buffer.Length
  {
    var only := j.options.replacementOnly;
    match j.m(start, magic)
    case Failed(rc) =>
      t := Error(rc, None);
      TurnFailed(j, total, output.out, start, magic, saved, subs);
    case NoMatch =>
      TurnNoMatch(j, total, output.out, start, magic, saved, subs);
      if !magic || start >= |j.s| { return Over(start, subs); }
      var next := start + StepOver(j, start);
      var ok := output.Put(Unless(only, j.s[start..next]));
      t := if ok then Again(next, false, saved, subs) else NoRoom;
    case Matched(ov) =>
      var (b, e) := ov[0].value;
      TurnRefused(j, total, output.out, start, magic, saved, subs, b, e);
      var refused := Refused(start, saved, subs, b, e);
      if refused.Some? { return Error(refused.value, None); }
      if saved.Some? && saved.value.0 == b && saved.value.1 == e {
        return Again(start, true, Some((b, e, start)), subs);
      }
      TurnReplaced(j, total, output.out, start, magic, saved, subs, b, e);
      t := Replace(j, total, output, start, ov, b, e, subs);
  }

  lemma TurnFailed(j: Job, total: Run, out: Text, start: nat, magic: bool, saved: Saved, subs: nat)
    requires Honours(j) && Going(j, total, out, start, magic, saved, subs) && start <= |j.s|
             && j.m(start, magic).Failed?
    ensures TurnedWell(j, total, Error(j.m(start, magic).rc, None), out, start, magic)
  {
    assert Look(0);
    assert out + [] == out;
  }

  /** Puts out what leads up to the match, and then the replacement. */
  method Replace(j: Job, ghost total: Run, output: Output, start: nat, ov: seq<Pair>, b: nat, e: nat, subs: nat)
      returns (t: Turned)
    requires output.Valid() && start <= b <= e <= |j.s|
    requires var text := Unless(j.options.replacementOnly, j.s[start..b]);
             |output.out + text| <= |output.out + text + Replacement(j, ov).text| <= |total.text|
    modifies output, output.buffer
    ensures !t.NoRoom? ==> output.Valid() && t == AfterReplacement(j, start, subs, b, e, Replacement(j, ov).error)
    ensures !t.NoRoom? ==>
              output.out == old(output.out) + Unless(j.options.replacementOnly, j.s[start..b]) + Replacement(j, ov).text
    ensures t.NoRoom? ==> !output.overflowLength && |total.text| > output.buffer.Length
  {
    var ok := output.Put(Unless(j.options.replacementOnly, j.s[start..b]));
    if !ok { return NoRoom; }
    var error;
    ok, error := PutReplacement(j, ov, output);
    t := if ok then AfterReplacement(j, start, subs, b, e, error) else NoRoom;
  }

  /** pcre2_substitute: the number of replacements or an error, and the length that is reported, if any. */
  ghost predicate Answers(j: Job, r: Run, size: nat, rc: int, blength: Option<nat>) {
    var overflow := j.options.overflowLength;
    if r.rc < 0 then
      if |r.text| > size && !overflow then rc == ERROR_NOMEMORY && blength == None else rc == r.rc && blength == r.at
    else if |r.text| + 1 <= size then rc == r.rc && blength == Some(|r.text|)
    else rc == ERROR_NOMEMORY && blength == if overflow then Some(|r.text| + 1) else None
  }

  /** A length that is reported with an error is the smallest one that a second call needs. */
  lemma Enough(j: Job, r: Run, size: nat, rc: int, blength: Option<nat>, size': nat, rc': int, blength': Option<nat>)
    requires r.rc >= 0 && Answers(j, r, size, rc, blength) && rc < 0 && blength.Some?
    requires Answers(j, r, size', rc', blength')
    ensures rc' >= 0 <==> size' >= blength.value
    ensures rc' >= 0 ==> rc' == r.rc && blength' == Some(blength.value - 1)
    ensures blength.value > size
  {
  }

  /** The buffer holds the text and a zero. */
  ghost predicate Filled(buffer: array<int>, text: Text)
    reads buffer
  {
    |text| + 1 <= buffer.Length && buffer[..|text| + 1] == text + [0]
  }

  /** Copies the rest of the subject, puts a zero at the end, and reports. */
  method Finish(j: Job, ghost total: Run, output: Output, start: nat, subs: nat) returns (rc: int, blength: Option<nat>)
    requires output.Valid() && start <= |j.s| && output.overflowLength == j.options.overflowLength
    requires total == Run(output.out + Unless(j.options.replacementOnly, j.s[start..]), subs, None)
    modifies output, output.buffer
    ensures Answers(j, total, output.buffer.Length, rc, blength)
    ensures rc >= 0 ==> Filled(output.buffer, total.text)
  {
    var ok := output.Put(Unless(j.options.replacementOnly, j.s[start..]));
    if !ok { return ERROR_NOMEMORY, None; }
    ok := output.Put([0]);
    if !ok { return ERROR_NOMEMORY, None; }
    if output.overflowed { return ERROR_NOMEMORY, Some(output.buffer.Length + output.extraNeeded); }
    rc, blength := subs, Some(output.buffOffset - 1);
  }

  method Substitute(j: Job, startOffset: nat, buffer: array<int>) returns (rc: int, blength: Option<nat>)
    requires Honours(j)
    modifies buffer
    ensures startOffset > |j.s| ==> rc == ERROR_BADOFFSET && blength == None && buffer[..] == old(buffer[..])
    ensures startOffset <= |j.s| ==> Answers(j, Whole(j, startOffset), buffer.Length, rc, blength)
    ensures rc >= 0 ==> Filled(buffer, Whole(j, startOffset).text)
  {
    if startOffset > |j.s| { return ERROR_BADOFFSET, None; }
    ghost var total := Whole(j, startOffset);
    var output := new Output(buffer, j.options.overflowLength);
    var ok := output.Put(Unless(j.options.replacementOnly, j.s[..startOffset]));
    if !ok { return ERROR_NOMEMORY, None; }
    var start, magic, saved, subs: nat := startOffset, false, None, 0;
    while true
      invariant output.Valid() && output.buffer == buffer && fresh(output)
      invariant Going(j, total, output.out, start, magic, saved, subs) && start <= |j.s|
      invariant output.overflowLength == j.options.overflowLength
      decreases |j.s| - start, !magic
    {
      var t := Turn(j, total, output, start, magic, saved, subs);
      match t {
        case Again(s, m, v, n) => start, magic, saved, subs := s, m, v, n;
        case Over(s, n) =>
          rc, blength := Finish(j, total, output, s, n);
          return;
        case Error(code, at) => return code, at;
        case NoRoom => return ERROR_NOMEMORY, None;
      }
    }
  }

  /** Replaces with a buffer of some size, and again with a buffer of the length reported when that was too small. */
  method SubstituteAgain(j: Job, startOffset: nat, size: nat)
      returns (rc: int, buffer: array<int>, blength: Option<nat>)
    requires Honours(j) && startOffset <= |j.s| && j.options.overflowLength
    ensures fresh(buffer)
    ensures var r := Whole(j, startOffset);
            if r.rc < 0 then rc == r.rc && blength == r.at
            else rc == r.rc && blength == Some(|r.text|) && Filled(buffer, r.text)
    ensures rc >= 0 ==> buffer.Length == if size > |Whole(j, startOffset).text| then size
                        else |Whole(j, startOffset).text| + 1
  {
    buffer := new int[size];
    rc, blength := Substitute(j, startOffset, buffer);
    if rc == ERROR_NOMEMORY && blength.Some? {
      buffer := new int[blength.value];
      rc, blength := Substitute(j, startOffset, buffer);
    }
  }
}
