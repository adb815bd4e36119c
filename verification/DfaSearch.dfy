/** The search for a place where the pattern matches, with the shortcuts that facts about the pattern
    allow. */
module DfaSearch {
  import opened Opcodes
  import opened Regex
  import opened Language
  import opened Layout
  import opened DfaGraph
  import opened DfaTrace
  import opened DfaMatch

  const ERROR_BADOFFSET := -33
  const REQ_CU_MAX := 5000

  /** What is recorded in a compiled pattern to speed up the search. */
  datatype StartFacts = StartFacts(first: Option<CodeUnit>, bits: Option<Bitmap>, req: Option<CodeUnit>, minlength: nat)

  predicate FirstOk(f: StartFacts, s: seq<Unit>, i: nat) {
    && (f.first.Some? ==> i < |s| && IsUnit(f.first.value, s[i]))
    && (f.first.None? && f.bits.Some? ==> i < |s| && Bit(f.bits.value, s[i]))
  }

  ghost predicate ReqFrom(u: CodeUnit, s: seq<Unit>, p: nat) { exists k :: p <= k < |s| && IsUnit(u, s[k]) }

  /** The facts are right about a slice from i to j. */
  ghost predicate FactsAt(f: StartFacts, s: seq<Unit>, i: nat, j: nat) {
    && FirstOk(f, s, i)
    && (f.req.Some? ==> ReqFrom(f.req.value, s, if f.first.Some? then i + 1 else i))
    && i + f.minlength <= j
  }

  /** The facts are right about every match of the pattern in this subject. */
  ghost predicate FactsHold(f: StartFacts, pat: Node, e: Env) {
    forall i: nat, j: nat {:trigger InNode(pat, e, i, j)} :: i <= |e.s| && InNode(pat, e, i, j) ==>
        FactsAt(f, e.s, i, j)
  }

  /** Nothing that may be reported starts at offset i. */
  ghost predicate NoMatchAt(pat: Node, e: Env, opt: Options, i: nat) {
    forall j: nat :: !(InNode(pat, e, i, j) && Recordable(opt, e, i, j))
  }

  ghost predicate NoMatchIn(pat: Node, e: Env, opt: Options, lo: int, hi: int) {
    forall i: nat {:trigger NoMatchAt(pat, e, opt, i)} :: lo <= i < hi && i <= |e.s| ==> NoMatchAt(pat, e, opt, i)
  }

  /** The first occurrence of c from offset `from` on. */
  method Memchr(s: seq<Unit>, c: int, from: nat) returns (p: Option<nat>)
    requires from <= |s|
    ensures p.None? ==> forall i :: from <= i < |s| ==> s[i] != c
    ensures p.Some? ==> from <= p.value < |s| && s[p.value] == c && forall i :: from <= i < p.value ==> s[i] != c
  {
    var i := from;
    while i < |s|
      invariant from <= i <= |s| && forall k :: from <= k < i ==> s[k] != c
    {
      if s[i] == c { return Some(i); }
      i := i + 1;
    }
    return None;
  }

  /** A remembered occurrence of c: the next one from offset `from` on, or the end of the subject. */
  ghost predicate CacheOk(found: Option<nat>, s: seq<Unit>, c: int, from: nat) {
    found.Some? ==>
      && found.value <= |s|
      && (found.value < |s| ==> s[found.value] == c)
      && forall i :: from <= i < found.value && i < |s| ==> s[i] != c
  }

  /** The next occurrence of one case of the first code unit: searched for only when the remembered one
      has been passed. */
  method NextFound(s: seq<Unit>, c: int, start: nat, found: Option<nat>) returns (pp: Option<nat>, found': Option<nat>)
    requires start <= |s| && CacheOk(found, s, c, start)
    ensures CacheOk(found', s, c, start)
    ensures pp.None? ==> forall i :: start <= i < |s| ==> s[i] != c
    ensures pp.Some? ==> start <= pp.value < |s| && s[pp.value] == c && forall i :: start <= i < pp.value ==> s[i] != c
  {
    if found.None? || start > found.value {
      pp := Memchr(s, c, start);
      found' := Some(if pp.None? then |s| else pp.value);
    } else {
      pp := if found.value == |s| then None else found;
      found' := found;
    }
  }

  /** Moves the start to the next place where a match could begin. */
  method SkipToFirst(s: seq<Unit>, f: StartFacts, start: nat, found1: Option<nat>, found2: Option<nat>)
      returns (start': nat, found1': Option<nat>, found2': Option<nat>)
    requires start <= |s|
    requires f.first.Some? ==> CacheOk(found1, s, f.first.value.c, start)
                               && CacheOk(found2, s, Flip(f.first.value.c), start)
    ensures start <= start' <= |s|
    ensures forall i :: start <= i < start' ==> !FirstOk(f, s, i)
    ensures f.first.Some? ==> CacheOk(found1', s, f.first.value.c, start')
                              && CacheOk(found2', s, Flip(f.first.value.c), start')
  {
    start', found1', found2' := start, found1, found2;
    if f.first.Some? {
      var u := f.first.value;
      var other := if u.caseless then Flip(u.c) else u.c;
      if u.c != other {
        var pp1, pp2;
        pp1, found1' := NextFound(s, u.c, start, found1);
        pp2, found2' := NextFound(s, other, start, found2);
        if pp1.None? {
          start' := if pp2.None? then |s| else pp2.value;
        } else {
          start' := if pp2.None? || pp1.value < pp2.value then pp1.value else pp2.value;
        }
      } else {
        var p := Memchr(s, u.c, start);
        start' := if p.None? then |s| else p.value;
      }
    } else if f.bits.Some? {
      while start' < |s|
        invariant start <= start' <= |s| && forall i :: start <= i < start' ==> !FirstOk(f, s, i)
      {
        if Bit(f.bits.value, s[start']) { break; }
        start' := start' + 1;
      }
    }
  }

  /** Looks for the required code unit from p on, in either case. */
  method FindReq(s: seq<Unit>, u: CodeUnit, p: nat) returns (q: nat)
    requires p <= |s|
    ensures p <= q <= |s|
    ensures q < |s| <==> ReqFrom(u, s, p)
  {
    var found := Memchr(s, u.c, p);
    var other := if u.caseless then Flip(u.c) else u.c;
    if found.None? && u.c != other { found := Memchr(s, other, p); }
    q := if found.None? then |s| else found.value;
  }

  lemma NoFirst(f: StartFacts, pat: Node, e: Env, opt: Options, lo: nat, hi: nat)
    requires FactsHold(f, pat, e) && forall i :: lo <= i < hi && i <= |e.s| ==> !FirstOk(f, e.s, i)
    ensures NoMatchIn(pat, e, opt, lo, hi)
  {
    forall i: nat | lo <= i < hi && i <= |e.s| ensures NoMatchAt(pat, e, opt, i) {
      forall j: nat ensures !InNode(pat, e, i, j) { }
    }
  }

  lemma TooShort(f: StartFacts, pat: Node, e: Env, opt: Options, start: nat)
    requires FactsHold(f, pat, e) && |e.s| - start < f.minlength
    ensures NoMatchIn(pat, e, opt, start, |e.s| + 1)
  {
    forall i: nat | start <= i <= |e.s| ensures NoMatchAt(pat, e, opt, i) {
      forall j: nat ensures !InNode(pat, e, i, j) { if InNode(pat, e, i, j) { NodeSpan(pat, e, i, j); } }
    }
  }

  lemma NoReq(f: StartFacts, pat: Node, e: Env, opt: Options, start: nat)
    requires FactsHold(f, pat, e) && f.req.Some? && !ReqFrom(f.req.value, e.s, if f.first.Some? then start + 1
                                                             else start)
    ensures NoMatchIn(pat, e, opt, start, |e.s| + 1)
  {
    forall i: nat | start <= i <= |e.s| ensures NoMatchAt(pat, e, opt, i) {
      forall j: nat ensures !InNode(pat, e, i, j) { }
    }
  }

  /** The checks made at the start of each attempt. `found1` and `found2` remember where the two cases of the
      first code unit come next, and reqPtr where the required one was found. When `go` is false
      there is no match from `start` on. */
  method StartChecks(e: Env, f: StartFacts, anchored: bool, start: nat, found1: Option<nat>, found2: Option<nat>,
                     reqPtr: int,
                     ghost pat: Node, ghost opt: Options)
      returns (go: bool, start': nat, found1': Option<nat>, found2': Option<nat>, reqPtr': int)
    requires start <= |e.s| && FactsHold(f, pat, e)
    requires f.first.Some? ==> CacheOk(found1, e.s, f.first.value.c, start)
                               && CacheOk(found2, e.s, Flip(f.first.value.c), start)
    ensures start <= start' <= |e.s| && (anchored ==> start' == start)
    ensures NoMatchIn(pat, e, opt, start, start')
    ensures !go && !anchored ==> NoMatchIn(pat, e, opt, start, |e.s| + 1)
    ensures !go && anchored ==> NoMatchAt(pat, e, opt, start)
    ensures f.first.Some? ==> CacheOk(found1', e.s, f.first.value.c, start')
                              && CacheOk(found2', e.s, Flip(f.first.value.c), start')
  {
    start', found1', found2', reqPtr' := start, found1, found2, reqPtr;
    if anchored {
      if f.first.Some? || f.bits.Some? {
        var ok := start < |e.s|;
        if ok {
          ok := f.first.Some? && IsUnit(f.first.value, e.s[start]);
          if !ok && f.first.None? { ok := Bit(f.bits.value, e.s[start]); }
        }
        if !ok {
          NoFirst(f, pat, e, opt, start, start + 1);
          return false, start', found1', found2', reqPtr';
        }
      }
    } else {
      start', found1', found2' := SkipToFirst(e.s, f, start, found1, found2);
      NoFirst(f, pat, e, opt, start, start');
      if (f.first.Some? || f.bits.Some?) && start' >= |e.s| {
        NoFirst(f, pat, e, opt, start, |e.s| + 1);
        return false, start', found1', found2', reqPtr';
      }
    }
    if |e.s| - start' < f.minlength {
      TooShort(f, pat, e, opt, start');
      return false, start', found1', found2', reqPtr';
    }
    var p := start' + if f.first.Some? then 1 else 0;
    if f.req.Some? && p > reqPtr {
      var checkLength := |e.s| - start';
      if checkLength < REQ_CU_MAX || (!anchored && checkLength < REQ_CU_MAX * 1000) {
        var q := FindReq(e.s, f.req.value, p);
        if q >= |e.s| {
          NoReq(f, pat, e, opt, start');
          return false, start', found1', found2', reqPtr';
        }
        reqPtr' := q;
      }
    }
    go := true;
  }

  /** Start offset i may be tried. */
  predicate Candidate(e: Env, anchored: bool, limit: nat, i: nat) {
    e.som <= i <= |e.s| && i <= limit && (anchored ==> i == e.som)
  }

  /** The leftmost of the offsets that may be tried where something matches. */
  ghost predicate Leftmost(pat: Node, e: Env, opt: Options, anchored: bool, limit: nat, i: nat) {
    && Candidate(e, anchored, limit, i) && !NoMatchAt(pat, e, opt, i)
    && forall k: nat {:trigger NoMatchAt(pat, e, opt, k)} :: Candidate(e, anchored, limit, k) && k < i ==>
         NoMatchAt(pat, e, opt, k)
  }

  ghost predicate NoneMatches(pat: Node, e: Env, opt: Options, anchored: bool, limit: nat) {
    forall k: nat {:trigger NoMatchAt(pat, e, opt, k)} :: Candidate(e, anchored, limit, k) ==> NoMatchAt(pat, e, opt, k)
  }

  lemma ReportedNone(pat: Node, e: Env, opt: Options, start: nat, ends: seq<nat>)
    requires Reported(pat, e, opt, start, ends)
    ensures ends == [] <==> NoMatchAt(pat, e, opt, start)
  {
    if ends != [] { assert ends[0] in ends; }
  }

  /** Searches the subject from e.som on. Whatever the facts let it skip, it finds the leftmost match that
      trying every start in order would find. */
  method Search(code: seq<Cell>, e: Env, f: StartFacts, anchored: bool, limit: nat, opt: Options,
                  offsets: array<nat>, wscount: nat, ghost pat: Node)
      returns (rc: int, ghost start: nat, ghost ends: seq<nat>)
    requires Compiled(code, pat) && NoPossessive(pat) && FactsHold(f, pat, e)
    modifies offsets
    ensures rc == ERROR_BADOFFSET <==> wscount >= 20 && e.som > |e.s|
    ensures rc == ERROR_DFA_WSSIZE ==> wscount < 20 || (wscount - 2) / 6 < Enough(pat, e)
    ensures rc == ERROR_NOMATCH ==> NoneMatches(pat, e, opt, anchored, limit)
    ensures rc >= 0 ==>
              && Leftmost(pat, e, opt, anchored, limit, start) && ends != []
              && Reported(pat, e, opt, start, ends)
              && IsStored(offsets[..], offsets.Length / 2, rc, start, ends)
    ensures rc >= ERROR_NOMATCH || rc == ERROR_BADOFFSET || rc == ERROR_DFA_WSSIZE
  {
    ends, start := [], 0;
    if wscount < 20 { return ERROR_DFA_WSSIZE, start, ends; }
    if e.som > |e.s| { return ERROR_BADOFFSET, start, ends; }
    var startMatch := e.som;
    var found1, found2, reqPtr := None, None, startMatch - 1;
    while true
      invariant e.som <= startMatch <= |e.s| && (anchored ==> startMatch == e.som)
      invariant NoMatchIn(pat, e, opt, e.som, startMatch)
      invariant f.first.Some? ==>
        CacheOk(found1, e.s, f.first.value.c, startMatch) && CacheOk(found2, e.s, Flip(f.first.value.c), startMatch)
      decreases |e.s| - startMatch
    {
      var go;
      go, startMatch, found1, found2, reqPtr := StartChecks(e, f, anchored, startMatch, found1, found2, reqPtr, pat,
                                                            opt);
      if !go { break; }
      if startMatch > limit { break; }
      rc, ends := InternalDfaMatch(code, e, startMatch, offsets, offsets.Length, wscount, opt, pat);
      if rc != ERROR_DFA_WSSIZE { ReportedNone(pat, e, opt, startMatch, ends); }
      if rc != ERROR_NOMATCH || anchored {
        start := startMatch;
        return;
      }
      startMatch := startMatch + 1;
      if startMatch > |e.s| { break; }
    }
    rc := ERROR_NOMATCH;
  }
}
