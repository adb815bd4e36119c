/** From the pattern as it is written to the matches that are reported: compiling and searching together. */
module Matching {
  import opened Opcodes
  import opened Regex
  import opened Language
  import opened Layout
  import opened Source
  import opened Unroll
  import opened Unrolling
  import opened SourceLanguage
  import opened CaseSwap
  import opened Anchor
  import opened EmitStudy
  import PrePass
  import opened DfaMatch
  import opened DfaSearch
  import opened StartFacts

  // --- nothing that the compiler emits is possessive -------------------------------------------

  lemma {:induction false} CopiesPlain(g: Node, n: nat, t: Branch)
    requires NoPossessive(g) && NoPossessiveBranch(t)
    ensures NoPossessiveBranch(Copies(g, n, t))
  {
    if n > 0 { CopiesPlain(g, n - 1, t); }
  }

  lemma {:induction false} NestPlain(g: Node, n: nat, lazy: bool)
    requires n > 0 && NoPossessive(g)
    ensures NoPossessive(Nest(g, n, lazy))
  {
    if n > 1 {
      NestPlain(g, n - 1, lazy);
      assert NoPossessiveBranch(Cons(Nest(g, n - 1, lazy), Nil));
      assert NoPossessiveBranch(Cons(g, Cons(Nest(g, n - 1, lazy), Nil)));
    }
  }

  lemma OnePlain(it: Item, q: Quant, t: Branch)
    requires OkItem(it) && OkQuant(q) && q.Times? && NoPossessiveBranch(t)
    ensures NoPossessiveBranch(if it.Set? then EmitClass(it, q.min, q.max, q.lazy, t)
                               else EmitSingle(it, q.min, q.max, q.lazy, t))
  {
    var out := if it.Set? then EmitClass(it, q.min, q.max, q.lazy, t) else EmitSingle(it, q.min, q.max, q.lazy, t);
    if out != t {
      assert NoPossessive(out.head);
      if out.tail != t { assert NoPossessive(out.tail.head) && out.tail.tail == t; }
    }
  }

  lemma {:induction false} ItemPlain(a: Atom, q: Quant, t: Branch)
    requires OkAtom(a) && OkQuant(q) && NoPossessiveBranch(t)
    ensures NoPossessiveBranch(EmitItem(a, q, t))
    decreases a
  {
    match a
    case Zero(_) =>
    case One(it) => if q.Times? { OnePlain(it, q, t); }
    case Paren(_, alts) =>
      AltsPlain(alts);
      var g := EmitParen(a);
      if q.Times? && !(q.min == 1 && q.max == 1) && q.max != 0 {
        if q.max < 0 {
          var loop := Looped(g, q.lazy, AltsConsume(alts));
          if q.min > 0 { CopiesPlain(g, q.min - 1, Cons(loop, t)); }
        } else {
          if q.max > q.min { NestPlain(g, q.max - q.min, q.lazy); }
          CopiesPlain(g, q.min, if q.max == q.min then t else Cons(Nest(g, q.max - q.min, q.lazy), t));
        }
      }
  }

  lemma {:induction false} BranchPlain(b: SrcBranch)
    requires OkSBranch(b)
    ensures NoPossessiveBranch(EmitBranch(b))
    decreases b
  {
    if b.SCons? {
      BranchPlain(b.rest);
      ItemPlain(b.atom, b.quant, EmitBranch(b.rest));
    }
  }

  lemma {:induction false} AltsPlain(a: SrcAlts)
    requires OkSAlts(a)
    ensures NoPossessiveAlts(EmitAlts(a))
    decreases a
  {
    BranchPlain(a.branch);
    if a.SOr? { AltsPlain(a.more); }
  }

  // --- what a search of the whole subject reports ----------------------------------------------

  /** Offset i starts a slice that the pattern matches. */
  ghost predicate Begins(a: SrcAlts, e: Env, i: nat)
    requires OkSAlts(a)
  {
    exists j: nat :: InSAlts(a, e, i, j)
  }

  lemma BeginsMeans(a: SrcAlts, e: Env, i: nat)
    requires OkSAlts(a) && i <= |e.s|
    ensures Begins(a, e, i) <==> SourceMatch(a, e, i).Some?
    ensures Begins(a, e, i) <==> !NoMatchAt(CodeOf(a), e, DEFAULT, i)
  {
    var p := CodeOf(a);
    AltsPlain(a);
    CodeMeansSource(a, e, i);
    MatchIsSlice(p, e, i);
    if Begins(a, e, i) {
      var j: nat :| InSAlts(a, e, i, j);
      SameLanguage(a, e, i, j);
    }
    if !NoMatchAt(p, e, DEFAULT, i) {
      var j: nat :| InNode(p, e, i, j) && Recordable(DEFAULT, e, i, j);
      SameLanguage(a, e, i, j);
    }
    if FirstMatch(p, e, i).Some? { SameLanguage(a, e, i, FirstMatch(p, e, i).value.pos); }
  }

  const DEFAULT := Options(false, false, false)

  lemma MovesToStart(p: Node, e: Env, k: nat)
    requires SafeNode(p) && e.som <= k <= |e.s| && !NoMatchAt(p, e, DEFAULT, k)
    ensures !NoMatchAt(p, e, DEFAULT, e.som)
  {
    var j: nat :| InNode(p, e, k, j) && Recordable(DEFAULT, e, k, j);
    if SoundNode(p) {
      SliceMoves(p, e, k, j);
      assert Recordable(DEFAULT, e, e.som, j);
    } else {
      EmptyNodeIn(p, e, e.som);
      assert Recordable(DEFAULT, e, e.som, e.som);
    }
  }

  /** An anchored program that finds nothing at the start of the search would find nothing later either. */
  lemma AnchoredNone(p: Node, e: Env)
    requires SafeNode(p) && e.som <= |e.s| && NoneMatches(p, e, DEFAULT, true, |e.s|)
    ensures NoneMatches(p, e, DEFAULT, false, |e.s|)
  {
    assert Candidate(e, true, |e.s|, e.som);
    forall k: nat | Candidate(e, false, |e.s|, k) ensures NoMatchAt(p, e, DEFAULT, k) {
      if !NoMatchAt(p, e, DEFAULT, k) { MovesToStart(p, e, k); }
    }
  }

  /** No offset from the start of the search on begins a match. */
  ghost predicate NothingFound(a: SrcAlts, e: Env)
    requires OkSAlts(a)
  {
    forall i: nat :: e.som <= i <= |e.s| ==> SourceMatch(a, e, i).None?
  }

  /** The offset is the leftmost one where ordered matching succeeds, and the ends are those of all the matches
      there. */
  ghost predicate Found(a: SrcAlts, e: Env, start: nat, ends: seq<nat>)
    requires OkSAlts(a)
  {
    && e.som <= start <= |e.s| && SourceMatch(a, e, start).Some?
    && (forall i: nat :: e.som <= i < start ==> SourceMatch(a, e, i).None?)
    && Descending(ends) && forall j: nat :: j in ends <==> InSAlts(a, e, start, j)
  }

  lemma NoneFound(a: SrcAlts, e: Env)
    requires OkSAlts(a) && NoneMatches(CodeOf(a), e, DEFAULT, false, |e.s|)
    ensures NothingFound(a, e)
  {
    forall i: nat | e.som <= i <= |e.s| ensures SourceMatch(a, e, i).None? {
      assert Candidate(e, false, |e.s|, i);
      BeginsMeans(a, e, i);
    }
  }

  lemma LeftmostFound(a: SrcAlts, e: Env, anchored: bool, start: nat, ends: seq<nat>)
    requires OkSAlts(a) && Leftmost(CodeOf(a), e, DEFAULT, anchored, |e.s|, start)
             && Reported(CodeOf(a), e, DEFAULT, start, ends)
    ensures Found(a, e, start, ends)
  {
    BeginsMeans(a, e, start);
    forall i: nat | e.som <= i < start ensures SourceMatch(a, e, i).None? {
      assert Candidate(e, anchored, |e.s|, i);
      BeginsMeans(a, e, i);
    }
    forall j: nat ensures j in ends <==> InSAlts(a, e, start, j) { SameLanguage(a, e, start, j); }
  }

  lemma NotAtStart(a: SrcAlts, e: Env, anchored: bool)
    requires OkSAlts(a) && e.som <= |e.s| && NoneMatches(CodeOf(a), e, DEFAULT, anchored, |e.s|)
    ensures SourceMatch(a, e, e.som).None?
  {
    assert Candidate(e, anchored, |e.s|, e.som);
    BeginsMeans(a, e, e.som);
  }

  /** Compiles a pattern and searches a subject for it. `known` says that it was not taken to be anchored because of
      what a skipped bracket holds. */
  method MatchPattern(a: SrcAlts, e: Env, startline: bool, dup: bool, offsets: array<nat>, wscount: nat,
                      ghost named: nat -> SrcAlts)
      returns (p: Option<Program>, known: bool, rc: int, ghost start: nat, ghost ends: seq<nat>)
    requires OkSAlts(a) && (dup || Numbered(a, named)) && e.som <= |e.s| && PlainNewline(e.nl)
    modifies offsets
    ensures p.None? ==> 1 + PrePass.BRACKETS + PrePass.PreAlts(a) > PrePass.MAX_PATTERN_SIZE
    ensures p.Some? ==> known == (p.value.anchored ==> SafeNode(CodeOf(a)))
    ensures p.Some? && rc == ERROR_NOMATCH ==> SourceMatch(a, e, e.som).None? && (known ==> NothingFound(a, e))
    ensures p.Some? ==>
              && (rc >= 0 ==> Found(a, e, start, ends) && IsStored(offsets[..], offsets.Length / 2, rc, start, ends))
              && (rc < 0 && rc != ERROR_NOMATCH ==> wscount < 20 || (wscount - 2) / 6 < Enough(CodeOf(a), e))
  {
    ghost var pat;
    rc, start, ends := ERROR_NOMATCH, 0, [];
    p, pat := Compile(a, false, true, startline, dup, named);
    if p.None? { return p, false, rc, start, ends; }
    var prog := p.value;
    known := prog.anchored ==> SafeNode(CodeOf(a));
    AltsPlain(a);
    rc, start, ends := Search(prog.code, e, prog.facts, prog.anchored, |e.s|, DEFAULT, offsets, wscount, pat);
    if rc == ERROR_NOMATCH {
      NotAtStart(a, e, prog.anchored);
      if known {
        if prog.anchored { AnchoredNone(pat, e); }
        NoneFound(a, e);
      }
    } else if rc >= 0 {
      LeftmostFound(a, e, prog.anchored, start, ends);
    }
  }
}
