/** Which items hold a match back at the start of the search, whatever follows them. */
module AnchorItems {
  import opened Opcodes
  import opened Regex
  import opened Language
  import opened Anchor
  import opened AnchorExact

  /** With this node at its start, no branch loses a match when only the start of the search is tried. */
  ghost predicate HoldsBack(n: Node) { forall t: Branch :: LosesNothing(Cons(n, t)) }

  /** A character and a newline tell that the item matches something, or that it does not match everything. */
  ghost predicate Takes(it: Item) { exists nl: Unit, c: Unit :: Matches(it, nl, c) }

  ghost predicate Refuses(it: Item) { exists nl: Unit, c: Unit :: !Matches(it, nl, c) }

  /** A run of any characters, without a limit: .* and .+ where dot matches newlines, and classes of all characters. */
  ghost predicate AnyRun(n: Node) { n.Repeat? && Hi(n.rep) < 0 && !Refuses(n.item) }

  /** The item has to match, and matches nothing. */
  ghost predicate Never(n: Node) { (n.Single? || (n.Repeat? && Lo(n.rep) > 0)) && !Takes(n.item) }

  lemma OneUnit(x: Unit, e: Env, i: nat, j: nat)
    ensures InBranch(Cons(Single(Lit(OP_CHAR, x)), Nil), e, i, j) <==> j == i + 1 && i < |e.s| && e.s[i] == x
  {
    var it := Lit(OP_CHAR, x);
    if j == i + 1 && i < |e.s| && e.s[i] == x {
      assert InNode(Single(it), e, i, j) && InBranch(Nil, e, j, j);
    }
  }

  lemma BeginsWith(n: Node, t: Branch, e: Env, i: nat, m: nat, j: nat)
    requires i <= m <= |e.s| && InNode(n, e, i, m) && InBranch(t, e, m, j)
    ensures BeginsAt(Cons(n, t), e, i)
  {
    assert InBranch(Cons(n, t), e, i, j);
  }

  /** A match at i, and none at the start of the search. */
  lemma NotBack(n: Node, t: Branch, e: Env, i: nat)
    requires e.som <= i <= |e.s| && BeginsAt(Cons(n, t), e, i) && !BeginsAt(Cons(n, t), e, e.som)
    ensures !HoldsBack(n)
  {
    assert !Moves(Cons(n, t), e, i);
    assert !LosesNothing(Cons(n, t));
  }

  // --- zero-width items -----------------------------------------------------------------------------

  lemma AssertAt(op: int, e: Env, i: nat)
    requires i <= |e.s|
    ensures BeginsAt(Cons(Assert(op), Nil), e, i) <==> Holds(op, e, i)
  {
    if Holds(op, e, i) {
      assert InNode(Assert(op), e, i, i) && InBranch(Nil, e, i, i);
      BeginsWith(Assert(op), Nil, e, i, i, i);
    }
    if BeginsAt(Cons(Assert(op), Nil), e, i) {
      var j: nat :| InBranch(Cons(Assert(op), Nil), e, i, j);
      var m := HeadSlice(Cons(Assert(op), Nil), e, i, j);
    }
  }

  lemma AssertNotBack(op: int)
    requires IsAssertion(op) && !SoundNode(Assert(op))
    ensures !HoldsBack(Assert(op))
  {
    var e, i := Env([32, 32], 10, 0), 2;
    if op == OP_WORD_BOUNDARY {
      e, i := Env([32, 97], 10, 0), 1;
    } else if op == OP_NOT_WORD_BOUNDARY {
      e, i := Env([97, 97], 10, 0), 1;
    } else if op == OP_CIRCM {
      e, i := Env([97, 10, 98], 10, 1), 2;
    }
    AssertAt(op, e, i);
    AssertAt(op, e, e.som);
    NotBack(Assert(op), Nil, e, i);
  }

  // --- items that consume ----------------------------------------------------------------------------

  /** For some newline the item takes a character and refuses another one. */
  lemma BothKinds(it: Item) returns (nl: Unit, c: Unit, d: Unit)
    requires OkItem(it) && Takes(it) && Refuses(it)
    ensures Matches(it, nl, c) && !Matches(it, nl, d)
  {
    if it == Type(OP_ANY) {
      nl, c, d := 10, 97, 10;
    } else {
      var n0: Unit, c0: Unit :| Matches(it, n0, c0);
      var n1: Unit, d0: Unit :| !Matches(it, n1, d0);
      nl, c, d := n0, c0, d0;
      assert Matches(it, n0, d0) == Matches(it, n1, d0);
    }
  }

  function Times(c: Unit, k: nat): (s: seq<Unit>)
    ensures |s| == k && forall i :: 0 <= i < k ==> s[i] == c
  {
    seq(k, _ => c)
  }

  /** An item that must match, and that refuses the character at the start. */
  lemma MustNotBack(n: Node)
    requires OkNode(n) && (n.Single? || (n.Repeat? && Lo(n.rep) > 0)) && Takes(n.item) && Refuses(n.item)
    ensures !HoldsBack(n)
  {
    var nl, c, d := BothKinds(n.item);
    var k := if n.Single? then 1 else Lo(n.rep);
    var e := Env([d] + Times(c, k), nl, 0);
    forall x: nat | 1 <= x < 1 + k ensures MatchesAt(n.item, e, x) { assert e.s[x] == c; }
    assert InNode(n, e, 1, 1 + k) by { assert MatchesAt(n.item, e, 1); }
    BeginsWith(n, Nil, e, 1, 1 + k, 1 + k);
    forall j: nat ensures !InBranch(Cons(n, Nil), e, 0, j) {
      if InBranch(Cons(n, Nil), e, 0, j) {
        var m := HeadSlice(Cons(n, Nil), e, 0, j);
        assert MatchesAt(n.item, e, 0);
      }
    }
    NotBack(n, Nil, e, 1);
  }

  /** A repeat that need not match, and that refuses some character. */
  lemma MayNotBack(n: Node)
    requires OkNode(n) && n.Repeat? && Lo(n.rep) == 0 && Refuses(n.item)
    ensures !HoldsBack(n)
  {
    var nl: Unit, d: Unit :| !Matches(n.item, nl, d);
    var x: Unit := if d == 97 then 98 else 97;
    var t := Cons(Single(Lit(OP_CHAR, x)), Nil);
    var e := Env([d, x], nl, 0);
    OneUnit(x, e, 1, 2);
    assert InNode(n, e, 1, 1);
    BeginsWith(n, t, e, 1, 1, 2);
    forall j: nat ensures !InBranch(Cons(n, t), e, 0, j) {
      if InBranch(Cons(n, t), e, 0, j) {
        var m := HeadSlice(Cons(n, t), e, 0, j);
        OneUnit(x, e, m, j);
        if m > 0 { assert MatchesAt(n.item, e, 0); }
      }
    }
    NotBack(n, t, e, 1);
  }

  /** An item that takes every character, but not without a limit. */
  lemma LimitedNotBack(n: Node, k: nat)
    requires OkNode(n) && !((n.Single? || n.Repeat?) && Refuses(n.item))
    requires if n.Single? then k == 1 else n.Repeat? && Hi(n.rep) == k
    ensures !HoldsBack(n)
  {
    var t := Cons(Single(Lit(OP_CHAR, 97)), Nil);
    var e := Env(Times(98, k + 1) + [97], 10, 0);
    forall x: nat | x < |e.s| ensures MatchesAt(n.item, e, x) { }
    OneUnit(97, e, k + 1, k + 2);
    assert InNode(n, e, 1, k + 1) by { assert MatchesAt(n.item, e, 1); }
    BeginsWith(n, t, e, 1, k + 1, k + 2);
    forall j: nat ensures !InBranch(Cons(n, t), e, 0, j) {
      if InBranch(Cons(n, t), e, 0, j) {
        var m := HeadSlice(Cons(n, t), e, 0, j);
        OneUnit(97, e, m, j);
      }
    }
    NotBack(n, t, e, 1);
  }

  /** A run of any characters starts anywhere before. */
  lemma AnyRunBack(n: Node)
    requires AnyRun(n)
    ensures HoldsBack(n)
  {
    forall t: Branch ensures LosesNothing(Cons(n, t)) {
      forall e: Env, i: nat ensures Moves(Cons(n, t), e, i) {
        if e.som <= i <= |e.s| && BeginsAt(Cons(n, t), e, i) {
          var j: nat :| InBranch(Cons(n, t), e, i, j);
          var m := HeadSlice(Cons(n, t), e, i, j);
          NodeSpan(n, e, i, m);
          forall x: nat | e.som <= x < m ensures MatchesAt(n.item, e, x) { }
          BeginsWith(n, t, e, e.som, m, j);
        }
      }
    }
  }

  lemma NeverBack(n: Node)
    requires Never(n)
    ensures HoldsBack(n)
  {
    forall t: Branch ensures LosesNothing(Cons(n, t)) {
      forall e: Env, i: nat ensures Moves(Cons(n, t), e, i) {
        if e.som <= i <= |e.s| && BeginsAt(Cons(n, t), e, i) {
          var j: nat :| InBranch(Cons(n, t), e, i, j);
          var m := HeadSlice(Cons(n, t), e, i, j);
          assert MatchesAt(n.item, e, i);
        }
      }
    }
  }

  lemma SoundBack(n: Node)
    requires !n.Optional? && SoundNode(n)
    ensures HoldsBack(n)
  {
    forall t: Branch ensures LosesNothing(Cons(n, t)) {
      assert SoundBranch(Cons(n, t));
      SoundLosesNothing(Cons(n, t));
    }
  }

  /** For every item: branches that start with it lose nothing, whatever follows, exactly when the analysis says so, or
      when it is a run of any characters that the analysis does not look for, or can never match. */
  lemma ItemHoldsBack(n: Node)
    requires OkNode(n) && !n.Group? && !n.Optional?
    ensures HoldsBack(n) <==> SoundNode(n) || AnyRun(n) || Never(n)
  {
    if SoundNode(n) {
      SoundBack(n);
    } else if AnyRun(n) {
      AnyRunBack(n);
    } else if Never(n) {
      NeverBack(n);
    } else if n.Assert? {
      AssertNotBack(n.op);
    } else if !Refuses(n.item) {
      LimitedNotBack(n, if n.Single? then 1 else Hi(n.rep));
    } else if n.Repeat? && Lo(n.rep) == 0 {
      MayNotBack(n);
    } else {
      MustNotBack(n);
    }
  }

  // --- groups ---------------------------------------------------------------------------------------------

  function Branches(a: Alts): seq<Branch> { [a.branch] + if a.Or? then Branches(a.more) else [] }

  /** A group is anchored exactly when all of its alternatives are. */
  lemma {:induction false} AllAlternatives(a: Alts)
    ensures SoundAlts(a) <==> forall b :: b in Branches(a) ==> SoundBranch(b)
    decreases a
  {
    assert a.branch in Branches(a);
    if a.Or? {
      AllAlternatives(a.more);
      assert forall b :: b in Branches(a) <==> b == a.branch || b in Branches(a.more);
    }
  }
}
