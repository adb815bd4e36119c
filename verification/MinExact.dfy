/** The minimum length of a match is attained: it is the best bound there is. */
module MinExact {
  import opened Opcodes
  import opened Regex
  import opened Language
  import opened StudyMin

  /** Some unit is matched by the item. Only an empty class matches none. */
  ghost predicate MatchesSome(it: Item, nl: Unit) { exists c: Unit :: Matches(it, nl, c) }

  lemma OnlyClassesAreEmpty(it: Item, nl: Unit)
    requires OkItem(it)
    ensures MatchesSome(it, nl) <==> (it.Set? ==> exists c: Unit :: Bit(it.bits, c))
  {
    match it
    case Lit(op, d) =>
      assert Matches(it, nl, if op == OP_CHAR || op == OP_CHARI then d else if d != 33 then 33 else 34);
    case Type(op) =>
      assert IsDigit(48) && IsWord(48) && IsSpace(32) && !IsDigit(32) && !IsSpace(48) && !IsWord(32);
      assert Matches(it, nl, if op == OP_DIGIT || op == OP_NOT_WHITESPACE || op == OP_WORDCHAR then 48
                             else if op == OP_ANY && nl == 32 then 33 else 32);
    case Set(_, bits) => assert forall c: Unit :: Matches(it, nl, c) == Bit(bits, c);
  }

  /** The items that a shortest match has to consume match something, and nothing of zero width is among them. */
  ghost predicate Attainable(n: Node, nl: Unit) {
    match n
    case Single(it) => MatchesSome(it, nl)
    case Repeat(it, r) => Lo(r) > 0 ==> MatchesSome(it, nl)
    case Assert(_) => false
    case Optional(_, _) => true
    case Group(_, _, alts, _) => AttainableAlts(alts, nl)
  }

  /** The first of the shortest alternatives. */
  ghost predicate AttainableAlts(a: Alts, nl: Unit) {
    if a.Or? && ShortestAlts(a.more) < ShortestBranch(a.branch) then AttainableAlts(a.more, nl)
    else AttainableBranch(a.branch, nl)
  }

  ghost predicate AttainableBranch(b: Branch, nl: Unit) {
    b.Cons? ==> Attainable(b.head, nl) && AttainableBranch(b.tail, nl)
  }

  /** The slices of e from offset i on spell w. */
  predicate Spells(e: Env, i: nat, w: seq<Unit>) { i + |w| <= |e.s| && e.s[i..i + |w|] == w }

  lemma SpellsParts(e: Env, i: nat, v: seq<Unit>, w: seq<Unit>)
    requires Spells(e, i, v + w)
    ensures Spells(e, i, v) && Spells(e, i + |v|, w)
  {
    var all := e.s[i..i + |v + w|];
    assert all[..|v|] == v && all[|v|..] == w;
    assert e.s[i..i + |v|] == all[..|v|] && e.s[i + |v|..i + |v| + |w|] == all[|v|..];
  }

  ghost function UnitOf(it: Item, nl: Unit): (c: Unit)
    requires MatchesSome(it, nl)
    ensures Matches(it, nl, c)
  {
    var c: Unit :| Matches(it, nl, c);
    c
  }

  /** A shortest word of the node. */
  ghost function Word(n: Node, nl: Unit): (w: seq<Unit>)
    requires Attainable(n, nl)
    ensures |w| == Shortest(n)
  {
    match n
    case Single(it) => [UnitOf(it, nl)]
    case Repeat(it, r) => if Lo(r) == 0 then [] else seq(Lo(r), _ => UnitOf(it, nl))
    case Optional(_, _) => []
    case Group(_, _, alts, _) => WordAlts(alts, nl)
  }

  ghost function WordAlts(a: Alts, nl: Unit): (w: seq<Unit>)
    requires AttainableAlts(a, nl)
    ensures |w| == ShortestAlts(a)
  {
    if a.Or? && ShortestAlts(a.more) < ShortestBranch(a.branch) then WordAlts(a.more, nl) else WordBranch(a.branch, nl)
  }

  ghost function WordBranch(b: Branch, nl: Unit): (w: seq<Unit>)
    requires AttainableBranch(b, nl)
    ensures |w| == ShortestBranch(b)
  {
    if b.Nil? then [] else Word(b.head, nl) + WordBranch(b.tail, nl)
  }

  lemma ItemsSpelled(it: Item, w: seq<Unit>, e: Env, i: nat)
    requires Spells(e, i, w) && forall k :: 0 <= k < |w| ==> Matches(it, e.nl, w[k])
    ensures AllMatch(it, e, i, i + |w|)
  {
    forall x: nat | i <= x < i + |w| ensures MatchesAt(it, e, x) { assert e.s[x] == e.s[i..i + |w|][x - i]; }
  }

  /** Wherever the word is spelled the node matches it. */
  lemma {:induction false} WordMatches(n: Node, e: Env, i: nat)
    requires OkNode(n) && Attainable(n, e.nl) && Spells(e, i, Word(n, e.nl))
    ensures InNode(n, e, i, i + Shortest(n))
    decreases n
  {
    var w := Word(n, e.nl);
    match n
    case Single(it) => ItemsSpelled(it, w, e, i);
    case Repeat(it, r) => ItemsSpelled(it, w, e, i);
    case Optional(_, _) =>
    case Group(_, _, alts, _) => WordAltsMatches(alts, e, i);
  }

  lemma {:induction false} WordAltsMatches(a: Alts, e: Env, i: nat)
    requires OkAlts(a) && AttainableAlts(a, e.nl) && Spells(e, i, WordAlts(a, e.nl))
    ensures InAlts(a, e, i, i + ShortestAlts(a))
    decreases a
  {
    if a.Or? && ShortestAlts(a.more) < ShortestBranch(a.branch) {
      WordAltsMatches(a.more, e, i);
    } else {
      WordBranchMatches(a.branch, e, i);
    }
  }

  lemma {:induction false} WordBranchMatches(b: Branch, e: Env, i: nat)
    requires OkBranch(b) && AttainableBranch(b, e.nl) && Spells(e, i, WordBranch(b, e.nl))
    ensures InBranch(b, e, i, i + ShortestBranch(b))
    decreases b
  {
    if b.Cons? {
      var v, w := Word(b.head, e.nl), WordBranch(b.tail, e.nl);
      SpellsParts(e, i, v, w);
      WordMatches(b.head, e, i);
      WordBranchMatches(b.tail, e, i + |v|);
      assert i <= i + |v| <= |e.s| && InNode(b.head, e, i, i + |v|);
    }
  }

  /** The shortest length is attained: after any text and before any text there is a match of just that length. */
  lemma ShortestAttained(n: Node, nl: Unit, before: seq<Unit>, after: seq<Unit>, som: nat) returns (w: seq<Unit>)
    requires OkNode(n) && Attainable(n, nl)
    ensures |w| == Shortest(n)
    ensures InNode(n, Env(before + w + after, nl, som), |before|, |before| + Shortest(n))
  {
    w := Word(n, nl);
    var e := Env(before + w + after, nl, som);
    assert e.s[|before|..|before| + |w|] == w;
    WordMatches(n, e, |before|);
  }

  /** So no larger number bounds the lengths of all matches, and no smaller one is the best bound. */
  lemma ShortestIsBest(n: Node, nl: Unit, k: nat)
    requires OkNode(n) && Attainable(n, nl)
    ensures k <= Shortest(n) <==>
              forall e: Env, i: nat, j: nat :: e.nl == nl && i <= |e.s| && InNode(n, e, i, j) ==> i + k <= j
  {
    var w := ShortestAttained(n, nl, [], [], 0);
    forall e: Env, i: nat, j: nat | e.nl == nl && i <= |e.s| && InNode(n, e, i, j) ensures i + Shortest(n) <= j {
      ShortestSound(n, e, i, j);
    }
    assert InNode(n, Env([] + w + [], nl, 0), 0, Shortest(n));
  }
}
