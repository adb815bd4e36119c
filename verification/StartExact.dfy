/** The start set that the scan finds is exactly the set of the units that matches start with. */
module StartExact {
  import opened Opcodes
  import opened Regex
  import opened Language
  import opened StudyMin
  import opened StudyStart
  import opened MinExact

  // --- every match starts with a unit of the set ------------------------------------------------------

  lemma UnitMatches(it: Item, nl: Unit, d: Unit)
    requires OkItem(it) && !ItemStart(it, false).Fail?
    ensures Matches(it, nl, d) <==> Matches(it, 0, d)
  {
  }

  lemma {:induction false} NodeBegins(n: Node, e: Env, i: nat, j: nat)
    requires OkNode(n) && !StartOf(n).Fail? && i <= |e.s| && InNode(n, e, i, j)
    ensures i < j ==> i < |e.s| && Starts(n, e.s[i])
    ensures StartOf(n).Done? ==> i < j
    decreases n, |e.s| - i
  {
    NodeSpan(n, e, i, j);
    match n
    case Single(it) => UnitMatches(it, e.nl, e.s[i]);
    case Repeat(it, r) =>
      if i < j {
        assert MatchesAt(it, e, i);
        UnitMatches(it, e.nl, e.s[i]);
      }
    case Assert(_) =>
    case Optional(_, g) => if i < j { NodeBegins(g, e, i, j); }
    case Group(_, _, alts, _) =>
      if InAlts(alts, e, i, j) {
        AltsBegin(alts, e, i, j);
      } else {
        var m: nat :| i < m <= |e.s| && InAlts(alts, e, i, m) && InNode(n, e, m, j);
        AltsBegin(alts, e, i, m);
        NodeSpan(n, e, m, j);
      }
  }

  lemma {:induction false} AltsBegin(a: Alts, e: Env, i: nat, j: nat)
    requires OkAlts(a) && !StartOfAlts(a).Fail? && i <= |e.s| && InAlts(a, e, i, j)
    ensures i < j ==> i < |e.s| && StartsAlts(a, e.s[i])
    ensures StartOfAlts(a).Done? ==> i < j
    decreases a
  {
    if InBranch(a.branch, e, i, j) { BranchBegins(a.branch, e, i, j); } else { AltsBegin(a.more, e, i, j); }
  }

  lemma {:induction false} BranchBegins(b: Branch, e: Env, i: nat, j: nat)
    requires OkBranch(b) && !StartOfBranch(b).Fail? && i <= |e.s| && InBranch(b, e, i, j)
    ensures i < j ==> i < |e.s| && StartsBranch(b, e.s[i])
    ensures StartOfBranch(b).Done? ==> i < j
    decreases b
  {
    if b.Cons? {
      var m := HeadSlice(b, e, i, j);
      NodeBegins(b.head, e, i, m);
      BranchSpan(b.tail, e, m, j);
      if StartOf(b.head).Continue? && i == m { BranchBegins(b.tail, e, i, j); }
    }
  }

  // --- every unit of the set starts a match -------------------------------------------------------------

  /** Every item matches something, and there is nothing of zero width. */
  ghost predicate Full(n: Node, nl: Unit) {
    match n
    case Single(it) => MatchesSome(it, nl)
    case Repeat(it, _) => MatchesSome(it, nl)
    case Assert(_) => false
    case Optional(_, g) => Full(g, nl)
    case Group(_, _, alts, _) => FullAlts(alts, nl)
  }

  ghost predicate FullAlts(a: Alts, nl: Unit) { FullBranch(a.branch, nl) && (a.Or? ==> FullAlts(a.more, nl)) }

  ghost predicate FullBranch(b: Branch, nl: Unit) { b.Cons? ==> Full(b.head, nl) && FullBranch(b.tail, nl) }

  lemma {:induction false} FullAttainable(n: Node, nl: Unit)
    requires Full(n, nl)
    ensures Attainable(n, nl)
    decreases n
  {
    if n.Group? { FullAltsAttainable(n.alts, nl); }
  }

  lemma {:induction false} FullAltsAttainable(a: Alts, nl: Unit)
    requires FullAlts(a, nl)
    ensures AttainableAlts(a, nl)
    decreases a
  {
    FullBranchAttainable(a.branch, nl);
    if a.Or? { FullAltsAttainable(a.more, nl); }
  }

  lemma {:induction false} FullBranchAttainable(b: Branch, nl: Unit)
    requires FullBranch(b, nl)
    ensures AttainableBranch(b, nl)
    decreases b
  {
    if b.Cons? {
      FullAttainable(b.head, nl);
      FullBranchAttainable(b.tail, nl);
    }
  }

  /** Where what follows matters, nothing can be matched. */
  lemma {:induction false} MayBeNothing(n: Node, nl: Unit, e: Env, i: nat)
    requires OkNode(n) && Full(n, nl) && StartOf(n).Continue? && i <= |e.s|
    ensures InNode(n, e, i, i)
    decreases n
  {
    if n.Group? { AltsMayBeNothing(n.alts, nl, e, i); }
  }

  lemma {:induction false} AltsMayBeNothing(a: Alts, nl: Unit, e: Env, i: nat)
    requires OkAlts(a) && FullAlts(a, nl) && StartOfAlts(a).Continue? && i <= |e.s|
    ensures InAlts(a, e, i, i)
    decreases a
  {
    if StartOfBranch(a.branch).Continue? {
      BranchMayBeNothing(a.branch, nl, e, i);
    } else {
      AltsMayBeNothing(a.more, nl, e, i);
    }
  }

  lemma {:induction false} BranchMayBeNothing(b: Branch, nl: Unit, e: Env, i: nat)
    requires OkBranch(b) && FullBranch(b, nl) && StartOfBranch(b).Continue? && i <= |e.s|
    ensures InBranch(b, e, i, i)
    decreases b
  {
    if b.Cons? {
      MayBeNothing(b.head, nl, e, i);
      BranchMayBeNothing(b.tail, nl, e, i);
    }
  }

  /** Wherever the word is spelled it is matched. */
  ghost predicate Gives(n: Node, nl: Unit, w: seq<Unit>) {
    forall e: Env, i: nat :: e.nl == nl && Spells(e, i, w) ==> InNode(n, e, i, i + |w|)
  }

  ghost predicate GivesAlts(a: Alts, nl: Unit, w: seq<Unit>) {
    forall e: Env, i: nat :: e.nl == nl && Spells(e, i, w) ==> InAlts(a, e, i, i + |w|)
  }

  ghost predicate GivesBranch(b: Branch, nl: Unit, w: seq<Unit>) {
    forall e: Env, i: nat :: e.nl == nl && Spells(e, i, w) ==> InBranch(b, e, i, i + |w|)
  }

  lemma ItemGives(n: Node, nl: Unit, d: Unit) returns (w: seq<Unit>)
    requires OkNode(n) && (n.Single? || n.Repeat?) && Matches(n.item, nl, d)
    ensures |w| > 0 && w[0] == d && Gives(n, nl, w)
  {
    w := seq(if n.Repeat? && Lo(n.rep) > 1 then Lo(n.rep) else 1, _ => d);
    forall e: Env, i: nat | e.nl == nl && Spells(e, i, w) ensures InNode(n, e, i, i + |w|) {
      ItemsSpelled(n.item, w, e, i);
      assert MatchesAt(n.item, e, i);
    }
  }

  lemma {:induction false} StartGives(n: Node, nl: Unit, d: Unit) returns (w: seq<Unit>)
    requires OkNode(n) && Full(n, nl) && !StartOf(n).Fail? && Starts(n, d)
    ensures |w| > 0 && w[0] == d && Gives(n, nl, w)
    decreases n
  {
    match n
    case Single(it) =>
      UnitMatches(it, nl, d);
      w := ItemGives(n, nl, d);
    case Repeat(it, _) =>
      UnitMatches(it, nl, d);
      w := ItemGives(n, nl, d);
    case Optional(_, g) => w := StartGives(g, nl, d);
    case Group(_, _, alts, _) =>
      w := AltsStartGives(alts, nl, d);
      forall e: Env, i: nat | e.nl == nl && Spells(e, i, w) ensures InNode(n, e, i, i + |w|) {
        assert InAlts(alts, e, i, i + |w|);
      }
  }

  lemma {:induction false} AltsStartGives(a: Alts, nl: Unit, d: Unit) returns (w: seq<Unit>)
    requires OkAlts(a) && FullAlts(a, nl) && !StartOfAlts(a).Fail? && StartsAlts(a, d)
    ensures |w| > 0 && w[0] == d && GivesAlts(a, nl, w)
    decreases a
  {
    if StartsBranch(a.branch, d) {
      w := BranchStartGives(a.branch, nl, d);
    } else {
      w := AltsStartGives(a.more, nl, d);
    }
  }

  lemma {:induction false} BranchStartGives(b: Branch, nl: Unit, d: Unit) returns (w: seq<Unit>)
    requires OkBranch(b) && FullBranch(b, nl) && !StartOfBranch(b).Fail? && StartsBranch(b, d)
    ensures |w| > 0 && w[0] == d && GivesBranch(b, nl, w)
    decreases b
  {
    if Starts(b.head, d) {
      var v := StartGives(b.head, nl, d);
      w := HeadGives(b, nl, v);
    } else {
      w := BranchStartGives(b.tail, nl, d);
      forall e: Env, i: nat | e.nl == nl && Spells(e, i, w) ensures InBranch(b, e, i, i + |w|) {
        MayBeNothing(b.head, nl, e, i);
        assert i <= i <= |e.s| && InNode(b.head, e, i, i) && InBranch(b.tail, e, i, i + |w|);
      }
    }
  }

  /** A word of the head, and a shortest word of the rest. */
  lemma HeadGives(b: Branch, nl: Unit, v: seq<Unit>) returns (w: seq<Unit>)
    requires b.Cons? && OkBranch(b) && FullBranch(b, nl) && |v| > 0 && Gives(b.head, nl, v)
    ensures |w| > 0 && w[0] == v[0] && GivesBranch(b, nl, w)
  {
    FullBranchAttainable(b.tail, nl);
    var u := WordBranch(b.tail, nl);
    w := v + u;
    forall e: Env, i: nat | e.nl == nl && Spells(e, i, w) ensures InBranch(b, e, i, i + |w|) {
      SpellsParts(e, i, v, u);
      WordBranchMatches(b.tail, e, i + |v|);
      assert i <= i + |v| <= |e.s| && InNode(b.head, e, i, i + |v|) && InBranch(b.tail, e, i + |v|, i + |w|);
    }
  }

  /** A match of n starts with d. */
  ghost predicate Begins(n: Node, nl: Unit, d: Unit) {
    exists e: Env, i: nat, j: nat :: e.nl == nl && i < j && i < |e.s| && e.s[i] == d && InNode(n, e, i, j)
  }

  /** A unit is in the start set exactly when some match that is not empty starts with it. */
  lemma StartSetExact(n: Node, nl: Unit, d: Unit)
    requires OkNode(n) && Full(n, nl) && !StartOf(n).Fail?
    ensures Starts(n, d) <==> Begins(n, nl, d)
  {
    if Starts(n, d) {
      var w := StartGives(n, nl, d);
      var e := Env(w, nl, 0);
      assert Spells(e, 0, w) && e.s[0] == d;
    }
    if Begins(n, nl, d) {
      var e: Env, i: nat, j: nat :| e.nl == nl && i < j && i < |e.s| && e.s[i] == d && InNode(n, e, i, j);
      NodeBegins(n, e, i, j);
    }
  }
}
