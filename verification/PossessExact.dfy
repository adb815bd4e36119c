/** The path analysis misses nothing for the items it looks into: the verdict on the next item is exactly that no
    character is matched by both. */
module PossessExact {
  import opened Opcodes
  import opened Regex
  import opened Layout
  import opened PossessRule

  ghost predicate Disjoint(x: Item, y: Item, nl: Unit) {
    forall c: Unit {:trigger Matches(x, nl, c)} {:trigger Matches(y, nl, c)} ::
        !(Matches(x, nl, c) && Matches(y, nl, c))
  }

  /** \D, \d, \S, \s, \W and \w. */
  predicate SimpleType(it: Item) { it.Type? && it.op <= OP_WORDCHAR }

  /** Pairs that the analysis looks into: it does not for `.`, nor for a negated character unless the other one is a
      character. */
  predicate Compared(x: Item, y: Item) {
    || (IsList(x) && !(y.Type? && !SimpleType(y)))
    || (IsList(y) && !(x.Type? && !SimpleType(x)))
    || ((x.Set? || SimpleType(x)) && (y.Set? || SimpleType(y)))
  }

  lemma TableExact(l: int, r: int, nl: Unit)
    requires OP_NOT_DIGIT <= l <= OP_WORDCHAR && OP_NOT_DIGIT <= r <= OP_WORDCHAR
    ensures InTable(l, r) <==> Disjoint(Type(l), Type(r), nl)
  {
    assert IsDigit(48) && IsWord(48) && !IsSpace(48);
    assert !IsDigit(97) && IsWord(97) && !IsSpace(97);
    assert !IsDigit(32) && !IsWord(32) && IsSpace(32);
    assert !IsDigit(33) && !IsWord(33) && !IsSpace(33);
    if InTable(l, r) {
      forall c: Unit ensures !(Matches(Type(l), nl, c) && Matches(Type(r), nl, c)) {
        if MatchesType(l, nl, c) { TableSound(l, r, nl, c); }
      }
    } else {
      var c: Unit := TableWitness(l, r, nl);
      assert Matches(Type(l), nl, c);
    }
  }

  lemma TableWitness(l: int, r: int, nl: Unit) returns (c: Unit)
    requires OP_NOT_DIGIT <= l <= OP_WORDCHAR && OP_NOT_DIGIT <= r <= OP_WORDCHAR && !InTable(l, r)
    ensures MatchesType(l, nl, c) && MatchesType(r, nl, c)
  {
    if MatchesType(l, nl, 48) && MatchesType(r, nl, 48) { c := 48; }
    else if MatchesType(l, nl, 97) && MatchesType(r, nl, 97) { c := 97; }
    else if MatchesType(l, nl, 32) && MatchesType(r, nl, 32) { c := 32; }
    else { c := 33; }
  }

  lemma NoNewline(it: Item, nl: Unit, c: Unit)
    requires OkItem(it) && !(it.Type? && !SimpleType(it))
    ensures Matches(it, nl, c) == Matches(it, 0, c)
  {
  }

  lemma ListExact(l: Item, y: Item, nl: Unit)
    requires OkItem(l) && OkItem(y) && IsList(l) && !(y.Type? && !SimpleType(y))
    ensures ListApart(l, y) <==> Disjoint(l, y, nl)
  {
    NoNewline(y, nl, l.c);
    NoNewline(y, nl, Flip(l.c));
    assert Matches(l, nl, l.c) && (l.op == OP_CHARI ==> Matches(l, nl, Flip(l.c)));
    forall c: Unit | Matches(l, nl, c) ensures c == l.c || (l.op == OP_CHARI && c == Flip(l.c)) { }
  }

  /** The decision about two items that are compared is right in both directions. */
  lemma ApartExact(x: Item, y: Item, nl: Unit)
    requires OkItem(x) && OkItem(y) && Compared(x, y)
    ensures Apart(x, y) <==> Disjoint(x, y, nl)
  {
    if IsList(x) {
      ListExact(x, y, nl);
    } else if IsList(y) {
      ListExact(y, x, nl);
      assert Disjoint(y, x, nl) <==> Disjoint(x, y, nl);
    } else if x.Set? || y.Set? {
      forall c: Unit ensures Matches(x, nl, c) == Matches(x, 0, c) && Matches(y, nl, c) == Matches(y, 0, c) {
        NoNewline(x, nl, c);
        NoNewline(y, nl, c);
      }
    } else {
      TableExact(x.op, y.op, nl);
    }
  }

  /** A repeat may become possessive before an item that has to match exactly when the two have no character in common;
      before one that need not match, it takes that and a good verdict on what follows. */
  lemma NextItemDecides(b: Base, n: Node, t: Branch, c: Ctx, nl: Unit)
    requires n.Single? || n.Repeat?
    requires OkItem(b.item) && OkNode(n) && Compared(b.item, n.item)
    ensures Follow(b, Cons(n, t), c) != Fail <==>
              && Disjoint(b.item, n.item, nl)
              && (n.Repeat? && Lo(n.rep) == 0 ==> Follow(b, t, c) != Fail)
  {
    ApartExact(b.item, n.item, nl);
  }

  /** At the end of the pattern, and before the end of groups that are not repeated, a greedy repeat may. */
  lemma EndDecides(b: Base, c: Ctx)
    ensures Follow(b, Nil, Top) != Fail <==> b.greedy
    ensures c.In? && c.group.Group? && c.group.ket == OP_KET && b.greedy ==>
              Follow(b, Nil, c) == Follow(b, c.rest, c.up)
  {
  }
}
