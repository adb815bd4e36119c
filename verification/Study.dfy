/** Studying a compiled pattern: the facts that the search relies on. */
module Study {
  import opened Opcodes
  import opened Bits
  import opened Regex
  import opened Language
  import opened Layout
  import opened StudyMin
  import opened StudyStart

  // --- one unit, or the two cases of a letter, instead of a map -----------------------------

  /** The map holds the unit u, in either case if it is caseless, and nothing else. */
  ghost predicate Stands(m: Bitmap, u: CodeUnit) { forall d: Unit :: Bit(m, d) <==> IsUnit(u, d) }

  /** The unit may be used as the first one: it is not the unit that is required later. */
  predicate MayReplace(u: CodeUnit, last: Option<CodeUnit>) {
    last.None? || (last.value.c != u.c && (u.caseless ==> last.value.c != Flip(u.c)))
  }

  function Lowest(x: Unit): nat {
    if BitOf(x, 0) then 0 else if BitOf(x, 1) then 1 else if BitOf(x, 2) then 2 else if BitOf(x, 3) then 3
    else if BitOf(x, 4) then 4 else if BitOf(x, 5) then 5 else if BitOf(x, 6) then 6 else 7
  }

  /** The least significant bit of a byte is all of it, or there is another bit. */
  lemma LowestBit(x: Unit)
    requires x != 0
    ensures BitOf(x, Lowest(x))
    ensures x == Pow2(Lowest(x)) <==> forall k :: 0 <= k < 8 && BitOf(x, k) ==> k == Lowest(x)
  {
    SumOfBits(x);
    SomeBit(x);
  }

  /** The bits of the first n bytes are a and b, where these are not negative. */
  ghost predicate Only(m: Bitmap, n: nat, a: int, b: int) {
    && (forall d: Unit :: d < 8 * n ==> (Bit(m, d) <==> d == a || d == b))
    && a < 8 * n && b < 8 * n && (b >= 0 ==> 0 <= a < b && Flip(b) == a)
  }

  lemma NoneIn(m: Bitmap, n: nat, a: int, b: int)
    requires n < CLASS_SIZE && Only(m, n, a, b) && m[n] == 0
    ensures Only(m, n + 1, a, b)
  {
    forall d: Unit | d / 8 == n ensures !Bit(m, d) { ZeroByte(d % 8); }
  }

  lemma ZeroByte(k: int)
    ensures !BitOf(0, k)
  {
  }

  lemma OneIn(m: Bitmap, n: nat, a: int, b: int)
    requires n < CLASS_SIZE && Only(m, n, a, b) && m[n] != 0 && m[n] == Pow2(Lowest(m[n]))
    ensures var c := 8 * n + Lowest(m[n]);
            && Bit(m, c) && (a < 0 ==> Only(m, n + 1, c, -1))
               && (a >= 0 && b < 0 && Flip(c) == a ==> Only(m, n + 1, a, c))
  {
    var c := 8 * n + Lowest(m[n]);
    LowestBit(m[n]);
    forall d: Unit | d / 8 == n ensures Bit(m, d) <==> d == c {
      assert d % 8 < 8;
    }
  }

  /** The map is not that of one unit. */
  ghost predicate Wide(m: Bitmap) { forall u: CodeUnit :: !Stands(m, u) }

  /** More than two units, or two that are not the cases of one letter. */
  lemma TooMany(m: Bitmap, c: Unit, d: Unit)
    requires Bit(m, c) && Bit(m, d) && c != d && Flip(c) != d
    ensures Wide(m)
  {
  }

  /** Two bits of one byte. */
  lemma TwoBits(m: Bitmap, i: nat, k: nat, l: nat)
    requires i < CLASS_SIZE && k < 8 && l < 8 && k != l && BitOf(m[i], k) && BitOf(m[i], l)
    ensures Wide(m)
  {
    var c, d := 8 * i + k, 8 * i + l;
    assert c / 8 == i && c % 8 == k && d / 8 == i && d % 8 == l;
    TooMany(m, c, d);
  }

  lemma Three(m: Bitmap, a: Unit, b: Unit, c: Unit)
    requires Bit(m, a) && Bit(m, b) && Bit(m, c) && a != b && b != c && a != c
    ensures Wide(m)
  {
  }

  /** When the start bits stand for one unit, or for the two cases of a letter, they are replaced by a first code unit,
      unless it is the required one. */
  method FirstFromBits(m: Bitmap, last: Option<CodeUnit>) returns (first: Option<CodeUnit>)
    ensures first.Some? ==> Stands(m, first.value) && MayReplace(first.value, last)
    ensures first.None? ==> forall u: CodeUnit :: Stands(m, u) ==> !MayReplace(u, last)
  {
    var a, b, i := -1, -1, 0;
    while i < CLASS_SIZE
      invariant 0 <= i <= CLASS_SIZE && Only(m, i, a, b)
    {
      var more := true;
      if m[i] != 0 { more, a, b := NextByte(m, i, a, b); } else { NoneIn(m, i, a, b); }
      if !more { return None; }
      i := i + 1;
    }
    first := None;
    if a >= 0 && (last.None? || (last.value.c != a && (b < 0 || last.value.c != b))) {
      first := Some(CodeUnit(a, b >= 0));
    }
    Replaced(m, a, b, last, first);
  }

  /** One byte that is not zero: when `more` is false, the map holds too much. */
  method NextByte(m: Bitmap, i: nat, a: int, b: int) returns (more: bool, a': int, b': int)
    requires i < CLASS_SIZE && Only(m, i, a, b) && m[i] != 0
    ensures more ==> Only(m, i + 1, a', b')
    ensures !more ==> Wide(m)
  {
    a', b' := a, b;
    var x := m[i];
    LowestBit(x);
    if x != Pow2(Lowest(x)) {
      ghost var k :| 0 <= k < 8 && BitOf(x, k) && k != Lowest(x);
      TwoBits(m, i, k, Lowest(x));
      return false, a, b;
    }
    OneIn(m, i, a, b);
    var c := 8 * i + Lowest(x);
    if a < 0 {
      a' := c;
    } else if b < 0 {
      if Flip(c) != a {
        TooMany(m, c, a);
        return false, a, b;
      }
      b' := c;
    } else {
      Three(m, a, b, c);
      return false, a, b;
    }
    more := true;
  }

  lemma Replaced(m: Bitmap, a: int, b: int, last: Option<CodeUnit>, first: Option<CodeUnit>)
    requires Only(m, CLASS_SIZE, a, b)
    requires first ==
               if a >= 0 && (last.None? || (last.value.c != a && (b < 0 || last.value.c != b))) then
                 Some(CodeUnit(a, b >= 0))
               else None
    ensures first.Some? ==> Stands(m, first.value) && MayReplace(first.value, last)
    ensures first.None? ==> forall u: CodeUnit :: Stands(m, u) ==> !MayReplace(u, last)
  {
    if first.Some? {
      assert b >= 0 ==> Flip(a) == b;
    } else {
      forall u: CodeUnit | Stands(m, u) ensures !MayReplace(u, last) {
        assert IsUnit(u, u.c) && Bit(m, u.c);
        if b >= 0 { assert Bit(m, a) && Bit(m, b); }
      }
    }
  }
}
