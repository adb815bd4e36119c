/** Byte-wise operations on the 32-byte character maps. */
module Bits {
  import opened Opcodes

  /** The bits of the byte, lowest first, put back together. */
  function Byte(b0: bool, b1: bool, b2: bool, b3: bool, b4: bool, b5: bool, b6: bool, b7: bool): Unit {
    (if b0 then 1 else 0) + (if b1 then 2 else 0) + (if b2 then 4 else 0) + (if b3 then 8 else 0)
    + (if b4 then 16 else 0) + (if b5 then 32 else 0) + (if b6 then 64 else 0) + (if b7 then 128 else 0)
  }

  function OfBits(p: int -> bool): Unit { Byte(p(0), p(1), p(2), p(3), p(4), p(5), p(6), p(7)) }

  lemma Halve(d: int, r: nat, b: nat)
    requires 0 <= d < 2 && b == d + 2 * r
    ensures b / 2 == r && b % 2 == d
  {
  }

  lemma Quotients(b: int)
    ensures b / 4 == b / 2 / 2 && b / 8 == b / 4 / 2 && b / 16 == b / 8 / 2 && b / 32 == b / 16 / 2
    ensures b / 64 == b / 32 / 2 && b / 128 == b / 64 / 2
  {
  }

  lemma Digits(d: seq<int>, b: nat)
    requires |d| == 8 && forall j :: 0 <= j < 8 ==> 0 <= d[j] < 2
    requires b == d[0] + 2 * d[1] + 4 * d[2] + 8 * d[3] + 16 * d[4] + 32 * d[5] + 64 * d[6] + 128 * d[7]
    ensures forall k :: 0 <= k < 8 ==> (b / Pow2(k)) % 2 == d[k]
  {
    var r6 := d[6] + 2 * d[7];
    var r5 := d[5] + 2 * r6;
    var r4 := d[4] + 2 * r5;
    var r3 := d[3] + 2 * r4;
    var r2 := d[2] + 2 * r3;
    var r1 := d[1] + 2 * r2;
    Halve(d[0], r1, b);
    Halve(d[1], r2, r1);
    Halve(d[2], r3, r2);
    Halve(d[3], r4, r3);
    Halve(d[4], r5, r4);
    Halve(d[5], r6, r5);
    Halve(d[6], d[7], r6);
    Quotients(b);
    assert b / 1 == b;
  }

  function Digit(x: Unit, k: int): int { if BitOf(x, k) then Pow2(k) else 0 }

  lemma DigitIs(x: Unit, k: int, r: nat, r': nat)
    requires 0 <= k < 8 && r == x / Pow2(k) && r' == r / 2
    ensures Digit(x, k) == Pow2(k) * (r - 2 * r')
  {
    assert r == 2 * r' + r % 2;
  }

  lemma SumOfBits(x: Unit)
    ensures x == Digit(x, 0) + Digit(x, 1) + Digit(x, 2) + Digit(x, 3) + Digit(x, 4) + Digit(x, 5) + Digit(x, 6)
              + Digit(x, 7)
  {
    Quotients(x);
    DigitIs(x, 0, x, x / 2);
    DigitIs(x, 1, x / 2, x / 4);
    DigitIs(x, 2, x / 4, x / 8);
    DigitIs(x, 3, x / 8, x / 16);
    DigitIs(x, 4, x / 16, x / 32);
    DigitIs(x, 5, x / 32, x / 64);
    DigitIs(x, 6, x / 64, x / 128);
    DigitIs(x, 7, x / 128, 0);
  }

  lemma BitOfByte(p: int -> bool, k: int)
    requires 0 <= k < 8
    ensures BitOf(OfBits(p), k) == p(k)
  {
    var d := seq(8, j => if p(j) then 1 else 0);
    Digits(d, OfBits(p));
  }

  /** The C operators on bytes. */
  function And(a: Unit, b: Unit): Unit { OfBits(k => BitOf(a, k) && BitOf(b, k)) }

  function Ior(a: Unit, b: Unit): Unit { OfBits(k => BitOf(a, k) || BitOf(b, k)) }

  function Not(a: Unit): Unit { OfBits(k => !BitOf(a, k)) }

  lemma AndBit(a: Unit, b: Unit, k: int)
    requires 0 <= k < 8
    ensures BitOf(And(a, b), k) == (BitOf(a, k) && BitOf(b, k))
  {
    BitOfByte(j => BitOf(a, j) && BitOf(b, j), k);
  }

  lemma IorBit(a: Unit, b: Unit, k: int)
    requires 0 <= k < 8
    ensures BitOf(Ior(a, b), k) == (BitOf(a, k) || BitOf(b, k))
  {
    BitOfByte(j => BitOf(a, j) || BitOf(b, j), k);
  }

  lemma NotBit(a: Unit, k: int)
    requires 0 <= k < 8
    ensures BitOf(Not(a), k) == !BitOf(a, k)
  {
    BitOfByte(j => !BitOf(a, j), k);
  }

  /** The map of the characters that satisfy p: how the cbits tables are built. */
  function MapOf(p: int -> bool): Bitmap { seq(CLASS_SIZE, i => OfBits(k => p(8 * i + k))) }

  lemma MapBit(p: int -> bool, c: Unit)
    ensures Bit(MapOf(p), c) == p(c)
  {
    BitOfByte(k => p(8 * (c / 8) + k), c % 8);
  }

  /** The cbits table of \d, \s or \w. */
  function TypeMap(op: int): Bitmap {
    if op == OP_DIGIT || op == OP_NOT_DIGIT then MapOf(IsDigit)
    else if op == OP_WHITESPACE || op == OP_NOT_WHITESPACE then MapOf(IsSpace)
    else MapOf(IsWord)
  }

  /** Byte i of the first map, masked by byte i of the second or by its complement. */
  function Masked(m: Bitmap, n: Bitmap, invert: bool, i: nat): Unit
    requires i < CLASS_SIZE
  {
    And(m[i], if invert then Not(n[i]) else n[i])
  }

  /** Bytes i of two maps can be compared instead of the eight characters they stand for. */
  predicate AllMasked(m: Bitmap, n: Bitmap, invert: bool) {
    forall i: nat {:trigger Masked(m, n, invert, i)} :: i < CLASS_SIZE ==> Masked(m, n, invert, i) == 0
  }

  lemma ByteWise(m: Bitmap, n: Bitmap, invert: bool)
    ensures AllMasked(m, n, invert) <==> forall c: Unit :: Bit(m, c) ==> Bit(n, c) == invert
  {
    forall i: nat, j: int | i < CLASS_SIZE && 0 <= j < 8
      ensures BitOf(Masked(m, n, invert, i), j) == (BitOf(m[i], j) && BitOf(n[i], j) != invert)
    {
      NotBit(n[i], j);
      AndBit(m[i], if invert then Not(n[i]) else n[i], j);
    }
    if AllMasked(m, n, invert) {
      forall c: Unit | Bit(m, c) ensures Bit(n, c) == invert {
        assert Masked(m, n, invert, c / 8) == 0 && BitOf(Masked(m, n, invert, c / 8), c % 8) == false;
      }
    } else {
      var i: nat :| i < CLASS_SIZE && Masked(m, n, invert, i) != 0;
      SomeBit(Masked(m, n, invert, i));
      var j :| 0 <= j < 8 && BitOf(Masked(m, n, invert, i), j);
      var c: Unit := 8 * i + j;
      assert c / 8 == i && c % 8 == j;
      assert Bit(m, c) && Bit(n, c) != invert;
    }
  }

  lemma SomeBit(b: Unit)
    requires b != 0
    ensures exists j :: 0 <= j < 8 && BitOf(b, j)
  {
    if !BitOf(b, 0) && !BitOf(b, 1) && !BitOf(b, 2) && !BitOf(b, 3) && !BitOf(b, 4) && !BitOf(b, 5) && !BitOf(b, 6) {
      Quotients(b);
      assert BitOf(b, 7);
    }
  }
}
