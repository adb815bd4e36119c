/** Opcode numbers, operand sizes and the default character tables, for the
    8-bit library without UTF or UCP. */
module Opcodes {

  const LINK_SIZE := 2
  const IMM2_SIZE := 2
  const CLASS_SIZE := 32

  const OP_END := 0
  const OP_SOD := 1
  const OP_SOM := 2
  const OP_NOT_WORD_BOUNDARY := 4
  const OP_WORD_BOUNDARY := 5
  const OP_NOT_DIGIT := 6
  const OP_DIGIT := 7
  const OP_NOT_WHITESPACE := 8
  const OP_WHITESPACE := 9
  const OP_NOT_WORDCHAR := 10
  const OP_WORDCHAR := 11
  const OP_ANY := 12
  const OP_ALLANY := 13
  const OP_EXTUNI := 22
  const OP_EODN := 23
  const OP_EOD := 24
  const OP_DOLL := 25
  const OP_DOLLM := 26
  const OP_CIRC := 27
  const OP_CIRCM := 28
  const OP_CHAR := 29
  const OP_CHARI := 30
  const OP_NOT := 31
  const OP_NOTI := 32

  // Five blocks of thirteen repeat opcodes start here; the offset within a block
  // says which repeat it is.
  const OP_STAR := 33
  const OP_MINSTAR := 34
  const OP_PLUS := 35
  const OP_MINPLUS := 36
  const OP_QUERY := 37
  const OP_MINQUERY := 38
  const OP_UPTO := 39
  const OP_MINUPTO := 40
  const OP_EXACT := 41
  const OP_POSSTAR := 42
  const OP_POSPLUS := 43
  const OP_POSQUERY := 44
  const OP_POSUPTO := 45
  const OP_STARI := 46
  const OP_NOTSTAR := 59
  const OP_NOTSTARI := 72
  const OP_TYPESTAR := 85
  const OP_TYPEMINSTAR := 86
  const OP_TYPEPOSSTAR := 94
  const OP_TYPEPOSUPTO := 97

  const OP_CRSTAR := 98
  const OP_CRMINSTAR := 99
  const OP_CRPLUS := 100
  const OP_CRMINPLUS := 101
  const OP_CRQUERY := 102
  const OP_CRMINQUERY := 103
  const OP_CRRANGE := 104
  const OP_CRMINRANGE := 105
  const OP_CRPOSSTAR := 106
  const OP_CRPOSPLUS := 107
  const OP_CRPOSQUERY := 108
  const OP_CRPOSRANGE := 109
  const OP_CLASS := 110
  const OP_NCLASS := 111

  const OP_RECURSE := 117
  const OP_ALT := 120
  const OP_KET := 121
  const OP_KETRMAX := 122
  const OP_KETRMIN := 123
  const OP_BRA := 134
  const OP_CBRA := 136
  const OP_SBRA := 139
  const OP_SCBRA := 141
  const OP_BRAZERO := 150
  const OP_BRAMINZERO := 151
  const OP_SKIPZERO := 166
  const OP_TABLE_LENGTH := 168

  predicate IsRepeat(c: int) { OP_STAR <= c <= OP_TYPEPOSUPTO }

  predicate IsClassRepeat(c: int) { OP_CRSTAR <= c <= OP_CRPOSRANGE }

  predicate IsType(c: int) { OP_NOT_DIGIT <= c <= OP_ALLANY }

  /** The zero-width items of the fragment. */
  predicate IsAssertion(c: int) {
    c == OP_SOD || c == OP_SOM || c == OP_NOT_WORD_BOUNDARY || c == OP_WORD_BOUNDARY || OP_EODN <= c <= OP_CIRCM
  }

  predicate IsBracket(c: int) { c == OP_BRA || c == OP_CBRA || c == OP_SBRA || c == OP_SCBRA }

  predicate IsCapture(c: int) { c == OP_CBRA || c == OP_SCBRA }

  predicate IsKet(c: int) { OP_KET <= c <= OP_KETRMIN }

  predicate IsZero(c: int) { c == OP_BRAZERO || c == OP_BRAMINZERO || c == OP_SKIPZERO }

  /** The first opcode of the block of thirteen that a repeat opcode belongs to. */
  function RepeatBase(c: int): int {
    if c > OP_TYPEPOSUPTO then c
    else if c >= OP_TYPESTAR then OP_TYPESTAR
    else if c >= OP_NOTSTARI then OP_NOTSTARI
    else if c >= OP_NOTSTAR then OP_NOTSTAR
    else if c >= OP_STARI then OP_STARI
    else OP_STAR
  }

  /** Repeats that carry a two-unit count: UPTO, MINUPTO, EXACT and POSUPTO. */
  predicate HasCount(k: int) { k == OP_UPTO || k == OP_MINUPTO || k == OP_EXACT || k == OP_POSUPTO }

  /** The OP_lengths table on the opcodes of the fragment. */
  function OpLength(c: int): nat {
    if IsRepeat(c) then (if HasCount(c - RepeatBase(c) + OP_STAR) then 2 + IMM2_SIZE else 2)
    else if OP_CHAR <= c <= OP_NOTI then 2
    else if c == OP_CRRANGE || c == OP_CRMINRANGE || c == OP_CRPOSRANGE then 1 + 2 * IMM2_SIZE
    else if c == OP_CLASS || c == OP_NCLASS then 1 + CLASS_SIZE
    else if c == OP_ALT || IsKet(c) || c == OP_RECURSE || c == OP_BRA || c == OP_SBRA then 1 + LINK_SIZE
    else if IsCapture(c) then 1 + LINK_SIZE + IMM2_SIZE
    else 1
  }

  // --- the default (C locale) tables -------------------------------------

  predicate IsSpace(c: int) { 9 <= c <= 13 || c == 32 }

  predicate IsDigit(c: int) { 48 <= c <= 57 }

  predicate IsWord(c: int) { IsDigit(c) || 65 <= c <= 90 || 97 <= c <= 122 || c == 95 }

  /** The fcc table: the other case of a letter. */
  function Flip(c: int): int {
    if 65 <= c <= 90 then c + 32 else if 97 <= c <= 122 then c - 32 else c
  }

  /** The lcc table: lower case. */
  function Lower(c: int): int {
    if 65 <= c <= 90 then c + 32 else c
  }

  // --- bit maps ------------------------------------------------------------

  function Pow2(k: int): int {
    if k <= 0 then 1 else if k == 1 then 2 else if k == 2 then 4 else if k == 3 then 8
    else if k == 4 then 16 else if k == 5 then 32 else if k == 6 then 64 else 128
  }

  /** Bit k of a byte. */
  predicate BitOf(b: int, k: int) { (b / Pow2(k)) % 2 == 1 }

  type Bitmap = m: seq<int> | |m| == CLASS_SIZE && forall i :: 0 <= i < |m| ==> 0 <= m[i] < 256
    witness seq(CLASS_SIZE, i => 0)

  type Unit = u: int | 0 <= u < 256

  predicate Bit(m: Bitmap, c: Unit) { BitOf(m[c / 8], c % 8) }
}
