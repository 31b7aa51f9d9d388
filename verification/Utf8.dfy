/** UTF-8 as Go's unicode/utf8 decodes and encodes it, the foreign code that the string codec rests on. */
module Utf8 {
  import opened JsonGrammar

  const RUNE_ERROR: int := 0xFFFD
  const UTF_MAX: nat := 4

  datatype Decoded = Decoded(rune: int, size: nat)

  function Code(c: Byte): int {
    c as int
  }

  function ByteOf(n: int): Byte
    requires 0 <= n < 256
  {
    n as char
  }

  /** How many bytes a first byte announces; 1 for a byte that cannot begin a longer rune. */
  function Announced(c: Byte): nat {
    var n := Code(c);
    if 0xC2 <= n <= 0xDF then 2 else if 0xE0 <= n <= 0xEF then 3 else if 0xF0 <= n <= 0xF4 then 4 else 1
  }

  /** The second byte rules out overlong forms, surrogates and runes that are too large. */
  predicate SecondOk(c: Byte, d: Byte) {
    var n, m := Code(c), Code(d);
    && (if n == 0xE0 then 0xA0 else if n == 0xF0 then 0x90 else 0x80) <= m
    && m <= (if n == 0xED then 0x9F else if n == 0xF4 then 0x8F else 0xBF)
  }

  predicate Continuation(c: Byte) {
    0x80 <= Code(c) <= 0xBF
  }

  /** The first rune of `s` is well formed and `k` bytes long. */
  predicate WellFormed(s: Bytes, k: nat) {
    && 0 < k <= |s|
    && if Code(s[0]) < 0x80 then k == 1
       else
         && k > 1 && k == Announced(s[0]) && SecondOk(s[0], s[1])
         && (k > 2 ==> Continuation(s[2])) && (k > 3 ==> Continuation(s[3]))
  }

  function RuneOf(s: Bytes, k: nat): int
    requires WellFormed(s, k)
  {
    if k == 1 then Code(s[0])
    else if k == 2 then (Code(s[0]) - 0xC0) * 64 + (Code(s[1]) - 0x80)
    else if k == 3 then (Code(s[0]) - 0xE0) * 4096 + (Code(s[1]) - 0x80) * 64 + (Code(s[2]) - 0x80)
    else (Code(s[0]) - 0xF0) * 262144 + (Code(s[1]) - 0x80) * 4096 + (Code(s[2]) - 0x80) * 64 + (Code(s[3]) - 0x80)
  }

  /** `utf8.DecodeRune`. */
  function DecodeRune(s: Bytes): (d: Decoded)
    requires s != []
    ensures 1 <= d.size <= 4 && d.size <= |s|
  {
    var k := if Code(s[0]) < 0x80 then 1 else Announced(s[0]);
    if WellFormed(s, k) then Decoded(RuneOf(s, k), k) else Decoded(RUNE_ERROR, 1)
  }

  /** `utf8.EncodeRune`. */
  function EncodeRune(rune: int): (b: Bytes)
    ensures 1 <= |b| <= UTF_MAX
  {
    var r := if rune < 0 || rune > 0x10FFFF || 0xD800 <= rune <= 0xDFFF then RUNE_ERROR else rune;
    if r < 0x80 then [ByteOf(r)]
    else if r < 0x800 then [ByteOf(0xC0 + r / 64), ByteOf(0x80 + r % 64)]
    else if r < 0x10000 then [ByteOf(0xE0 + r / 4096), ByteOf(0x80 + r / 64 % 64), ByteOf(0x80 + r % 64)]
    else [ByteOf(0xF0 + r / 262144), ByteOf(0x80 + r / 4096 % 64), ByteOf(0x80 + r / 64 % 64), ByteOf(0x80 + r % 64)]
  }

  lemma RuneRange(s: Bytes, k: nat)
    requires WellFormed(s, k)
    ensures var r := RuneOf(s, k);
            && 0 <= r <= 0x10FFFF && !(0xD800 <= r <= 0xDFFF)
            && (k == 1 <==> r < 0x80) && (k == 2 <==> 0x80 <= r < 0x800) && (k == 3 <==> 0x800 <= r < 0x10000)
  {
  }

  lemma LowDigit(a: int, b: int)
    requires 0 <= a && 0 <= b < 64
    ensures (a * 64 + b) / 64 == a && (a * 64 + b) % 64 == b
  {
  }

  /** Digits to base 64. */
  lemma ThreeDigits(a: int, b: int, c: int)
    requires 0 <= a && 0 <= b < 64 && 0 <= c < 64
    ensures var r := a * 4096 + b * 64 + c; r / 4096 == a && r / 64 % 64 == b && r % 64 == c
  {
    LowDigit(a * 64 + b, c);
    LowDigit(a, b);
  }

  lemma FourDigits(a: int, b: int, c: int, d: int)
    requires 0 <= a && 0 <= b < 64 && 0 <= c < 64 && 0 <= d < 64
    ensures var r := a * 262144 + b * 4096 + c * 64 + d;
            r / 262144 == a && r / 4096 % 64 == b && r / 64 % 64 == c && r % 64 == d
  {
    LowDigit(a * 4096 + b * 64 + c, d);
    ThreeDigits(a, b, c);
  }

  lemma EncodeShort(s: Bytes, k: nat)
    requires WellFormed(s, k) && k <= 2
    ensures EncodeRune(RuneOf(s, k)) == s[..k]
  {
    RuneRange(s, k);
    if k == 1 {
      assert s[..1] == [s[0]];
    } else {
      LowDigit(Code(s[0]) - 0xC0, Code(s[1]) - 0x80);
      assert s[..2] == [s[0], s[1]];
    }
  }

  lemma EncodeThree(s: Bytes)
    requires WellFormed(s, 3)
    ensures EncodeRune(RuneOf(s, 3)) == s[..3]
  {
    RuneRange(s, 3);
    ThreeDigits(Code(s[0]) - 0xE0, Code(s[1]) - 0x80, Code(s[2]) - 0x80);
    assert s[..3] == [s[0], s[1], s[2]];
  }

  lemma EncodeFour(s: Bytes)
    requires WellFormed(s, 4)
    ensures EncodeRune(RuneOf(s, 4)) == s[..4]
  {
    RuneRange(s, 4);
    FourDigits(Code(s[0]) - 0xF0, Code(s[1]) - 0x80, Code(s[2]) - 0x80, Code(s[3]) - 0x80);
    assert s[..4] == [s[0], s[1], s[2], s[3]];
  }

  /** Encoding the rune of a well-formed prefix gives the prefix back. */
  lemma EncodeDecoded(s: Bytes, k: nat)
    requires WellFormed(s, k)
    ensures EncodeRune(RuneOf(s, k)) == s[..k]
  {
    if k <= 2 {
      EncodeShort(s, k);
    } else if k == 3 {
      EncodeThree(s);
    } else {
      EncodeFour(s);
    }
  }

  /** Whether the first rune is well formed depends on its own bytes only. */
  lemma PrefixDecides(s: Bytes, t: Bytes, k: nat)
    requires WellFormed(s, k) && |t| >= k && t[..k] == s[..k]
    ensures WellFormed(t, k) && RuneOf(t, k) == RuneOf(s, k)
  {
    assert forall i :: 0 <= i < k ==> t[i] == t[..k][i] && s[i] == s[..k][i];
  }

  lemma DecodesWellFormed(s: Bytes)
    requires s != []
    ensures var d := DecodeRune(s);
            if WellFormed(s, d.size) then d.rune == RuneOf(s, d.size) else d == Decoded(RUNE_ERROR, 1)
    ensures forall k :: WellFormed(s, k) ==> DecodeRune(s) == Decoded(RuneOf(s, k), k)
  {
  }
}
