/**
 What a string literal stands for, section 7 of RFC 7159, stated beside its grammar, and
 that the string parser of utils/jsonext/decode.go computes it on every literal.
 */
module JsonMeaning {
  import opened JsonGrammar
  import opened Utf8
  import opened Prelude
  import opened JsonString
  import ScannerSound

  // ----- the meaning of a literal -----

  /** `c` is the hexadecimal digit worth `v`, in either case. */
  ghost predicate HexIs(c: Byte, v: int) {
    0 <= v < 16 && (c == "0123456789abcdef"[v] || c == "0123456789ABCDEF"[v])
  }

  /** The escape \uXXXX at the front is worth `u`. */
  ghost predicate Unit(b: Bytes, u: int) {
    && |b| >= 6 && b[0] == '\\' && b[1] == 'u'
    && exists x, y, z, w :: HexIs(b[2], x) && HexIs(b[3], y) && HexIs(b[4], z) && HexIs(b[5], w)
                            && u == x * 4096 + y * 256 + z * 16 + w
  }

  /** The UTF-16 surrogate pair of a rune beyond the first plane. */
  function HighHalf(r: int): int {
    0xD800 + (r - 0x10000) / 1024
  }

  function LowHalf(r: int): int {
    0xDC00 + (r - 0x10000) % 1024
  }

  /** The two escapes at the front are the surrogate pair of the rune `r`. */
  ghost predicate Pair(b: Bytes, r: int) {
    0x10000 <= r <= 0x10FFFF && |b| >= 12 && Unit(b, HighHalf(r)) && Unit(b[6..], LowHalf(r))
  }

  /** A two-byte escape; the last one is no escape of the RFC, but the parser takes it. */
  ghost predicate EscapeIs(c: Byte, r: int) {
    || (c == '"' && r == 0x22) || (c == '\\' && r == 0x5C) || (c == '/' && r == 0x2F)
    || (c == 'b' && r == 0x08) || (c == 'f' && r == 0x0C) || (c == 'n' && r == 0x0A)
    || (c == 'r' && r == 0x0D) || (c == 't' && r == 0x09)
    || (c == '\'' && r == 0x27)
  }

  /** The first character of what is left of a literal takes `k` bytes and stands for the rune `r`. */
  ghost predicate First(b: Bytes, k: nat, r: int) {
    || RawFirst(b, k, r)
    || (k == 2 && |b| >= 2 && b[0] == '\\' && EscapeIs(b[1], r))
    || UnicodeFirst(b, k, r)
  }

  /** Unescaped UTF-8, with U+FFFD for a byte that begins no well-formed rune. */
  ghost predicate RawFirst(b: Bytes, k: nat, r: int) {
    && b != [] && IsPlain(b[0])
    && if WellFormed(b, k) then r == RuneOf(b, k)
       else k == 1 && r == 0xFFFD && forall j :: !WellFormed(b, j)
  }

  /** A \uXXXX escape: a rune, a surrogate pair, or U+FFFD for a surrogate without its other half. */
  ghost predicate UnicodeFirst(b: Bytes, k: nat, r: int) {
    || (k == 6 && Unit(b, r) && !IsSurrogate(r))
    || (k == 12 && Pair(b, r))
    || (k == 6 && r == 0xFFFD && (exists u :: Unit(b, u) && IsSurrogate(u)) && forall q :: !Pair(b, q))
  }

  /** The bytes are the UTF-8 form of the rune. */
  ghost predicate Spells(s: Bytes, r: int) {
    WellFormed(s, |s|) && RuneOf(s, |s|) == r
  }

  ghost predicate Denotes(b: Bytes, out: Bytes)
    decreases |b|
  {
    if b == [] then out == []
    else
      exists k: nat, r, j :: First(b, k, r) && 0 < k <= |b| && 0 < j <= |out|
                        && Spells(out[..j], r) && Denotes(b[k..], out[j..])
  }

  // ----- UTF-8 -----

  predicate Scalar(r: int) {
    0 <= r <= 0x10FFFF && !IsSurrogate(r)
  }

  lemma SpellsShort(r: int)
    requires 0 <= r < 0x800
    ensures Spells(EncodeRune(r), r)
  {
  }

  lemma SixBits(r: int)
    requires 0 <= r
    ensures r / 64 / 64 == r / 4096 && r == r / 64 * 64 + r % 64
  {
  }

  lemma SpellsThree(r: int)
    requires 0x800 <= r < 0x10000 && !IsSurrogate(r)
    ensures Spells(EncodeRune(r), r)
  {
    SixBits(r);
    SixBits(r / 64);
    var (a, b, c) := (r / 4096, r / 64 % 64, r % 64);
    assert r == a * 4096 + b * 64 + c;
    var s := EncodeRune(r);
    assert Code(s[0]) == 0xE0 + a && Code(s[1]) == 0x80 + b && Code(s[2]) == 0x80 + c;
  }

  lemma SpellsFour(r: int)
    requires 0x10000 <= r <= 0x10FFFF
    ensures Spells(EncodeRune(r), r)
  {
    SixBits(r);
    SixBits(r / 64);
    SixBits(r / 4096);
    var (a, b, c, d) := (r / 262144, r / 4096 % 64, r / 64 % 64, r % 64);
    assert r / 4096 / 64 == a;
    assert r == a * 262144 + b * 4096 + c * 64 + d;
    var s := EncodeRune(r);
    assert Code(s[0]) == 0xF0 + a && Code(s[1]) == 0x80 + b && Code(s[2]) == 0x80 + c && Code(s[3]) == 0x80 + d;
  }

  /** The encoder spells every scalar value, and nothing else spells it. */
  lemma EncodeSpells(r: int)
    requires Scalar(r)
    ensures Spells(EncodeRune(r), r)
  {
    if r < 0x800 {
      SpellsShort(r);
    } else if r < 0x10000 {
      SpellsThree(r);
    } else {
      SpellsFour(r);
    }
  }

  lemma SpellsUnique(s: Bytes, r: int)
    requires Spells(s, r)
    ensures s == EncodeRune(r)
  {
    EncodeDecoded(s, |s|);
    assert s[..|s|] == s;
  }

  // ----- one character -----

  lemma HexWorth(c: Byte, v: int)
    ensures HexIs(c, v) <==> IsHex(c) && HexValue(c) == v
  {
  }

  lemma UnitIsRead(b: Bytes, u: int)
    requires Unit(b, u)
    ensures u >= 0 && Getu4(b) == u
  {
    var x, y, z, w :| HexIs(b[2], x) && HexIs(b[3], y) && HexIs(b[4], z) && HexIs(b[5], w)
                      && u == x * 4096 + y * 256 + z * 16 + w;
    HexWorth(b[2], x);
    HexWorth(b[3], y);
    HexWorth(b[4], z);
    HexWorth(b[5], w);
  }

  lemma ReadIsUnit(b: Bytes, u: int)
    requires u >= 0 && Getu4(b) == u
    ensures Unit(b, u)
  {
    HexWorth(b[2], HexValue(b[2]));
    HexWorth(b[3], HexValue(b[3]));
    HexWorth(b[4], HexValue(b[4]));
    HexWorth(b[5], HexValue(b[5]));
  }

  /** `getu4` computes the worth of an escape, and -1 exactly when there is none. */
  lemma UnitRead(b: Bytes, u: int)
    ensures Unit(b, u) <==> u >= 0 && Getu4(b) == u
  {
    if Unit(b, u) {
      UnitIsRead(b, u);
    } else if u >= 0 && Getu4(b) == u {
      ReadIsUnit(b, u);
    }
  }

  /** Nothing else is the first character. */
  ghost predicate OnlyFirst(b: Bytes, size: nat, r: int) {
    forall k, q :: First(b, k, q) <==> k == size && q == r
  }

  /** `c` is what the first character stands for, in UTF-8, and how many bytes it takes. */
  ghost predicate Reads(b: Bytes, c: Option<Chunk>, r: int) {
    if c.None? then forall k, q :: !First(b, k, q)
    else Scalar(r) && c.value.out == EncodeRune(r) && OnlyFirst(b, c.value.size, r)
  }

  lemma RawRead(b: Bytes) returns (r: int)
    requires b != [] && b[0] != '\\'
    ensures Reads(b, UnescapeFirst(b), r)
  {
    var d := DecodeRune(b);
    r := d.rune;
    DecodesWellFormed(b);
    if WellFormed(b, d.size) {
      RuneRange(b, d.size);
    }
  }

  lemma EscapeRead(b: Bytes) returns (r: int)
    requires b != [] && b[0] == '\\' && (|b| == 1 || b[1] != 'u')
    ensures Reads(b, UnescapeFirst(b), r)
  {
    r := if |b| == 1 then 0 else if b[1] == 'b' then 0x08 else if b[1] == 'f' then 0x0C
         else if b[1] == 'n' then 0x0A else if b[1] == 'r' then 0x0D else if b[1] == 't' then 0x09 else Code(b[1]);
  }

  predicate Halves(high: int, low: int) {
    0xD800 <= high < 0xDC00 && 0xDC00 <= low < 0xE000
  }

  /** `utf16.DecodeRune` undoes the split into halves. */
  lemma HalvesBack(high: int, low: int, q: int)
    ensures (0x10000 <= q <= 0x10FFFF && high == HighHalf(q) && low == LowHalf(q)) <==>
            (Halves(high, low) && q == DecodeSurrogates(high, low))
  {
  }

  lemma PairIs(b: Bytes, q: int)
    requires |b| >= 6
    ensures Pair(b, q) <==> Halves(Getu4(b), Getu4(b[6..])) && q == DecodeSurrogates(Getu4(b), Getu4(b[6..]))
  {
    HalvesBack(Getu4(b), Getu4(b[6..]), q);
    UnitRead(b, HighHalf(q));
    UnitRead(b[6..], LowHalf(q));
  }

  lemma PairOnly(b: Bytes)
    requires |b| >= 6 && b[0] == '\\' && b[1] == 'u' && Halves(Getu4(b), Getu4(b[6..]))
    ensures OnlyFirst(b, 12, DecodeSurrogates(Getu4(b), Getu4(b[6..])))
  {
    var r := DecodeSurrogates(Getu4(b), Getu4(b[6..]));
    PairIs(b, r);
    forall k, q ensures First(b, k, q) <==> k == 12 && q == r {
      PairIs(b, q);
      UnitRead(b, q);
    }
  }

  lemma LoneOnly(b: Bytes)
    requires |b| >= 6 && b[0] == '\\' && b[1] == 'u'
    requires IsSurrogate(Getu4(b)) && !Halves(Getu4(b), Getu4(b[6..]))
    ensures OnlyFirst(b, 6, 0xFFFD)
  {
    UnitRead(b, Getu4(b));
    forall p ensures !Pair(b, p) {
      PairIs(b, p);
    }
    forall k, q ensures First(b, k, q) <==> k == 6 && q == 0xFFFD {
      UnitRead(b, q);
    }
  }

  lemma SurrogateChunk(b: Bytes)
    requires |b| >= 6 && b[0] == '\\' && b[1] == 'u' && IsSurrogate(Getu4(b))
    ensures var r := DecodeSurrogates(Getu4(b), Getu4(b[6..]));
            && Scalar(r)
            && UnescapeFirst(b) == Some(Chunk(EncodeRune(r), if Halves(Getu4(b), Getu4(b[6..])) then 12 else 6))
  {
  }

  lemma SurrogateRead(b: Bytes) returns (r: int)
    requires |b| >= 6 && b[0] == '\\' && b[1] == 'u' && IsSurrogate(Getu4(b))
    ensures Reads(b, UnescapeFirst(b), r)
  {
    r := DecodeSurrogates(Getu4(b), Getu4(b[6..]));
    SurrogateChunk(b);
    if Halves(Getu4(b), Getu4(b[6..])) {
      PairOnly(b);
    } else {
      LoneOnly(b);
    }
  }

  lemma RuneOnly(b: Bytes)
    requires |b| >= 6 && b[0] == '\\' && b[1] == 'u' && Getu4(b) >= 0 && !IsSurrogate(Getu4(b))
    ensures OnlyFirst(b, 6, Getu4(b))
  {
    forall k, q ensures First(b, k, q) <==> k == 6 && q == Getu4(b) {
      NoSurrogate(b, k, q);
    }
  }

  lemma NoFirst(b: Bytes)
    requires |b| >= 2 && b[0] == '\\' && b[1] == 'u' && Getu4(b) < 0
    ensures forall k, q :: !First(b, k, q)
  {
    forall k, q ensures !First(b, k, q) {
      NoSurrogate(b, k, q);
    }
  }

  lemma UnicodeRead(b: Bytes) returns (r: int)
    requires |b| >= 2 && b[0] == '\\' && b[1] == 'u'
    ensures Reads(b, UnescapeFirst(b), r)
  {
    r := Getu4(b);
    if r < 0 {
      NoFirst(b);
    } else if IsSurrogate(r) {
      r := SurrogateRead(b);
    } else {
      assert r <= 0xFFFF;
      RuneOnly(b);
    }
  }

  lemma NoSurrogate(b: Bytes, k: nat, q: int)
    requires |b| >= 2 && b[0] == '\\' && b[1] == 'u' && !IsSurrogate(Getu4(b))
    ensures First(b, k, q) <==> k == 6 && q >= 0 && q == Getu4(b)
  {
    UnitRead(b, q);
    forall u ensures Unit(b, u) <==> u >= 0 && u == Getu4(b) {
      UnitRead(b, u);
    }
  }

  lemma FirstRead(b: Bytes) returns (r: int)
    requires b != []
    ensures Reads(b, UnescapeFirst(b), r)
  {
    if b[0] != '\\' {
      r := RawRead(b);
    } else if |b| > 1 && b[1] == 'u' {
      r := UnicodeRead(b);
    } else {
      r := EscapeRead(b);
    }
  }

  // ----- a whole literal -----

  lemma SpelledFirst(out: Bytes, r: int, j: nat)
    requires Scalar(r) && 0 < j <= |out| && Spells(out[..j], r)
    ensures out == EncodeRune(r) + out[j..]
  {
    SpellsUnique(out[..j], r);
    assert out == out[..j] + out[j..];
  }

  /** The parser's result is the meaning, and the only one. */
  lemma {:induction false} UnescapeDenotes(b: Bytes, out: Bytes)
    ensures Unescape(b) == Some(out) <==> Denotes(b, out)
    decreases |b|
  {
    if b != [] {
      var u := UnescapeFirst(b);
      var r := FirstRead(b);
      if u.Some? {
        var (e, rest) := (u.value.out, b[u.value.size..]);
        if Unescape(b) == Some(out) {
          var tail := Unescape(rest).value;
          EncodeSpells(r);
          assert out == e + tail && out[..|e|] == e && out[|e|..] == tail;
          UnescapeDenotes(rest, tail);
          assert First(b, u.value.size, r);
        }
        if Denotes(b, out) {
          var k: nat, q, j :| First(b, k, q) && 0 < k <= |b| && 0 < j <= |out|
                              && Spells(out[..j], q) && Denotes(b[k..], out[j..]);
          SpelledFirst(out, r, j);
          UnescapeDenotes(rest, out[j..]);
        }
      }
    }
  }

  /** `unquoteBytes` returns what the literal stands for, and nothing for bytes that stand for nothing. */
  lemma UnquoteDenotes(q: Bytes, out: Bytes)
    ensures Unquote(q) == Some(out) <==>
            |q| >= 2 && q[0] == '"' && q[|q| - 1] == '"' && Denotes(q[1..|q| - 1], out)
  {
    if |q| >= 2 {
      UnescapeDenotes(q[1..|q| - 1], out);
    }
  }

  // ----- which literals have a meaning -----

  /** How long the first character of a literal is, 0 when there is none; `lenient` lets the parser's extra escape in. */
  function ItemSize(b: Bytes, lenient: bool): (k: nat)
    ensures k <= |b|
  {
    if b == [] then 0
    else if IsPlain(b[0]) then 1
    else if |b| < 2 || b[0] != '\\' then 0
    else if IsEscaped(b[1]) || (lenient && b[1] == '\'') then 2
    else if |b| >= 6 && b[1] == 'u' && IsHex(b[2]) && IsHex(b[3]) && IsHex(b[4]) && IsHex(b[5]) then 6
    else 0
  }

  /** The characters of a literal, from the front. */
  predicate Chars(b: Bytes, lenient: bool) {
    b == [] || (ItemSize(b, lenient) > 0 && Chars(b[ItemSize(b, lenient)..], lenient))
  }

  lemma ItemExtends(x: Bytes, b: Bytes)
    requires IsChars(x) && ItemSize(b, false) > 0
    ensures IsChars(x + b[..ItemSize(b, false)])
  {
    var k := ItemSize(b, false);
    if k == 1 {
      ScannerSound.CharsSnoc(x, b[0]);
      assert b[..1] == [b[0]];
    } else if k == 2 {
      EscapeExtends(x, b[..2]);
    } else {
      UnicodeExtends(x, b[..6]);
    }
  }

  lemma Rejoined(x: Bytes, b: Bytes, k: nat)
    requires k <= |b|
    ensures (x + b[..k]) + b[k..] == x + b
  {
  }

  lemma {:induction false} CharsJoin(x: Bytes, b: Bytes)
    requires IsChars(x) && Chars(b, false)
    ensures IsChars(x + b)
    decreases |b|
  {
    if b == [] {
      assert x + b == x;
    } else {
      var k := ItemSize(b, false);
      ItemExtends(x, b);
      Rejoined(x, b, k);
      CharsJoin(x + b[..k], b[k..]);
    }
  }

  lemma ItemStays(b: Bytes, c: Bytes, lenient: bool)
    requires ItemSize(b, lenient) > 0
    ensures ItemSize(b + c, lenient) == ItemSize(b, lenient)
  {
  }

  lemma DropBefore(b: Bytes, c: Bytes, k: nat)
    requires k <= |b|
    ensures (b + c)[k..] == b[k..] + c
  {
  }

  lemma {:induction false} CharsAppend(b: Bytes, c: Bytes, lenient: bool)
    requires Chars(b, lenient) && Chars(c, lenient)
    ensures Chars(b + c, lenient)
    decreases |b|
  {
    if b == [] {
      assert b + c == c;
    } else {
      var k := ItemSize(b, lenient);
      ItemStays(b, c, lenient);
      DropBefore(b, c, k);
      CharsAppend(b[k..], c, lenient);
    }
  }

  /** A literal ends in one character. */
  lemma LastItem(b: Bytes) returns (k: nat)
    requires IsChars(b) && b != []
    ensures 0 < k <= |b| && IsChars(b[..|b| - k]) && ItemSize(b[|b| - k..], false) == k
  {
    var n := |b|;
    if IsChars(b[..n - 1]) && IsPlain(b[n - 1]) {
      k := 1;
    } else if n >= 2 && IsChars(b[..n - 2]) && b[n - 2] == '\\' && IsEscaped(b[n - 1]) {
      k := 2;
    } else {
      k := 6;
    }
  }

  lemma {:induction false} CharsFromFront(b: Bytes)
    requires IsChars(b)
    ensures Chars(b, false)
    decreases |b|
  {
    if b != [] {
      var k := LastItem(b);
      CharsFromFront(b[..|b| - k]);
      OneItem(b[|b| - k..]);
      CharsAppend(b[..|b| - k], b[|b| - k..], false);
      assert b[..|b| - k] + b[|b| - k..] == b;
    }
  }

  lemma OneItem(c: Bytes)
    requires c != [] && ItemSize(c, false) == |c|
    ensures Chars(c, false)
  {
    assert c[|c|..] == [];
  }

  lemma {:induction false} PlainRun(b: Bytes, k: nat, lenient: bool)
    requires k <= |b| && forall i :: 0 <= i < k ==> IsPlain(b[i])
    ensures Chars(b, lenient) <==> Chars(b[k..], lenient)
  {
    if k == 0 {
      assert b[0..] == b;
    } else {
      PlainRun(b[1..], k - 1, lenient);
      assert b[1..][k - 1..] == b[k..];
    }
  }

  /** Unescaped bytes are characters one by one; the parser takes those of one rune together. */
  lemma RawAfterFirst(b: Bytes)
    requires b != [] && b[0] != '\\'
    ensures var u := UnescapeFirst(b);
            Chars(b, true) <==> u.Some? && Chars(b[u.value.size..], true)
  {
    var u := UnescapeFirst(b);
    if u.Some? {
      DecodesWellFormed(b);
      PlainRun(b, u.value.size, true);
    }
  }

  lemma EscapeSize(b: Bytes)
    requires b != [] && b[0] == '\\'
    ensures var u := UnescapeFirst(b);
            && (u.None? <==> ItemSize(b, true) == 0)
            && (u.Some? && u.value.size < 12 ==> u.value.size == ItemSize(b, true))
            && (u.Some? && u.value.size >= 12 ==>
                  u.value.size == 12 && ItemSize(b, true) == 6 && ItemSize(b[6..], true) == 6)
  {
  }

  lemma EscapeAfterFirst(b: Bytes)
    requires b != [] && b[0] == '\\'
    ensures var u := UnescapeFirst(b);
            Chars(b, true) <==> u.Some? && Chars(b[u.value.size..], true)
  {
    var u := UnescapeFirst(b);
    EscapeSize(b);
    if u.Some? && u.value.size == 12 {
      assert b[6..][6..] == b[12..];
    }
  }

  /** The parser accepts exactly the string literals and those with an escaped apostrophe. */
  lemma {:induction false} UnescapeTotal(b: Bytes)
    ensures Unescape(b).Some? <==> Chars(b, true)
    decreases |b|
  {
    if b != [] {
      if b[0] == '\\' {
        EscapeAfterFirst(b);
      } else {
        RawAfterFirst(b);
      }
      var u := UnescapeFirst(b);
      if u.Some? {
        UnescapeTotal(b[u.value.size..]);
      }
    }
  }

  lemma {:induction false} StrictIsLenient(b: Bytes)
    requires Chars(b, false)
    ensures Chars(b, true)
    decreases |b|
  {
    if b != [] {
      StrictIsLenient(b[ItemSize(b, false)..]);
    }
  }

  /** The grammar read from the front. */
  lemma CharsAgree(b: Bytes)
    ensures IsChars(b) <==> Chars(b, false)
  {
    if IsChars(b) {
      CharsFromFront(b);
    }
    if Chars(b, false) {
      CharsJoin([], b);
      assert [] + b == b;
    }
  }

  /** The parser accepts exactly the literals of the RFC and those with its extra escape. */
  lemma LiteralsUnquoted(q: Bytes)
    ensures Unquote(q).Some? <==> |q| >= 2 && q[0] == '"' && q[|q| - 1] == '"' && Chars(q[1..|q| - 1], true)
    ensures IsString(q) <==> |q| >= 2 && q[0] == '"' && q[|q| - 1] == '"' && Chars(q[1..|q| - 1], false)
  {
    if |q| >= 2 {
      UnescapeTotal(q[1..|q| - 1]);
      CharsAgree(q[1..|q| - 1]);
    }
  }

  /** Every string literal of the RFC is parsed, to the only bytes it stands for. */
  lemma LiteralHasMeaning(q: Bytes, out: Bytes)
    requires IsString(q)
    ensures Unquote(q).Some?
    ensures out == Unquote(q).value <==> Denotes(q[1..|q| - 1], out)
  {
    LiteralsUnquoted(q);
    StrictIsLenient(q[1..|q| - 1]);
    UnquoteDenotes(q, out);
  }

  /** An escaped apostrophe is no escape of the RFC, and the parser reads it as an apostrophe. */
  lemma ApostropheTaken()
    ensures var q: Bytes := ['"', '\\', '\'', '"'];
            !IsString(q) && Unquote(q) == Some(['\''])
  {
    var q: Bytes := ['"', '\\', '\'', '"'];
    var b: Bytes := ['\\', '\''];
    assert q[1..3] == b && b[2..] == [];
    var none: Bytes := [];
    assert Unescape(b[2..]) == Some(none) && ['\''] + none == ['\''];
    LiteralsUnquoted(q);
  }
}
