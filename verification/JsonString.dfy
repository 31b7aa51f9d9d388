/**
 The string printer of utils/jsonext/encode.go and the string parser of
 utils/jsonext/decode.go undo each other.
 */
module JsonString {
  import opened JsonGrammar
  import opened Utf8
  import opened Prelude
  import Scanner
  import ScannerComplete
  import ScannerSound

  /** What the first rune of a string becomes and how many bytes it takes. */
  datatype Chunk = Chunk(out: Bytes, size: nat)

  // ----- printing -----

  /** `safeSet`, for an ASCII byte. */
  predicate Safe(c: Byte) {
    c >= ' ' && c != '"' && c != '\\'
  }

  /** `htmlSafeSet`. */
  predicate HtmlSafe(c: Byte) {
    Safe(c) && c != '<' && c != '>' && c != '&'
  }

  function HexDigit(n: int): Byte
    requires 0 <= n < 16
  {
    if n < 10 then ('0' as int + n) as char else ('a' as int + n - 10) as char
  }

  function EscapeAscii(c: Byte): Bytes
    requires Code(c) < 0x80
  {
    if c == '\\' || c == '"' then ['\\', c]
    else if c == '\n' then ['\\', 'n']
    else if c == '\r' then ['\\', 'r']
    else if c == '\t' then ['\\', 't']
    else ['\\', 'u', '0', '0', HexDigit(Code(c) / 16), HexDigit(Code(c) % 16)]
  }

  const REPLACEMENT_ESCAPE: Bytes := ['\\', 'u', 'f', 'f', 'f', 'd']

  /** Whether the byte at the front is copied as it is. */
  predicate Copied(s: Bytes, html: bool)
    requires s != []
  {
    if Code(s[0]) < 0x80 then HtmlSafe(s[0]) || (!html && Safe(s[0]))
    else
      var d := DecodeRune(s);
      !(d.rune == RUNE_ERROR && d.size == 1) && d.rune != 0x2028 && d.rune != 0x2029
  }

  function EscapeFirst(s: Bytes, html: bool): (r: Chunk)
    requires s != []
    ensures 1 <= r.size <= |s|
  {
    var d := DecodeRune(s);
    if Copied(s, html) then (if Code(s[0]) < 0x80 then Chunk([s[0]], 1) else Chunk(s[..d.size], d.size))
    else if Code(s[0]) < 0x80 then Chunk(EscapeAscii(s[0]), 1)
    else if d.rune == RUNE_ERROR && d.size == 1 then Chunk(REPLACEMENT_ESCAPE, 1)
    else Chunk(['\\', 'u', '2', '0', '2', HexDigit(d.rune % 16)], d.size)
  }

  function Escape(s: Bytes, html: bool): Bytes {
    if s == [] then []
    else
      var e := EscapeFirst(s, html);
      e.out + Escape(s[e.size..], html)
  }

  function Quote(s: Bytes, html: bool): Bytes {
    ['"'] + Escape(s, html) + ['"']
  }

  /** One more rune printed. */
  lemma EscapeStep(written: Bytes, s: Bytes, i: nat, html: bool)
    requires i < |s|
    ensures var e := EscapeFirst(s[i..], html);
            (written + e.out) + Escape(s[i + e.size..], html) == written + Escape(s[i..], html)
  {
    var e := EscapeFirst(s[i..], html);
    assert s[i..][e.size..] == s[i + e.size..];
    Associates(written, e.out, Escape(s[i + e.size..], html));
  }

  lemma Associates(a: Bytes, b: Bytes, c: Bytes)
    ensures a + (b + c) == (a + b) + c
  {
  }

  lemma CopiedAsIs(s: Bytes, i: nat, html: bool)
    requires i < |s| && Copied(s[i..], html)
    ensures var e := EscapeFirst(s[i..], html); e.out == s[i..i + e.size]
  {
    var e := EscapeFirst(s[i..], html);
    assert e.out == s[i..][..e.size] == s[i..i + e.size];
  }

  lemma Joined(out: Bytes, s: Bytes, start: nat, i: nat, j: nat)
    requires start <= i <= j <= |s|
    ensures (out + s[start..i]) + s[i..j] == out + s[start..j]
  {
  }

  /** With `written` printed for the first `i` bytes, printing the rest completes `whole`. */
  ghost predicate Written(s: Bytes, html: bool, whole: Bytes, written: Bytes, i: nat)
    requires i <= |s|
    decreases |s| - i
  {
    if i == |s| then written == whole
    else
      var e := EscapeFirst(s[i..], html);
      Written(s, html, whole, written + e.out, i + e.size)
  }

  lemma WrittenLast(s: Bytes, html: bool, written: Bytes)
    ensures Written(s, html, written + Escape(s[|s|..], html), written, |s|)
  {
    assert written + [] == written;
  }

  lemma WrittenBefore(s: Bytes, html: bool, written: Bytes, i: nat)
    requires i < |s|
    requires var e := EscapeFirst(s[i..], html);
             Written(s, html, (written + e.out) + Escape(s[i + e.size..], html), written + e.out, i + e.size)
    ensures Written(s, html, written + Escape(s[i..], html), written, i)
  {
    EscapeStep(written, s, i, html);
  }

  lemma {:induction false} WrittenFrom(s: Bytes, html: bool, written: Bytes, i: nat)
    requires i <= |s|
    ensures Written(s, html, written + Escape(s[i..], html), written, i)
    decreases |s| - i
  {
    if i == |s| {
      WrittenLast(s, html, written);
    } else {
      var e := EscapeFirst(s[i..], html);
      WrittenFrom(s, html, written + e.out, i + e.size);
      WrittenBefore(s, html, written, i);
    }
  }

  lemma WrittenStep(s: Bytes, html: bool, whole: Bytes, written: Bytes, i: nat)
    requires i < |s| && Written(s, html, whole, written, i)
    ensures var e := EscapeFirst(s[i..], html);
            && Written(s, html, whole, written + e.out, i + e.size)
            && (Copied(s[i..], html) ==> e.out == s[i..i + e.size])
  {
    if Copied(s[i..], html) {
      CopiedAsIs(s, i, html);
    }
  }

  /** One turn of the loop of `string`: extends the run that is copied, or writes it out and escapes a rune. */
  method EscapeNext(s: Bytes, html: bool, ghost whole: Bytes, done: Bytes, begin: nat, at: nat)
    returns (out: Bytes, start: nat, i: nat)
    requires begin <= at < |s| && Written(s, html, whole, done + s[begin..at], at)
    ensures start <= i <= |s| && at < i && Written(s, html, whole, out + s[start..i], i)
  {
    var e := EscapeFirst(s[at..], html);
    WrittenStep(s, html, whole, done + s[begin..at], at);
    out, start := Emit(s, html, whole, done, begin, at, e, Copied(s[at..], html));
    i := at + e.size;
  }

  method Emit(s: Bytes, ghost html: bool, ghost whole: Bytes, done: Bytes, begin: nat, at: nat, e: Chunk, copied: bool)
    returns (out: Bytes, start: nat)
    requires begin <= at && at + e.size <= |s|
    requires Written(s, html, whole, done + s[begin..at] + e.out, at + e.size)
    requires copied ==> e.out == s[at..at + e.size]
    ensures start <= at + e.size && Written(s, html, whole, out + s[start..at + e.size], at + e.size)
  {
    if copied {
      Rejoined(s, html, whole, done, begin, at, e.out, at + e.size);
      out, start := done, begin;
    } else {
      EmptyRun(s, html, whole, done + s[begin..at] + e.out, at + e.size);
      out := Flush(done, s, begin, at);
      out, start := out + e.out, at + e.size;
    }
  }

  lemma Rejoined(s: Bytes, html: bool, whole: Bytes, done: Bytes, begin: nat, at: nat, run: Bytes, i: nat)
    requires begin <= at <= i <= |s| && run == s[at..i] && Written(s, html, whole, done + s[begin..at] + run, i)
    ensures Written(s, html, whole, done + s[begin..i], i)
  {
    Joined(done, s, begin, at, i);
  }

  lemma EmptyRun(s: Bytes, html: bool, whole: Bytes, written: Bytes, i: nat)
    requires i <= |s| && Written(s, html, whole, written, i)
    ensures Written(s, html, whole, written + s[i..i], i)
  {
    assert written + s[i..i] == written;
  }

  /** `string` and `stringBytes`: runs of copied bytes are written in one piece. */
  method WriteString(s: Bytes, escapeHTML: bool) returns (out: Bytes)
    ensures out == Quote(s, escapeHTML)
  {
    out := ['"'];
    ghost var whole := out + Escape(s, escapeHTML);
    var start, i := 0, 0;
    assert s[0..] == s && out + s[0..0] == out;
    WrittenFrom(s, escapeHTML, out, 0);
    while i < |s|
      invariant 0 <= start <= i <= |s| && Written(s, escapeHTML, whole, out + s[start..i], i)
      decreases |s| - i
    {
      out, start, i := EscapeNext(s, escapeHTML, whole, out, start, i);
    }
    out := Flush(out, s, start, |s|);
    out := out + ['"'];
  }

  method Flush(written: Bytes, s: Bytes, start: nat, i: nat) returns (out: Bytes)
    requires start <= i <= |s|
    ensures out == written + s[start..i]
  {
    if start < i {
      out := written + s[start..i];
    } else {
      out := written;
    }
  }

  // ----- parsing -----

  function HexValue(c: Byte): int
    requires IsHex(c)
  {
    if c <= '9' then c as int - '0' as int
    else if c >= 'a' then c as int - 'a' as int + 10
    else c as int - 'A' as int + 10
  }

  /** `getu4`. */
  function Getu4(s: Bytes): int {
    if |s| < 6 || s[0] != '\\' || s[1] != 'u' then -1
    else if !(IsHex(s[2]) && IsHex(s[3]) && IsHex(s[4]) && IsHex(s[5])) then -1
    else HexValue(s[2]) * 4096 + HexValue(s[3]) * 256 + HexValue(s[4]) * 16 + HexValue(s[5])
  }

  predicate IsSurrogate(r: int) {
    0xD800 <= r < 0xE000
  }

  /** `utf16.DecodeRune`. */
  function DecodeSurrogates(r1: int, r2: int): int {
    if 0xD800 <= r1 < 0xDC00 && 0xDC00 <= r2 < 0xE000 then (r1 - 0xD800) * 1024 + (r2 - 0xDC00) + 0x10000 else RUNE_ERROR
  }

  function UnescapeUnicode(s: Bytes): (r: Option<Chunk>)
    requires |s| >= 2 && s[0] == '\\' && s[1] == 'u'
    ensures r.Some? ==> 1 <= r.value.size <= |s| && 1 <= |r.value.out| <= UTF_MAX
  {
    var rr := Getu4(s);
    if rr < 0 then None
    else if IsSurrogate(rr) then
      var dec := DecodeSurrogates(rr, Getu4(s[6..]));
      if dec != RUNE_ERROR then Some(Chunk(EncodeRune(dec), 12)) else Some(Chunk(EncodeRune(RUNE_ERROR), 6))
    else Some(Chunk(EncodeRune(rr), 6))
  }

  /** One turn of the second loop of `unquoteBytes`. */
  function UnescapeFirst(s: Bytes): (r: Option<Chunk>)
    requires s != []
    ensures r.Some? ==> 1 <= r.value.size <= |s| && 1 <= |r.value.out| <= UTF_MAX
  {
    if s[0] == '\\' then
      if |s| < 2 then None
      else if s[1] == '"' || s[1] == '\\' || s[1] == '/' || s[1] == '\'' then Some(Chunk([s[1]], 2))
      else if s[1] == 'b' then Some(Chunk([ByteOf(8)], 2))
      else if s[1] == 'f' then Some(Chunk([ByteOf(12)], 2))
      else if s[1] == 'n' then Some(Chunk(['\n'], 2))
      else if s[1] == 'r' then Some(Chunk(['\r'], 2))
      else if s[1] == 't' then Some(Chunk(['\t'], 2))
      else if s[1] == 'u' then UnescapeUnicode(s)
      else None
    else if s[0] == '"' || s[0] < ' ' then None
    else if Code(s[0]) < 0x80 then Some(Chunk([s[0]], 1))
    else
      var d := DecodeRune(s);
      Some(Chunk(EncodeRune(d.rune), d.size))
  }

  function Prepend(b: Bytes, r: Option<Bytes>): Option<Bytes> {
    if r.Some? then Some(b + r.value) else None
  }

  function Unescape(s: Bytes): Option<Bytes> {
    if s == [] then Some([])
    else
      var u := UnescapeFirst(s);
      if u.None? then None else Prepend(u.value.out, Unescape(s[u.value.size..]))
  }

  function Unquote(s: Bytes): Option<Bytes> {
    if |s| < 2 || s[0] != '"' || s[|s| - 1] != '"' then None else Unescape(s[1..|s| - 1])
  }

  // ----- the round trip -----

  /** The first rune with an invalid byte replaced by U+FFFD. */
  function RepairFirst(s: Bytes): (r: Chunk)
    requires s != []
    ensures 1 <= r.size <= |s|
  {
    var d := DecodeRune(s);
    if Utf8.WellFormed(s, d.size) then Chunk(s[..d.size], d.size) else Chunk(EncodeRune(RUNE_ERROR), 1)
  }

  function Repair(s: Bytes): Bytes {
    if s == [] then []
    else
      var r := RepairFirst(s);
      r.out + Repair(s[r.size..])
  }

  predicate ValidUtf8(s: Bytes) {
    s == [] || (var k := DecodeRune(s).size; Utf8.WellFormed(s, k) && ValidUtf8(s[k..]))
  }

  /** Repairing lengthens a string by two bytes for each invalid one, so only valid strings are unchanged. */
  lemma {:induction false} RepairsExactly(s: Bytes)
    ensures |Repair(s)| >= |s|
    ensures if ValidUtf8(s) then Repair(s) == s else |Repair(s)| > |s|
  {
    if s != [] {
      var k := DecodeRune(s).size;
      RepairsExactly(s[k..]);
      if Utf8.WellFormed(s, k) {
        assert s == s[..k] + s[k..];
      } else {
        DecodesWellFormed(s);
        assert |EncodeRune(RUNE_ERROR)| == 3;
      }
    }
  }

  lemma HexBack(n: int)
    requires 0 <= n < 16
    ensures IsHex(HexDigit(n)) && HexValue(HexDigit(n)) == n
  {
  }

  /** An escaped ASCII byte is read back. */
  lemma AsciiBack(c: Byte, rest: Bytes)
    requires Code(c) < 0x80
    ensures UnescapeFirst(EscapeAscii(c) + rest) == Some(Chunk([c], |EscapeAscii(c)|))
  {
    var n := Code(c);
    HexBack(n / 16);
    HexBack(n % 16);
    var e := EscapeAscii(c) + rest;
    if |EscapeAscii(c)| == 6 {
      assert Getu4(e) == n / 16 * 16 + n % 16 == n;
    }
  }

  lemma UnicodeBack(e: Bytes, rest: Bytes, r: int)
    requires |e| == 6 && Getu4(e) == r && r >= 0 && !IsSurrogate(r)
    ensures UnescapeFirst(e + rest) == Some(Chunk(EncodeRune(r), 6))
  {
    assert Getu4(e + rest) == r;
  }

  lemma RawBack(s: Bytes, k: nat, rest: Bytes)
    requires Utf8.WellFormed(s, k) && Code(s[0]) >= 0x80
    ensures UnescapeFirst(s[..k] + rest) == Some(Chunk(s[..k], k))
  {
    var t := s[..k] + rest;
    assert t[..k] == s[..k] && t[0] == s[0];
    PrefixDecides(s, t, k);
    DecodesWellFormed(t);
    EncodeDecoded(s, k);
  }

  lemma SeparatorBack(s: Bytes, rest: Bytes)
    requires s != [] && (DecodeRune(s).rune == 0x2028 || DecodeRune(s).rune == 0x2029)
    ensures var e := ['\\', 'u', '2', '0', '2', HexDigit(DecodeRune(s).rune % 16)];
            UnescapeFirst(e + rest) == Some(Chunk(s[..DecodeRune(s).size], 6))
  {
    var d := DecodeRune(s);
    var e := ['\\', 'u', '2', '0', '2', HexDigit(d.rune % 16)];
    DecodesWellFormed(s);
    EncodeDecoded(s, d.size);
    HexBack(d.rune % 16);
    assert Getu4(e) == d.rune;
    UnicodeBack(e, rest, d.rune);
  }

  /** Whatever is printed for the first rune is read back as that rune, repaired. */
  lemma ChunkBack(s: Bytes, html: bool, rest: Bytes)
    requires s != []
    ensures var e, r := EscapeFirst(s, html), RepairFirst(s);
            e.size == r.size && UnescapeFirst(e.out + rest) == Some(Chunk(r.out, |e.out|))
  {
    DecodesWellFormed(s);
    var d := DecodeRune(s);
    if Code(s[0]) < 0x80 {
      assert s[..1] == [s[0]];
      if !Copied(s, html) {
        AsciiBack(s[0], rest);
      }
    } else if !Utf8.WellFormed(s, d.size) {
      UnicodeBack(REPLACEMENT_ESCAPE, rest, RUNE_ERROR);
    } else if d.rune == 0x2028 || d.rune == 0x2029 {
      SeparatorBack(s, rest);
    } else {
      RawBack(s, d.size, rest);
    }
  }

  /** Reading back what was printed gives the string, repaired. */
  lemma {:induction false} EscapeRoundTrip(s: Bytes, html: bool)
    ensures Unescape(Escape(s, html)) == Some(Repair(s))
    decreases |s|
  {
    if s != [] {
      var e := EscapeFirst(s, html);
      var rest := Escape(s[e.size..], html);
      ChunkBack(s, html, rest);
      EscapeRoundTrip(s[e.size..], html);
      assert (e.out + rest)[|e.out|..] == rest;
    }
  }

  /** The round trip restores the string exactly when it is valid UTF-8. */
  lemma QuoteRoundTrip(s: Bytes, html: bool)
    ensures Unquote(Quote(s, html)) == Some(Repair(s))
    ensures Unquote(Quote(s, html)) == Some(s) <==> ValidUtf8(s)
  {
    var q := Quote(s, html);
    assert q[1..|q| - 1] == Escape(s, html);
    EscapeRoundTrip(s, html);
    RepairsExactly(s);
  }

  lemma {:induction false} AsciiIsValid(s: Bytes)
    requires forall i :: 0 <= i < |s| ==> Code(s[i]) < 0x80
    ensures ValidUtf8(s)
  {
    if s != [] {
      AsciiIsValid(s[1..]);
    }
  }

  /** Every ASCII string survives the round trip. */
  lemma AsciiRoundTrip(s: Bytes, html: bool)
    requires forall i :: 0 <= i < |s| ==> Code(s[i]) < 0x80
    ensures Unquote(Quote(s, html)) == Some(s)
  {
    AsciiIsValid(s);
    QuoteRoundTrip(s, html);
  }

  // ----- the printed string is a string literal -----

  lemma {:induction false} PlainExtends(chars: Bytes, b: Bytes)
    requires IsChars(chars) && forall i :: 0 <= i < |b| ==> IsPlain(b[i])
    ensures IsChars(chars + b)
    decreases |b|
  {
    if b == [] {
      assert chars + b == chars;
    } else {
      ScannerSound.CharsSnoc(chars, b[0]);
      PlainExtends(chars + [b[0]], b[1..]);
      assert chars + [b[0]] + b[1..] == chars + b;
    }
  }

  lemma EscapeExtends(chars: Bytes, e: Bytes)
    requires IsChars(chars) && |e| == 2 && e[0] == '\\' && IsEscaped(e[1])
    ensures IsChars(chars + e)
  {
    assert e == ['\\', e[1]];
    ScannerSound.CharsEscape(chars, e[1]);
  }

  lemma UnicodeExtends(chars: Bytes, e: Bytes)
    requires IsChars(chars) && |e| == 6 && e[0] == '\\' && e[1] == 'u'
    requires IsHex(e[2]) && IsHex(e[3]) && IsHex(e[4]) && IsHex(e[5])
    ensures IsChars(chars + e)
  {
    ScannerSound.CharsUnicode(chars, e[2..]);
    assert chars + ['\\', 'u'] + e[2..] == chars + e;
  }

  lemma AsciiExtends(chars: Bytes, c: Byte)
    requires IsChars(chars) && Code(c) < 0x80
    ensures IsChars(chars + EscapeAscii(c))
  {
    var e := EscapeAscii(c);
    if |e| == 2 {
      EscapeExtends(chars, e);
    } else {
      HexBack(Code(c) / 16);
      HexBack(Code(c) % 16);
      UnicodeExtends(chars, e);
    }
  }

  /** Bytes copied for one rune need no escape. */
  lemma CopiedPlain(s: Bytes, html: bool)
    requires s != [] && Copied(s, html)
    ensures var out := EscapeFirst(s, html).out; forall i :: 0 <= i < |out| ==> IsPlain(out[i])
  {
    DecodesWellFormed(s);
  }

  lemma ChunkExtends(chars: Bytes, s: Bytes, html: bool)
    requires s != [] && IsChars(chars)
    ensures IsChars(chars + EscapeFirst(s, html).out)
  {
    var e, d := EscapeFirst(s, html), DecodeRune(s);
    if Copied(s, html) {
      CopiedPlain(s, html);
      PlainExtends(chars, e.out);
    } else if Code(s[0]) < 0x80 {
      AsciiExtends(chars, s[0]);
    } else {
      HexBack(d.rune % 16);
      UnicodeExtends(chars, e.out);
    }
  }

  lemma {:induction false} EscapeChars(chars: Bytes, s: Bytes, html: bool)
    requires IsChars(chars)
    ensures IsChars(chars + Escape(s, html))
    decreases |s|
  {
    if s == [] {
      assert chars + [] == chars;
    } else {
      var e := EscapeFirst(s, html);
      ChunkExtends(chars, s, html);
      EscapeChars(chars + e.out, s[e.size..], html);
      EscapeAfter(chars, s, html);
    }
  }

  lemma EscapeAfter(chars: Bytes, s: Bytes, html: bool)
    requires s != []
    ensures var e := EscapeFirst(s, html);
            (chars + e.out) + Escape(s[e.size..], html) == chars + Escape(s, html)
  {
    var e := EscapeFirst(s, html);
    Assoc(chars, e.out, Escape(s[e.size..], html));
  }

  lemma Assoc(a: Bytes, b: Bytes, c: Bytes)
    ensures (a + b) + c == a + (b + c)
  {
  }

  /** The scanner reads a quoted string as one string literal and nothing else. */
  lemma QuotedIsString(s: Bytes, html: bool)
    ensures IsString(Quote(s, html))
    ensures Scanner.Run(Scanner.START, Quote(s, html)) == Scanner.START.(step := Scanner.EndValue)
    ensures Scanner.Accepted(Quote(s, html))
  {
    QuotedShape(s, html);
    ScannerComplete.RunString(Scanner.START, Quote(s, html));
    StringIsText(Quote(s, html));
    ScannerSound.AcceptsExactlyJson(Quote(s, html));
  }

  lemma QuotedShape(s: Bytes, html: bool)
    ensures IsString(Quote(s, html))
  {
    EscapeChars([], s, html);
    assert [] + Escape(s, html) == Escape(s, html);
    assert Quote(s, html)[1..|Quote(s, html)| - 1] == Escape(s, html);
  }

  lemma StringIsText(q: Bytes)
    requires IsString(q)
    ensures IsText(q)
  {
    assert q[..0] == [] && q[0..|q|] == q && q[|q|..] == [];
    assert IsValue(q);
  }

  // ----- parsing into a buffer -----

  /** Whether the first loop of `unquoteBytes` passes over the front of the string. */
  predicate Usual(s: Bytes)
    requires s != []
  {
    && s[0] != '\\' && s[0] != '"' && s[0] >= ' '
    && (Code(s[0]) >= 0x80 ==> !(DecodeRune(s).rune == RUNE_ERROR && DecodeRune(s).size == 1))
  }

  lemma UsualFirst(s: Bytes)
    requires s != [] && Usual(s)
    ensures var k := if Code(s[0]) < 0x80 then 1 else DecodeRune(s).size;
            UnescapeFirst(s) == Some(Chunk(s[..k], k))
  {
    DecodesWellFormed(s);
    if Code(s[0]) < 0x80 {
      assert s[..1] == [s[0]];
    } else {
      EncodeDecoded(s, DecodeRune(s).size);
    }
  }

  lemma PrependConcat(a: Bytes, b: Bytes, r: Option<Bytes>)
    ensures Prepend(a, Prepend(b, r)) == Prepend(a + b, r)
  {
    if r.Some? {
      assert a + (b + r.value) == (a + b) + r.value;
    }
  }

  lemma PrependNothing(r: Option<Bytes>)
    ensures Prepend([], r) == r
  {
    if r.Some? {
      assert [] + r.value == r.value;
    }
  }

  /** One turn of either loop: what was written and what is left stay the answer together. */
  lemma UnescapeStep(written: Bytes, s: Bytes, r: nat)
    requires r < |s|
    ensures var u := UnescapeFirst(s[r..]);
            if u.None? then Unescape(s[r..]) == None
            else Prepend(written, Unescape(s[r..])) == Prepend(written + u.value.out, Unescape(s[r + u.value.size..]))
  {
    var u := UnescapeFirst(s[r..]);
    if u.Some? {
      assert s[r..][u.value.size..] == s[r + u.value.size..];
      PrependConcat(written, u.value.out, Unescape(s[r + u.value.size..]));
    }
  }

  ghost predicate Parsed(s: Bytes, written: Bytes, r: nat)
    requires r <= |s|
  {
    Unescape(s) == Prepend(written, Unescape(s[r..]))
  }

  lemma ParsedStep(s: Bytes, written: Bytes, r: nat)
    requires r < |s| && Parsed(s, written, r)
    ensures var u := UnescapeFirst(s[r..]);
            if u.None? then Unescape(s) == None else Parsed(s, written + u.value.out, r + u.value.size)
  {
    UnescapeStep(written, s, r);
  }

  lemma ParsedAll(s: Bytes, written: Bytes)
    requires Parsed(s, written, |s|)
    ensures Unescape(s) == Some(written)
  {
    assert s[|s|..] == [] && written + [] == written;
  }

  /** The first loop: how much of the string needs no unquoting. */
  method SkipUsual(s: Bytes) returns (r: nat)
    ensures r <= |s| && Parsed(s, s[..r], r)
  {
    r := 0;
    assert s[0..] == s && s[..0] == [];
    PrependNothing(Unescape(s));
    while r < |s|
      invariant 0 <= r <= |s| && Parsed(s, s[..r], r)
      decreases |s| - r
    {
      if !Usual(s[r..]) {
        break;
      }
      UsualStep(s, r);
      r := r + (if Code(s[r]) < 0x80 then 1 else DecodeRune(s[r..]).size);
    }
  }

  lemma UsualStep(s: Bytes, r: nat)
    requires r < |s| && Usual(s[r..]) && Parsed(s, s[..r], r)
    ensures var k := if Code(s[r]) < 0x80 then 1 else DecodeRune(s[r..]).size;
            Parsed(s, s[..r + k], r + k)
  {
    var k := if Code(s[r]) < 0x80 then 1 else DecodeRune(s[r..]).size;
    UsualFirst(s[r..]);
    ParsedStep(s, s[..r], r);
    SliceGrows(s, r, k);
  }

  lemma SliceGrows(s: Bytes, r: nat, k: nat)
    requires r + k <= |s|
    ensures s[..r] + s[r..][..k] == s[..r + k]
  {
  }

  /** Copies what a turn produced into the buffer, which has room for it. */
  method Put(b: array<Byte>, w: nat, out: Bytes)
    requires w + |out| <= b.Length
    modifies b
    ensures b[..w + |out|] == old(b[..w]) + out
  {
    ghost var was := b[..w];
    for i := 0 to |out|
      invariant b[..w + i] == was + out[..i]
    {
      b[w + i] := out[i];
      assert out[..i + 1] == out[..i] + [out[i]];
      assert b[..w + i + 1] == b[..w + i] + [out[i]];
    }
    assert out[..|out|] == out;
  }

  /** A buffer at least twice as long that begins like the given one. */
  method Grow(b: array<Byte>, w: nat) returns (nb: array<Byte>)
    requires w <= b.Length
    ensures fresh(nb) && nb.Length == (b.Length + UTF_MAX) * 2
    ensures nb[..w] == b[..w] == old(b[..w])
  {
    nb := new Byte[(b.Length + UTF_MAX) * 2](_ => ' ');
    assert nb[..0] == [];
    Put(nb, 0, b[..w]);
  }

  /** Makes room for the longest rune, then writes. */
  method PutGrowing(b: array<Byte>, w: nat, out: Bytes) returns (nb: array<Byte>)
    requires w <= b.Length && |out| <= UTF_MAX
    modifies b
    ensures nb == b || fresh(nb)
    ensures w + |out| <= nb.Length && nb[..w + |out|] == old(b[..w]) + out
  {
    nb := b;
    if w + 2 * UTF_MAX >= b.Length {
      nb := Grow(b, w);
    }
    Put(nb, w, out);
  }

  method DecodeNext(s: Bytes, r: nat, ghost written: Bytes) returns (u: Option<Chunk>)
    requires r < |s| && Parsed(s, written, r)
    ensures u.None? ==> Unescape(s) == None
    ensures u.Some? ==>
              && 1 <= u.value.size && r + u.value.size <= |s| && |u.value.out| <= UTF_MAX
              && Parsed(s, written + u.value.out, r + u.value.size)
  {
    ParsedStep(s, written, r);
    u := UnescapeFirst(s[r..]);
  }

  /** The buffer the second loop fills, with what the first loop passed over. */
  method NewBuffer(s: Bytes, prefix: nat) returns (b: array<Byte>)
    requires prefix <= |s|
    ensures fresh(b) && prefix <= b.Length && b[..prefix] == s[..prefix]
  {
    b := new Byte[|s| + 2 * UTF_MAX](_ => ' ');
    assert b[..0] == [];
    Put(b, 0, s[..prefix]);
    assert [] + s[..prefix] == s[..prefix];
  }

  /** The second loop. */
  method UnquoteRest(s: Bytes, prefix: nat) returns (ok: bool, t: Bytes)
    requires prefix <= |s| && Parsed(s, s[..prefix], prefix)
    ensures ok == Unescape(s).Some? && (ok ==> Unescape(s) == Some(t))
  {
    var b := NewBuffer(s, prefix);
    var r, w := prefix, prefix;
    ghost var written := s[..r];
    while r < |s|
      invariant 0 <= r <= |s| && 0 <= w <= b.Length && fresh(b)
      invariant b[..w] == written && Parsed(s, written, r)
      decreases |s| - r
    {
      var u := DecodeNext(s, r, written);
      if u.None? {
        return false, [];
      }
      b := PutGrowing(b, w, u.value.out);
      written := written + u.value.out;
      w, r := w + |u.value.out|, r + u.value.size;
    }
    ParsedAll(s, written);
    return true, b[..w];
  }

  /** `unquoteBytes`: no write is past the end of the buffer. */
  method UnquoteBytes(quoted: Bytes) returns (ok: bool, t: Bytes)
    ensures ok == Unquote(quoted).Some?
    ensures ok ==> Unquote(quoted) == Some(t)
  {
    if |quoted| < 2 || quoted[0] != '"' || quoted[|quoted| - 1] != '"' {
      return false, [];
    }
    var s := quoted[1..|quoted| - 1];
    var r := SkipUsual(s);
    assert Parsed(s, s[..r], r);
    if r == |s| {
      ParsedAll(s, s[..r]);
      assert s[..r] == s;
      return true, s;
    }
    ok, t := UnquoteRest(s, r);
  }
}
