/** What the string printer of utils/jsonext/encode.go escapes, and that it escapes nothing else. */
module JsonEscaping {
  import opened JsonGrammar
  import opened Utf8
  import opened JsonString

  /** A byte that has a meaning in HTML. */
  predicate IsMarkup(c: Byte) {
    c == '<' || c == '>' || c == '&'
  }

  /** U+2028 or U+2029 in UTF-8, the two separators that end a line in JavaScript. */
  predicate SeparatorAt(b: Bytes, i: nat) {
    i + 3 <= |b| && Code(b[i]) == 0xE2 && Code(b[i + 1]) == 0x80 && (Code(b[i + 2]) == 0xA8 || Code(b[i + 2]) == 0xA9)
  }

  ghost predicate NoSeparator(b: Bytes) {
    forall i: nat :: !SeparatorAt(b, i)
  }

  ghost predicate NoMarkup(b: Bytes) {
    forall i :: 0 <= i < |b| ==> !IsMarkup(b[i])
  }

  /** Valid UTF-8 in which nothing needs an escape. */
  ghost predicate PrintsAsIs(s: Bytes, html: bool) {
    && ValidUtf8(s) && NoSeparator(s) && (html ==> NoMarkup(s))
    && forall i :: 0 <= i < |s| ==> IsPlain(s[i])
  }

  // ----- one rune -----

  lemma SeparatorRune(s: Bytes)
    requires WellFormed(s, 3)
    ensures SeparatorAt(s, 0) <==> RuneOf(s, 3) == 0x2028 || RuneOf(s, 3) == 0x2029
  {
  }

  /** Only the first byte of a rune can begin a separator. */
  lemma SeparatorStarts(s: Bytes, k: nat, i: nat)
    requires WellFormed(s, k) && i < k && SeparatorAt(s, i)
    ensures i == 0 && k == 3
  {
  }

  ghost predicate FirstAsIs(s: Bytes, html: bool)
    requires s != []
  {
    var k := DecodeRune(s).size;
    && WellFormed(s, k) && !SeparatorAt(s, 0)
    && (k == 1 ==> IsPlain(s[0]) && (html ==> !IsMarkup(s[0])))
  }

  lemma CopiedIff(s: Bytes, html: bool)
    requires s != []
    ensures Copied(s, html) <==> FirstAsIs(s, html)
  {
    DecodesWellFormed(s);
    var k := DecodeRune(s).size;
    if WellFormed(s, k) {
      RuneRange(s, k);
      if k == 3 {
        SeparatorRune(s);
      } else if SeparatorAt(s, 0) {
        SeparatorStarts(s, k, 0);
      }
    }
  }

  lemma FirstSize(s: Bytes, html: bool)
    requires s != []
    ensures var e, k := EscapeFirst(s, html), DecodeRune(s).size;
            && e.size == k
            && (if Copied(s, html) then e.out == s[..k] else |e.out| > k)
  {
    DecodesWellFormed(s);
    if Code(s[0]) < 0x80 {
      assert s[..1] == [s[0]];
    }
  }

  lemma FirstOfPlain(s: Bytes, html: bool)
    requires s != []
    ensures PrintsAsIs(s, html) <==> FirstAsIs(s, html) && PrintsAsIs(s[DecodeRune(s).size..], html)
  {
    var k := DecodeRune(s).size;
    var rest := s[k..];
    assert forall i :: 0 <= i < |rest| ==> rest[i] == s[k + i];
    assert forall i: nat :: SeparatorAt(rest, i) <==> SeparatorAt(s, k + i);
    if FirstAsIs(s, html) && PrintsAsIs(rest, html) {
      forall i: nat ensures !SeparatorAt(s, i) {
        if i >= k {
          assert !SeparatorAt(rest, i - k);
        } else if SeparatorAt(s, i) {
          SeparatorStarts(s, k, i);
        }
      }
      forall i | 0 <= i < |s| ensures IsPlain(s[i]) && (html ==> !IsMarkup(s[i])) {
        if i >= k {
          assert s[i] == rest[i - k];
        }
      }
    }
  }

  /** One step: a string that prints as it is begins with a rune that does. */
  lemma FrontAsIs(s: Bytes, html: bool)
    requires s != []
    ensures var e, p := EscapeFirst(s, html), PrintsAsIs(s[EscapeFirst(s, html).size..], html);
            && |e.out| >= e.size
            && (PrintsAsIs(s, html) ==> e.out == s[..e.size] && p)
            && (!PrintsAsIs(s, html) ==> |e.out| > e.size || !p)
  {
    FirstSize(s, html);
    CopiedIff(s, html);
    FirstOfPlain(s, html);
  }

  // ----- a whole string -----

  lemma PrintedWhole(out: Bytes, s: Bytes, k: nat, rest: Bytes)
    requires k <= |s| && out == s[..k] && rest == s[k..]
    ensures out + rest == s
  {
  }

  /**
   A string is printed as it is exactly when it is valid UTF-8 without control
   characters, quotes, backslashes, line separators and, for HTML, markup; any other
   one gets longer.
   */
  lemma {:induction false} EscapesExactly(s: Bytes, html: bool)
    ensures |Escape(s, html)| >= |s|
    ensures if PrintsAsIs(s, html) then Escape(s, html) == s else |Escape(s, html)| > |s|
    decreases |s|
  {
    if s != [] {
      var e := EscapeFirst(s, html);
      EscapesExactly(s[e.size..], html);
      FrontAsIs(s, html);
      if PrintsAsIs(s, html) {
        PrintedWhole(e.out, s, e.size, Escape(s[e.size..], html));
      }
    }
  }

  /** ASCII, or one longer rune that is no separator. */
  ghost predicate Apart(out: Bytes) {
    || (forall i :: 0 <= i < |out| ==> Code(out[i]) < 0x80)
    || (WellFormed(out, |out|) && !SeparatorAt(out, 0) && |out| > 1)
  }

  lemma AsciiHarmless(c: Byte, html: bool)
    requires Code(c) < 0x80
    ensures var out := EscapeAscii(c);
            forall i :: 0 <= i < |out| ==> Code(out[i]) < 0x80 && (out[i] == c || !IsMarkup(out[i]))
    ensures IsMarkup(c) ==> c !in EscapeAscii(c)
  {
    HexBack(Code(c) / 16);
    HexBack(Code(c) % 16);
  }

  lemma CopiedHarmless(s: Bytes, html: bool)
    requires s != [] && Copied(s, html)
    ensures Apart(EscapeFirst(s, html).out) && (html ==> NoMarkup(EscapeFirst(s, html).out))
  {
    CopiedIff(s, html);
    FirstSize(s, html);
    var k := DecodeRune(s).size;
    PrefixDecides(s, s[..k], k);
  }

  lemma ChunkHarmless(s: Bytes, html: bool)
    requires s != []
    ensures Apart(EscapeFirst(s, html).out) && (html ==> NoMarkup(EscapeFirst(s, html).out))
  {
    if Copied(s, html) {
      CopiedHarmless(s, html);
    } else if Code(s[0]) < 0x80 {
      AsciiHarmless(s[0], html);
    } else {
      HexBack(DecodeRune(s).rune % 16);
    }
  }

  lemma SeparatorApart(a: Bytes, b: Bytes, i: nat)
    requires Apart(a) && NoSeparator(b)
    ensures !SeparatorAt(a + b, i)
  {
    var s := a + b;
    if SeparatorAt(s, i) {
      if i >= |a| {
        assert SeparatorAt(b, i - |a|);
      } else if Code(a[i]) >= 0x80 {
        assert s[..|a|] == a;
        PrefixDecides(a, s, |a|);
        SeparatorStarts(s, |a|, i);
        assert SeparatorAt(a, 0);
      }
    }
  }

  /** What is printed never holds a line separator, and no markup when HTML is to be escaped. */
  lemma {:induction false} EscapedHarmless(s: Bytes, html: bool)
    ensures NoSeparator(Escape(s, html)) && (html ==> NoMarkup(Escape(s, html)))
    decreases |s|
  {
    if s != [] {
      var e := EscapeFirst(s, html);
      var rest := Escape(s[e.size..], html);
      EscapedHarmless(s[e.size..], html);
      ChunkHarmless(s, html);
      forall i: nat ensures !SeparatorAt(e.out + rest, i) {
        SeparatorApart(e.out, rest, i);
      }
    }
  }

  lemma SeparatorInside(e: Bytes, i: nat)
    ensures SeparatorAt(['"'] + e + ['"'], i) ==> i > 0 && SeparatorAt(e, i - 1)
  {
    var q: Bytes := ['"'] + e + ['"'];
    if SeparatorAt(q, i) {
      assert q[i] == e[i - 1] && q[i + 1] == e[i] && q[i + 2] == e[i + 1];
    }
  }

  lemma QuotesApart(e: Bytes)
    requires NoSeparator(e)
    ensures NoSeparator(['"'] + e + ['"'])
  {
    forall i: nat ensures !SeparatorAt(['"'] + e + ['"'], i) {
      SeparatorInside(e, i);
    }
  }

  lemma QuotedHarmless(s: Bytes, html: bool)
    ensures NoSeparator(Quote(s, html)) && (html ==> NoMarkup(Quote(s, html)))
  {
    EscapedHarmless(s, html);
    QuotesApart(Escape(s, html));
  }
}
