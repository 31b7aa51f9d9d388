/** Every JSON text is accepted: the scanner run over the productions of the grammar. */
module ScannerComplete {
  import opened JsonGrammar
  import opened Scanner

  ghost predicate Begins(s: State) {
    !s.failed && !s.endTop && (s.step == BeginValue || s.step == BeginValueOrEmpty)
  }

  ghost predicate BeginsKey(s: State) {
    !s.failed && !s.endTop && (s.step == BeginString || s.step == BeginStringOrEmpty)
  }

  predicate NumberDone(step: Step) {
    step == One || step == Zero || step == Dot0 || step == Exp0
  }

  /** A value has just been completed inside the containers `stack`. */
  ghost predicate Done(t: State, stack: seq<Parse>) {
    && !t.failed && t.stack == stack
    && if t.endTop then stack == [] && t.step == EndTop else t.step == EndValue || NumberDone(t.step)
  }

  lemma RunSnoc(s: State, b: Bytes, c: Byte)
    ensures Run(s, b + [c]) == After(Run(s, b), c)
  {
    assert (b + [c])[..|b|] == b;
  }

  lemma RunOne(s: State, c: Byte)
    ensures Run(s, [c]) == After(s, c)
  {
    assert [c][..0] == [];
  }

  // ----- white space -----

  lemma {:induction false} BeginWs(s: State, w: Bytes)
    requires (Begins(s) || BeginsKey(s)) && IsWs(w)
    ensures Run(s, w) == s
  {
    if w != [] {
      BeginWs(s, w[..|w| - 1]);
      AfterIs(s, w[|w| - 1]);
    }
  }

  /** After a value, a byte that cannot continue a number is handled as at the end of a value. */
  lemma DoneDelegates(t: State, stack: seq<Parse>, c: Byte)
    requires Done(t, stack) && !t.endTop && !IsDigit(c) && c != '.' && !IsE(c)
    ensures After(t, c) == AtEndValue(t, c).state
  {
    AfterIs(t, c);
  }

  lemma {:induction false} DoneWs(t: State, stack: seq<Parse>, w: Bytes)
    requires Done(t, stack) && IsWs(w)
    ensures Done(Run(t, w), stack)
  {
    if w != [] {
      DoneWs(t, stack, w[..|w| - 1]);
      var u := Run(t, w[..|w| - 1]);
      if u.endTop {
        AfterIs(u, w[|w| - 1]);
      } else {
        DoneDelegates(u, stack, w[|w| - 1]);
      }
    }
  }

  // ----- tokens -----

  lemma RunCons(s: State, c: Byte, b: Bytes)
    ensures Run(s, [c] + b) == Run(After(s, c), b)
  {
    RunOne(s, c);
    RunConcat(s, [c], b);
  }

  lemma RunHead(s: State, b: Bytes)
    requires b != []
    ensures Run(s, b) == Run(After(s, b[0]), b[1..])
  {
    assert b == [b[0]] + b[1..];
    RunCons(s, b[0], b[1..]);
  }

  lemma RunSplit(s: State, b: Bytes, k: nat)
    requires k <= |b|
    ensures Run(s, b) == Run(Run(s, b[..k]), b[k..])
  {
    assert b == b[..k] + b[k..];
    RunConcat(s, b[..k], b[k..]);
  }

  lemma RunThree(s: State, x: Byte, y: Byte, z: Byte)
    ensures Run(s, [x, y, z]) == After(After(After(s, x), y), z)
  {
    assert [x, y, z] == [x] + [y, z] && [y, z] == [y] + [z];
    RunCons(s, x, [y, z]);
    RunCons(After(s, x), y, [z]);
    RunOne(After(After(s, x), y), z);
  }

  lemma BeginGoes(s: State, c: Byte)
    requires Begins(s) && !IsSpace(c) && c != ']'
    ensures After(s, c) == AtBeginValue(s, c).state
  {
    AfterIs(s, c);
  }

  lemma NameGoes(s: State, c: Byte)
    requires NameStep(s.step)
    ensures After(s, c) == InNameMove(s, c).state
  {
    AfterIs(s, c);
  }

  lemma NumberGoes(s: State, c: Byte)
    requires NumberStep(s.step)
    ensures After(s, c) == InNumberMove(s, c).state
  {
    AfterIs(s, c);
  }

  lemma TrueSteps(s: State)
    requires Begins(s)
    ensures After(After(After(After(s, 't'), 'r'), 'u'), 'e') == s.(step := EndValue)
  {
    BeginGoes(s, 't');
    NameGoes(s.(step := T), 'r');
    NameGoes(s.(step := Tr), 'u');
    NameGoes(s.(step := Tru), 'e');
  }

  lemma NullSteps(s: State)
    requires Begins(s)
    ensures After(After(After(After(s, 'n'), 'u'), 'l'), 'l') == s.(step := EndValue)
  {
    BeginGoes(s, 'n');
    NameGoes(s.(step := N), 'u');
    NameGoes(s.(step := Nu), 'l');
    NameGoes(s.(step := Nul), 'l');
  }

  lemma FalseSteps(s: State)
    requires Begins(s)
    ensures After(After(After(After(After(s, 'f'), 'a'), 'l'), 's'), 'e') == s.(step := EndValue)
  {
    BeginGoes(s, 'f');
    NameGoes(s.(step := F), 'a');
    AlseSteps(s.(step := Fa));
  }

  lemma AlseSteps(s: State)
    requires s.step == Fa
    ensures After(After(After(s, 'l'), 's'), 'e') == s.(step := EndValue)
  {
    NameGoes(s, 'l');
    NameGoes(s.(step := Fal), 's');
    NameGoes(s.(step := Fals), 'e');
  }

  lemma RunName(s: State, b: Bytes)
    requires Begins(s) && IsName(b)
    ensures Run(s, b) == s.(step := EndValue)
  {
    if b == ['t', 'r', 'u', 'e'] {
      assert b == ['t'] + ['r', 'u', 'e'];
      RunCons(s, 't', ['r', 'u', 'e']);
      RunThree(After(s, 't'), 'r', 'u', 'e');
      TrueSteps(s);
    } else if b == ['n', 'u', 'l', 'l'] {
      assert b == ['n'] + ['u', 'l', 'l'];
      RunCons(s, 'n', ['u', 'l', 'l']);
      RunThree(After(s, 'n'), 'u', 'l', 'l');
      NullSteps(s);
    } else {
      assert b == ['f'] + (['a'] + ['l', 's', 'e']);
      RunCons(s, 'f', ['a'] + ['l', 's', 'e']);
      RunCons(After(s, 'f'), 'a', ['l', 's', 'e']);
      RunThree(After(After(s, 'f'), 'a'), 'l', 's', 'e');
      FalseSteps(s);
    }
  }

  lemma {:induction false} RunChars(s: State, b: Bytes)
    requires s.step == InString && IsChars(b)
    ensures Run(s, b) == s
  {
    var n := |b|;
    if b == [] {
    } else if IsChars(b[..n - 1]) && IsPlain(b[n - 1]) {
      RunChars(s, b[..n - 1]);
      AfterIs(s, b[n - 1]);
    } else if n >= 2 && IsChars(b[..n - 2]) && b[n - 2] == '\\' && IsEscaped(b[n - 1]) {
      RunChars(s, b[..n - 2]);
      assert b[..n - 1] == b[..n - 2] + ['\\'];
      RunSnoc(s, b[..n - 2], '\\');
      AfterIs(s, '\\');
      AfterIs(s.(step := InStringEsc), b[n - 1]);
    } else {
      RunChars(s, b[..n - 6]);
      RunUnicodeEscape(s, b);
    }
  }

  lemma RunUnicodeEscape(s: State, b: Bytes)
    requires s.step == InString
    requires var n := |b|;
             && n >= 6 && b[n - 6] == '\\' && b[n - 5] == 'u'
             && IsHex(b[n - 4]) && IsHex(b[n - 3]) && IsHex(b[n - 2]) && IsHex(b[n - 1])
             && Run(s, b[..n - 6]) == s
    ensures Run(s, b) == s
  {
    var n := |b|;
    var x, y := ['\\', 'u', b[n - 4]], [b[n - 3], b[n - 2], b[n - 1]];
    assert b == b[..n - 6] + x + y;
    RunConcat(s, b[..n - 6] + x, y);
    RunConcat(s, b[..n - 6], x);
    RunThree(s, '\\', 'u', b[n - 4]);
    EscapeSteps(s, b[n - 4]);
    RunThree(s.(step := EscU1), b[n - 3], b[n - 2], b[n - 1]);
    HexSteps(s.(step := EscU1), b[n - 3], b[n - 2], b[n - 1]);
  }

  lemma EscapeSteps(s: State, x: Byte)
    requires s.step == InString && IsHex(x)
    ensures After(After(After(s, '\\'), 'u'), x) == s.(step := EscU1)
  {
    AfterIs(s, '\\');
    AfterIs(s.(step := InStringEsc), 'u');
    AfterIs(s.(step := EscU), x);
  }

  lemma HexSteps(s: State, x: Byte, y: Byte, z: Byte)
    requires s.step == EscU1 && IsHex(x) && IsHex(y) && IsHex(z)
    ensures After(After(After(s, x), y), z) == s.(step := InString)
  {
    AfterIs(s, x);
    AfterIs(s.(step := EscU12), y);
    AfterIs(s.(step := EscU123), z);
  }

  lemma QuoteSteps(s: State)
    requires Begins(s) || BeginsKey(s)
    ensures After(s, '"') == s.(step := InString)
    ensures After(s.(step := InString), '"') == s.(step := EndValue)
  {
    AfterIs(s, '"');
    AfterIs(s.(step := InString), '"');
  }

  lemma RunString(s: State, b: Bytes)
    requires (Begins(s) || BeginsKey(s)) && IsString(b)
    ensures Run(s, b) == s.(step := EndValue)
  {
    var inner := b[1..|b| - 1];
    var s1 := s.(step := InString);
    RunOne(s, '"');
    RunConcat(s, ['"'], inner);
    RunChars(s1, inner);
    var quoted: Bytes := b[..|b| - 1];
    assert quoted == ['"'] + inner && b == quoted + ['"'];
    RunSnoc(s, quoted, '"');
    QuoteSteps(s);
  }

  lemma {:induction false} RunDigits(s: State, b: Bytes)
    requires (s.step == One || s.step == Dot0 || s.step == Exp0) && IsDigits(b)
    ensures Run(s, b) == s
  {
    if b != [] {
      RunDigits(s, b[..|b| - 1]);
      NumberGoes(s, b[|b| - 1]);
    }
  }

  lemma IntBegins(s: State, c: Byte)
    requires (Begins(s) || s.step == Neg) && IsDigit(c)
    ensures After(s, c) == s.(step := if c == '0' then Zero else One)
  {
    if s.step == Neg {
      NumberGoes(s, c);
    } else {
      BeginGoes(s, c);
    }
  }

  lemma RunInt(s: State, b: Bytes)
    requires (Begins(s) || s.step == Neg) && IsInt(b)
    ensures Run(s, b) == s.(step := if b[0] == '0' then Zero else One)
  {
    RunHead(s, b);
    IntBegins(s, b[0]);
    if b == ['0'] {
      assert b[1..] == [];
    } else {
      RunDigits(s.(step := One), b[1..]);
    }
  }

  lemma RunInteger(s: State, b: Bytes)
    requires Begins(s) && IsInteger(b)
    ensures var t := Run(s, b); t == s.(step := t.step) && (t.step == Zero || t.step == One)
  {
    if IsInt(b) {
      RunInt(s, b);
    } else {
      RunHead(s, b);
      BeginGoes(s, '-');
      RunInt(s.(step := Neg), b[1..]);
    }
  }

  lemma RunFrac(s: State, b: Bytes)
    requires (s.step == Zero || s.step == One) && IsFrac(b)
    ensures Run(s, b) == s.(step := Dot0)
  {
    assert b == ['.'] + ([b[1]] + b[2..]);
    RunCons(s, '.', [b[1]] + b[2..]);
    RunCons(s.(step := Dot), b[1], b[2..]);
    FracSteps(s, b[1]);
    RunDigits(s.(step := Dot0), b[2..]);
  }

  lemma FracSteps(s: State, c: Byte)
    requires (s.step == Zero || s.step == One) && IsDigit(c)
    ensures After(s, '.') == s.(step := Dot)
    ensures After(s.(step := Dot), c) == s.(step := Dot0)
  {
    NumberGoes(s, '.');
    NumberGoes(s.(step := Dot), c);
  }

  lemma RunDecimal(s: State, b: Bytes)
    requires Begins(s) && IsDecimal(b)
    ensures var t := Run(s, b); t == s.(step := t.step) && (t.step == Zero || t.step == One || t.step == Dot0)
  {
    if IsInteger(b) {
      RunInteger(s, b);
    } else {
      var k :| 0 <= k <= |b| && IsInteger(b[..k]) && IsFrac(b[k..]);
      RunInteger(s, b[..k]);
      RunFrac(Run(s, b[..k]), b[k..]);
      RunSplit(s, b, k);
    }
  }

  lemma RunExpDigits(s: State, b: Bytes)
    requires (s.step == Exp || s.step == ExpSign) && b != [] && IsDigits(b)
    ensures Run(s, b) == s.(step := Exp0)
  {
    RunHead(s, b);
    NumberGoes(s, b[0]);
    RunDigits(s.(step := Exp0), b[1..]);
  }

  lemma ExpStep(s: State, c: Byte)
    requires (s.step == Zero || s.step == One || s.step == Dot0) && IsE(c)
    ensures After(s, c) == s.(step := Exp)
  {
    NumberGoes(s, c);
  }

  lemma SignStep(s: State, c: Byte)
    requires s.step == Exp && IsSign(c)
    ensures After(s, c) == s.(step := ExpSign)
  {
    NumberGoes(s, c);
  }

  lemma RunExp(s: State, b: Bytes)
    requires (s.step == Zero || s.step == One || s.step == Dot0) && IsExp(b)
    ensures Run(s, b) == s.(step := Exp0)
  {
    var e, d := s.(step := Exp), b[1..];
    RunHead(s, b);
    ExpStep(s, b[0]);
    if IsDigits(d) {
      RunExpDigits(e, d);
    } else {
      RunHead(e, d);
      SignStep(e, d[0]);
      assert d[1..] == b[2..];
      RunExpDigits(e.(step := ExpSign), d[1..]);
    }
  }

  lemma RunNumber(s: State, b: Bytes)
    requires Begins(s) && IsNumber(b)
    ensures var t := Run(s, b); t == s.(step := t.step) && NumberDone(t.step)
  {
    if IsDecimal(b) {
      RunDecimal(s, b);
    } else {
      var k :| 0 <= k <= |b| && IsDecimal(b[..k]) && IsExp(b[k..]);
      RunDecimal(s, b[..k]);
      RunExp(Run(s, b[..k]), b[k..]);
      RunSplit(s, b, k);
    }
  }

  // ----- values -----

  lemma Split3(s: State, b: Bytes, i: nat, j: nat)
    requires i <= j <= |b|
    ensures Run(s, b) == Run(Run(Run(s, b[..i]), b[i..j]), b[j..])
  {
    assert b == b[..i] + b[i..j] + b[j..];
    RunConcat(s, b[..i] + b[i..j], b[j..]);
    RunConcat(s, b[..i], b[i..j]);
  }

  lemma SplitAt(s: State, b: Bytes, k: nat)
    requires k < |b|
    ensures Run(s, b) == Run(After(Run(s, b[..k]), b[k]), b[k + 1..])
  {
    assert b[..k + 1] == b[..k] + [b[k]];
    RunSnoc(s, b[..k], b[k]);
    assert b == b[..k + 1] + b[k + 1..];
    RunConcat(s, b[..k + 1], b[k + 1..]);
  }

  lemma Enclosed(s: State, b: Bytes)
    requires |b| >= 2
    ensures Run(s, b) == After(Run(After(s, b[0]), b[1..|b| - 1]), b[|b| - 1])
  {
    var n := |b|;
    SplitAt(s, b[..n - 1], 0);
    assert b[..n - 1][..0] == [] && b[..n - 1][1..] == b[1..n - 1];
  }

  lemma {:induction false} RunText(s: State, b: Bytes)
    requires Begins(s) && IsText(b)
    ensures Done(Run(s, b), s.stack)
    decreases |b|, 2
  {
    var i, j :| 0 <= i <= j <= |b| && IsWs(b[..i]) && IsValue(b[i..j]) && IsWs(b[j..]);
    Split3(s, b, i, j);
    BeginWs(s, b[..i]);
    RunValue(s, b[i..j]);
    DoneWs(Run(s, b[i..j]), s.stack, b[j..]);
  }

  lemma {:induction false} RunValue(s: State, b: Bytes)
    requires Begins(s) && IsValue(b)
    ensures Done(Run(s, b), s.stack)
    decreases |b|, 1
  {
    if IsName(b) {
      RunName(s, b);
    } else if IsNumber(b) {
      RunNumber(s, b);
    } else if IsString(b) {
      RunString(s, b);
    } else if IsArray(b) {
      RunArray(s, b);
    } else {
      RunObject(s, b);
    }
  }

  lemma ArraySteps(s: State)
    requires Begins(s)
    ensures var s1 := s.(step := BeginValueOrEmpty, stack := s.stack + [ArrayValue]);
            After(s, '[') == s1 && After(s1, ']') == AtEndValue(s1, ']').state
  {
    AfterIs(s, '[');
    AfterIs(s.(step := BeginValueOrEmpty, stack := s.stack + [ArrayValue]), ']');
  }

  lemma ObjectSteps(s: State)
    requires Begins(s)
    ensures var s1 := s.(step := BeginStringOrEmpty, stack := s.stack + [ObjectKey]);
            && After(s, '{') == s1
            && After(s1, '}') == AtEndValue(s1.(stack := s.stack + [ObjectValue]), '}').state
  {
    var s1 := s.(step := BeginStringOrEmpty, stack := s.stack + [ObjectKey]);
    AfterIs(s, '{');
    AfterIs(s1, '}');
    assert Retop(s1.stack, ObjectValue) == s.stack + [ObjectValue];
  }

  lemma {:induction false} RunArray(s: State, b: Bytes)
    requires Begins(s) && IsArray(b)
    ensures Done(Run(s, b), s.stack)
    decreases |b|, 0
  {
    var inner := b[1..|b| - 1];
    var s1 := s.(step := BeginValueOrEmpty, stack := s.stack + [ArrayValue]);
    Enclosed(s, b);
    ArraySteps(s);
    if IsWs(inner) {
      BeginWs(s1, inner);
      Closes(s1, ArrayValue, ']', s.stack);
    } else {
      RunElements(s1, inner);
      var t := Run(s1, inner);
      DoneDelegates(t, s1.stack, ']');
      Closes(t, ArrayValue, ']', s.stack);
    }
  }

  lemma Closes(t: State, p: Parse, c: Byte, stack: seq<Parse>)
    requires !t.failed && !t.endTop && t.stack == stack + [p]
    requires (p == ArrayValue && c == ']') || (p == ObjectValue && c == '}')
    ensures Done(AtEndValue(t, c).state, stack)
  {
    assert t.stack[..|t.stack| - 1] == stack;
  }

  lemma {:induction false} RunElements(s: State, b: Bytes)
    requires Begins(s) && IsElements(b) && s.stack != [] && Top(s.stack) == ArrayValue
    ensures Done(Run(s, b), s.stack)
    decreases |b|, 3
  {
    if IsText(b) {
      RunText(s, b);
    } else {
      var k :| 0 <= k < |b| && b[k] == ',' && IsElements(b[..k]) && IsText(b[k + 1..]);
      RunElements(s, b[..k]);
      SplitAt(s, b, k);
      var t := Run(s, b[..k]);
      DoneDelegates(t, s.stack, ',');
      RunText(t.(step := BeginValue), b[k + 1..]);
    }
  }

  lemma {:induction false} RunObject(s: State, b: Bytes)
    requires Begins(s) && IsObject(b)
    ensures Done(Run(s, b), s.stack)
    decreases |b|, 0
  {
    var inner := b[1..|b| - 1];
    var s1 := s.(step := BeginStringOrEmpty, stack := s.stack + [ObjectKey]);
    Enclosed(s, b);
    ObjectSteps(s);
    if IsWs(inner) {
      BeginWs(s1, inner);
      Closes(s1.(stack := s.stack + [ObjectValue]), ObjectValue, '}', s.stack);
    } else {
      RunMembers(s1, s.stack, inner);
      var t := Run(s1, inner);
      DoneDelegates(t, s.stack + [ObjectValue], '}');
      Closes(t, ObjectValue, '}', s.stack);
    }
  }

  lemma RunKey(s: State, outer: seq<Parse>, b: Bytes)
    requires BeginsKey(s) && s.stack == outer + [ObjectKey] && IsKey(b)
    ensures After(Run(s, b), ':') == s.(stack := outer + [ObjectValue], step := BeginValue)
  {
    var i, j :| 0 <= i <= j <= |b| && IsWs(b[..i]) && IsString(b[i..j]) && IsWs(b[j..]);
    Split3(s, b, i, j);
    BeginWs(s, b[..i]);
    RunString(s, b[i..j]);
    DoneWs(s.(step := EndValue), s.stack, b[j..]);
    var t := Run(s.(step := EndValue), b[j..]);
    DoneDelegates(t, s.stack, ':');
    assert Retop(s.stack, ObjectValue) == outer + [ObjectValue];
  }

  lemma {:induction false} RunMember(s: State, outer: seq<Parse>, b: Bytes)
    requires BeginsKey(s) && s.stack == outer + [ObjectKey] && IsMember(b)
    ensures Done(Run(s, b), outer + [ObjectValue])
    decreases |b|, 2
  {
    var k :| 0 <= k < |b| && b[k] == ':' && IsKey(b[..k]) && IsText(b[k + 1..]);
    SplitAt(s, b, k);
    RunKey(s, outer, b[..k]);
    RunText(s.(stack := outer + [ObjectValue], step := BeginValue), b[k + 1..]);
  }

  lemma {:induction false} RunMembers(s: State, outer: seq<Parse>, b: Bytes)
    requires BeginsKey(s) && s.stack == outer + [ObjectKey] && IsMembers(b)
    ensures Done(Run(s, b), outer + [ObjectValue])
    decreases |b|, 3
  {
    if IsMember(b) {
      RunMember(s, outer, b);
    } else {
      var k :| 0 <= k < |b| && b[k] == ',' && IsMembers(b[..k]) && IsMember(b[k + 1..]);
      RunMembers(s, outer, b[..k]);
      SplitAt(s, b, k);
      NextMember(Run(s, b[..k]), outer);
      RunMember(After(Run(s, b[..k]), ','), outer, b[k + 1..]);
    }
  }

  lemma NextMember(t: State, outer: seq<Parse>)
    requires Done(t, outer + [ObjectValue])
    ensures var u := After(t, ','); BeginsKey(u) && u.stack == outer + [ObjectKey]
  {
    DoneDelegates(t, outer + [ObjectValue], ',');
    assert Retop(outer + [ObjectValue], ObjectKey) == outer + [ObjectKey];
  }

  /** Every JSON text is accepted. */
  lemma TextAccepted(b: Bytes)
    requires IsText(b)
    ensures Accepted(b)
  {
    RunText(START, b);
    var t := Run(START, b);
    if !t.endTop {
      DoneDelegates(t, [], ' ');
      AfterIs(t, ' ');
    }
  }
}
