/** The scanner as the source runs it: one object whose fields change with every byte. */
module ScannerMachine {
  import opened JsonGrammar
  import opened Scanner
  import opened ScannerComplete
  import ScannerSound

  lemma FailingRun(p: Bytes)
    ensures Run(START, p).failed <==> Run(START, p).step == Failing
  {
    ScannerSound.RunDescribes(p);
  }

  lemma {:induction false} FailureIsFinal(p: Bytes, q: Bytes)
    requires Run(START, p).failed
    ensures Run(START, p + q).failed
  {
    if q == [] {
      assert p + q == p;
    } else {
      var init := q[..|q| - 1];
      FailureIsFinal(p, init);
      FailedByte(p + init, q[|q| - 1]);
      assert p + q == p + init + [q[|q| - 1]];
    }
  }

  lemma FailedByte(p: Bytes, c: Byte)
    requires Run(START, p).failed
    ensures Run(START, p + [c]).failed
  {
    FailingRun(p);
    RunNext(p, c);
    ScannerSound.FailedStays(Run(START, p), c);
  }

  /** A prefix at which the scanner failed begins no JSON text. */
  lemma FailedPrefix(b: Bytes, k: nat)
    requires k <= |b| && Run(START, b[..k]).failed
    ensures !IsText(b)
  {
    FailureIsFinal(b[..k], b[k..]);
    assert b[..k] + b[k..] == b;
    ScannerSound.AcceptsExactlyJson(b);
  }

  /** A move that neither completes a container nor ends the text. */
  predicate Inner(m: Move) {
    && m.code != ScanEndObject && m.code != ScanEndArray && m.code != ScanEnd
    && (m.code == ScanError ==> m.state.failed)
  }

  predicate Delegating(step: Step) {
    step == EndValue || step == BeginValueOrEmpty || NumberDone(step)
  }

  /** Every other move is one of `stateEndValue` or `stateEndTop`. */
  predicate EndsSomething(s: State, c: Byte, m: Move) {
    || (Delegating(s.step) && m == AtEndValue(s, c))
    || (s.step == EndTop && m == AtEndTop(s, c))
    || (s.step == BeginStringOrEmpty && s.stack != [] && m == AtEndValue(s.(stack := Retop(s.stack, ObjectValue)), c))
  }

  lemma TokenMoveKind(s: State, c: Byte)
    ensures StringStep(s.step) ==> Inner(InStringMove(s, c))
    ensures NameStep(s.step) ==> Inner(InNameMove(s, c))
  {
  }

  lemma NumberMoveKind(s: State, c: Byte)
    requires NumberStep(s.step)
    ensures Inner(InNumberMove(s, c)) || (NumberDone(s.step) && InNumberMove(s, c) == AtEndValue(s, c))
  {
  }

  lemma BeginMoveKind(s: State, c: Byte)
    ensures Inner(AtBeginValue(s, c)) && Inner(AtBeginString(s, c))
    ensures Inner(AtBeginValueOrEmpty(s, c)) || AtBeginValueOrEmpty(s, c) == AtEndValue(s, c)
  {
  }

  lemma MoveKind(s: State, c: Byte)
    requires s.step == Failing ==> s.failed
    ensures Inner(Next(s, c)) || EndsSomething(s, c, Next(s, c))
  {
    if StringStep(s.step) || NameStep(s.step) {
      TokenMoveKind(s, c);
    } else if NumberStep(s.step) {
      NumberMoveKind(s, c);
    } else {
      BetweenMoveKind(s, c);
    }
  }

  lemma BetweenMoveKind(s: State, c: Byte)
    requires s.step == Failing ==> s.failed
    requires !StringStep(s.step) && !NumberStep(s.step) && !NameStep(s.step)
    ensures Inner(BetweenMove(s, c)) || EndsSomething(s, c, BetweenMove(s, c))
  {
    BeginMoveKind(s, c);
  }

  lemma EndValueErrorCode(s: State, c: Byte)
    ensures AtEndValue(s, c).code == ScanError ==> AtEndValue(s, c).state.failed
  {
  }

  lemma ErrorCode(s: State, c: Byte)
    requires s.step == Failing ==> s.failed
    ensures Next(s, c).code == ScanError ==> Next(s, c).state.failed
  {
    MoveKind(s, c);
    EndValueErrorCode(s, c);
    if s.stack != [] {
      EndValueErrorCode(s.(stack := Retop(s.stack, ObjectValue)), c);
    }
  }

  // ----- where a leading text ends -----

  /** No JSON text begins with `p`. */
  ghost predicate NoneBegins(p: Bytes) {
    forall t: Bytes :: !IsText(p + t)
  }

  /** The first `j` bytes are a text and the byte behind them cannot carry it on. */
  ghost predicate TextEnds(data: Bytes, j: nat) {
    && j <= |data| && IsText(data[..j])
    && (j == |data| || IsSpace(data[j]) || NoneBegins(data[..j + 1]))
  }

  lemma FailedBeginsNone(p: Bytes)
    requires Run(START, p).failed
    ensures NoneBegins(p)
  {
    forall t: Bytes ensures !IsText(p + t) {
      assert (p + t)[..|p|] == p;
      FailedPrefix(p + t, |p|);
    }
  }

  /** A byte that a finished number takes up belongs to a longer number. */
  lemma NumberCarriesOn(p: Bytes, c: Byte)
    requires var s := Run(START, p);
             !s.failed && !s.endTop && s.stack == [] && NumberDone(s.step) && Next(s, c).code != ScanEnd
    ensures !NoneBegins(p + [c])
  {
    var s, q := Run(START, p), p + [c];
    RunNext(p, c);
    RunNext(q, '0');
    CarriedState(s, c);
    ScannerSound.AcceptsExactlyJson(q);
    ScannerSound.AcceptsExactlyJson(q + ['0']);
    assert q + [] == q;
  }

  lemma CarriedState(s: State, c: Byte)
    requires !s.failed && !s.endTop && s.stack == [] && NumberDone(s.step) && Next(s, c).code != ScanEnd
    ensures EndsWell(Next(s, c).state) || EndsWell(Next(Next(s, c).state, '0').state)
  {
    var t := Next(s, c).state;
    if NumberDone(t.step) {
      DoneEnds(t);
    } else {
      DoneEnds(Next(t, '0').state);
    }
  }

  lemma DoneEnds(t: State)
    requires !t.failed && t.stack == [] && NumberDone(t.step)
    ensures EndsWell(t)
  {
  }

  /** The scan of a text reports its end at the first byte that cannot carry it on. */
  lemma EndSeen(p: Bytes, c: Byte)
    requires IsText(p) && !Run(START, p).endTop && (IsSpace(c) || NoneBegins(p + [c]))
    ensures Next(Run(START, p), c).code == ScanEnd
  {
    var s := Run(START, p);
    ScannerSound.AcceptsExactlyJson(p);
    ScannerSound.SpaceEnds(s);
    if s.step == EndValue || IsSpace(c) {
      EndsHere(s, c);
    } else if Next(s, c).code != ScanEnd {
      NumberCarriesOn(p, c);
    }
  }

  lemma EndsHere(s: State, c: Byte)
    requires s.stack == [] && (s.step == EndValue || (NumberDone(s.step) && IsSpace(c)))
    ensures Next(s, c).code == ScanEnd
  {
  }

  lemma StrayFails(s: State, c: Byte)
    requires s.step == Failing ==> s.failed
    requires Next(s, c).code == ScanEnd
    ensures IsSpace(c) || Next(s, c).state.failed
  {
    MoveKind(s, c);
    StrayMove(s, c, Next(s, c));
  }

  lemma StrayMove(s: State, c: Byte, m: Move)
    requires EndsSomething(s, c, m) && m.code == ScanEnd
    ensures IsSpace(c) || m.state.failed
  {
  }

  predicate Ending(code: Code) {
    code == ScanEnd || code == ScanEndObject || code == ScanEndArray
  }

  lemma TokensKeepEndTop(s: State, c: Byte)
    ensures StringStep(s.step) ==> InStringMove(s, c).state.endTop == s.endTop
    ensures NameStep(s.step) ==> InNameMove(s, c).state.endTop == s.endTop
  {
  }

  lemma EndValueKeepsEndTop(s: State, c: Byte)
    ensures !Ending(AtEndValue(s, c).code) ==> AtEndValue(s, c).state.endTop == s.endTop
  {
  }

  lemma NumbersKeepEndTop(s: State, c: Byte)
    ensures NumberStep(s.step) && !Ending(InNumberMove(s, c).code) ==> InNumberMove(s, c).state.endTop == s.endTop
  {
    EndValueKeepsEndTop(s, c);
  }

  lemma BeginningsKeepEndTop(s: State, c: Byte)
    ensures AtBeginValue(s, c).state.endTop == AtBeginString(s, c).state.endTop == s.endTop
  {
  }

  lemma BetweenKeepsEndTop(s: State, c: Byte)
    ensures s.step != EndTop && !Ending(BetweenMove(s, c).code) ==> BetweenMove(s, c).state.endTop == s.endTop
  {
    EndValueKeepsEndTop(s, c);
    BeginningsKeepEndTop(s, c);
    if s.stack != [] {
      EndValueKeepsEndTop(s.(stack := Retop(s.stack, ObjectValue)), c);
    }
  }

  /** The end is marked by a reported end or a closing bracket only. */
  lemma StillOpen(s: State, c: Byte)
    requires !s.endTop && !Ending(Next(s, c).code)
    ensures !Next(s, c).state.endTop
  {
    TokensKeepEndTop(s, c);
    if NumberStep(s.step) {
      NumbersKeepEndTop(s, c);
    } else if s.step != EndTop {
      BetweenKeepsEndTop(s, c);
    }
  }

  /** What the code of one byte says about where a text ends, in a scan that has not ended before. */
  lemma CodeEnds(data: Bytes, i: nat)
    requires i < |data| && !Run(START, data[..i]).endTop
    ensures Next(Run(START, data[..i]), data[i]).code == ScanEnd <==> TextEnds(data, i)
  {
    assert data[..i + 1] == data[..i] + [data[i]];
    if Next(Run(START, data[..i]), data[i]).code == ScanEnd {
      ReportedEnd(data[..i], data[i]);
    } else if TextEnds(data, i) {
      EndSeen(data[..i], data[i]);
    }
  }

  lemma ReportedEnd(p: Bytes, c: Byte)
    requires Next(Run(START, p), c).code == ScanEnd
    ensures IsText(p) && (IsSpace(c) || NoneBegins(p + [c]))
  {
    EndCodeOfRun(p, c);
    FailingRun(p);
    StrayFails(Run(START, p), c);
    RunNext(p, c);
    if !IsSpace(c) {
      FailedBeginsNone(p + [c]);
    }
  }

  lemma EndCodeOfRun(p: Bytes, c: Byte)
    requires Next(Run(START, p), c).code == ScanEnd
    ensures IsText(p)
  {
    ScannerSound.RunDescribes(p);
    EndCode(Run(START, p), p, c);
  }

  lemma StrayAtTop(s: State, c: Byte)
    requires s.step == EndTop && !IsSpace(c)
    ensures Next(s, c).state.failed
  {
  }

  /** Everything `Feed` promises about one call of `scan.step`. */
  lemma FedByte(data: Bytes, i: nat)
    requires i < |data|
    ensures var s := Run(START, data[..i]);
            var m := Next(s, data[i]);
            && m.state == Run(START, data[..i + 1])
            && (m.code == ScanError ==> m.state.failed)
            && (m.code == ScanEndObject || m.code == ScanEndArray ==>
                  (m.state.stack == [] ==> IsText(data[..i + 1]) && m.state.step == EndTop) && Probed(m.state))
            && (!s.endTop ==>
                  && (m.code == ScanEnd <==> TextEnds(data, i))
                  && (m.code != ScanEnd && m.state.endTop ==> Ending(m.code) && m.state.stack == []))
  {
    var s, p, c := Run(START, data[..i]), data[..i], data[i];
    assert data[..i + 1] == p + [c];
    ScannerSound.RunDescribes(p);
    ScannerSound.RunDescribes(p + [c]);
    RunNext(p, c);
    CodeTells(s, p, c);
    if !s.endTop {
      CodeEnds(data, i);
      if !Ending(Next(s, c).code) {
        StillOpen(s, c);
      } else if Next(s, c).code != ScanEnd {
        ClosingPop(s, c);
      }
    }
  }

  /** A closing bracket that empties the stack ends the text with itself. */
  lemma BracketEnds(data: Bytes, i: nat)
    requires i <= |data| && IsText(data[..i])
    requires var t := Run(START, data[..i]); t.step == EndTop
    ensures TextEnds(data, i)
  {
    if i < |data| && !IsSpace(data[i]) {
      RunNext(data[..i], data[i]);
      StrayAtTop(Run(START, data[..i]), data[i]);
      assert data[..i] + [data[i]] == data[..i + 1];
      FailedBeginsNone(data[..i + 1]);
    }
  }

  lemma FailedEndsNowhere(data: Bytes, i: nat, j: nat)
    requires i <= j && i <= |data| && Run(START, data[..i]).failed
    ensures !TextEnds(data, j)
  {
    if j <= |data| {
      assert data[..j][..i] == data[..i];
      FailedPrefix(data[..j], i);
    }
  }

  class Machine {
    var step: Step
    var endTop: bool
    var parseState: seq<Parse>
    var failed: bool

    function Value(): State
      reads this
    {
      State(step, endTop, parseState, failed)
    }

    constructor ()
      ensures Value() == START
    {
      step, endTop, parseState, failed := BeginValue, false, [], false;
    }

    method Reset()
      modifies this
      ensures Value() == START
    {
      step, endTop, parseState, failed := BeginValue, false, [], false;
    }

    method Error() returns (code: Code)
      modifies this
      ensures Value() == Fail(old(Value())).state && code == ScanError
    {
      step, failed := Failing, true;
      code := ScanError;
    }

    method PushParseState(p: Parse)
      modifies this`parseState
      ensures Value() == old(Value()).(stack := old(parseState) + [p])
    {
      parseState := parseState + [p];
    }

    method PopParseState()
      requires parseState != []
      modifies this
      ensures Value() == Pop(old(Value()))
    {
      var n := |parseState| - 1;
      parseState := parseState[..n];
      if n == 0 {
        step, endTop := EndTop, true;
      } else {
        step := EndValue;
      }
    }

    method SetTop(p: Parse)
      requires parseState != []
      modifies this`parseState
      ensures Value() == old(Value()).(stack := Retop(old(parseState), p))
    {
      parseState := parseState[..|parseState| - 1] + [p];
    }

    method StateEndTop(c: Byte) returns (code: Code)
      modifies this
      ensures Value() == AtEndTop(old(Value()), c).state && code == AtEndTop(old(Value()), c).code
    {
      if !IsSpace(c) {
        code := Error();
      }
      code := ScanEnd;
    }

    method StateEndValue(c: Byte) returns (code: Code)
      modifies this
      ensures Value() == AtEndValue(old(Value()), c).state && code == AtEndValue(old(Value()), c).code
    {
      if parseState == [] {
        step, endTop := EndTop, true;
        code := StateEndTop(c);
        return;
      }
      if IsSpace(c) {
        step := EndValue;
        return ScanSkipSpace;
      }
      match Top(parseState)
      case ObjectKey =>
        if c == ':' {
          SetTop(ObjectValue);
          step := BeginValue;
          return ScanObjectKey;
        }
        code := Error();
      case ObjectValue =>
        if c == ',' {
          SetTop(ObjectKey);
          step := BeginString;
          return ScanObjectValue;
        }
        if c == '}' {
          PopParseState();
          return ScanEndObject;
        }
        code := Error();
      case ArrayValue =>
        if c == ',' {
          step := BeginValue;
          return ScanArrayValue;
        }
        if c == ']' {
          PopParseState();
          return ScanEndArray;
        }
        code := Error();
    }

    method StateBeginValue(c: Byte) returns (code: Code)
      modifies this
      ensures Value() == AtBeginValue(old(Value()), c).state && code == AtBeginValue(old(Value()), c).code
    {
      if IsSpace(c) {
        return ScanSkipSpace;
      }
      if c == '{' {
        step := BeginStringOrEmpty;
        PushParseState(ObjectKey);
        return ScanBeginObject;
      } else if c == '[' {
        step := BeginValueOrEmpty;
        PushParseState(ArrayValue);
        return ScanBeginArray;
      } else if c == '"' {
        step := InString;
      } else if c == '-' {
        step := Neg;
      } else if c == '0' {
        step := Zero;
      } else if c == 't' {
        step := T;
      } else if c == 'f' {
        step := F;
      } else if c == 'n' {
        step := N;
      } else if '1' <= c <= '9' {
        step := One;
      } else {
        code := Error();
        return;
      }
      code := ScanBeginLiteral;
    }

    method StateBeginValueOrEmpty(c: Byte) returns (code: Code)
      modifies this
      ensures Value() == AtBeginValueOrEmpty(old(Value()), c).state && code == AtBeginValueOrEmpty(old(Value()), c).code
    {
      if IsSpace(c) {
        return ScanSkipSpace;
      }
      if c == ']' {
        code := StateEndValue(c);
      } else {
        code := StateBeginValue(c);
      }
    }

    method StateBeginString(c: Byte) returns (code: Code)
      modifies this
      ensures Value() == AtBeginString(old(Value()), c).state && code == AtBeginString(old(Value()), c).code
    {
      if IsSpace(c) {
        return ScanSkipSpace;
      }
      if c == '"' {
        step := InString;
        return ScanBeginLiteral;
      }
      code := Error();
    }

    method StateBeginStringOrEmpty(c: Byte) returns (code: Code)
      modifies this
      ensures Value() == AtBeginStringOrEmpty(old(Value()), c).state
      ensures code == AtBeginStringOrEmpty(old(Value()), c).code
    {
      if IsSpace(c) {
        return ScanSkipSpace;
      }
      if c == '}' && parseState != [] {
        SetTop(ObjectValue);
        code := StateEndValue(c);
      } else {
        code := StateBeginString(c);
      }
    }

    /** The states inside strings and names, which only move on or fail. */
    method Follow(m: Move) returns (code: Code)
      requires (m.state == Value().(step := m.state.step) && m.code == ScanContinue) || m == Fail(Value())
      modifies this
      ensures Value() == m.state && code == m.code
    {
      if m.code == ScanError {
        code := Error();
      } else {
        step := m.state.step;
        code := ScanContinue;
      }
    }

    method StateInNumber(c: Byte) returns (code: Code)
      requires NumberStep(step)
      modifies this
      ensures Value() == InNumberMove(old(Value()), c).state && code == InNumberMove(old(Value()), c).code
    {
      if ScannerSound.Continues(step, c) {
        ScannerSound.NumberMoves(Value().(failed := false), c);
        code := Follow(InNumberMove(Value(), c));
      } else {
        code := StateEndValue(c);
      }
    }

    /** `scan.step`. */
    method StepByte(c: Byte) returns (code: Code)
      modifies this
      ensures Value() == Next(old(Value()), c).state && code == Next(old(Value()), c).code
    {
      if StringStep(step) {
        code := Follow(InStringMove(Value(), c));
      } else if NumberStep(step) {
        code := StateInNumber(c);
      } else if NameStep(step) {
        code := Follow(InNameMove(Value(), c));
      } else {
        match step
        case BeginValueOrEmpty => code := StateBeginValueOrEmpty(c);
        case BeginValue => code := StateBeginValue(c);
        case BeginStringOrEmpty => code := StateBeginStringOrEmpty(c);
        case BeginString => code := StateBeginString(c);
        case EndValue => code := StateEndValue(c);
        case EndTop => code := StateEndTop(c);
        case _ => code := ScanError;
      }
    }

    method Eof(ghost p: Bytes) returns (code: Code)
      requires Value() == Run(START, p)
      modifies this
      ensures code == ScanEnd <==> IsText(p)
    {
      ScannerSound.AcceptsExactlyJson(p);
      if failed {
        return ScanError;
      }
      if endTop {
        return ScanEnd;
      }
      code := StepByte(' ');
      if endTop {
        return ScanEnd;
      }
      failed := true;
      return ScanError;
    }

    /** One byte of input: what the code tells about what was read. */
    method Feed(c: Byte, ghost data: Bytes, ghost i: nat) returns (code: Code)
      requires i < |data| && data[i] == c && Value() == Run(START, data[..i])
      modifies this
      ensures Value() == Run(START, data[..i + 1])
      ensures code == ScanError ==> failed
      ensures code == ScanEndObject || code == ScanEndArray ==>
                (parseState == [] ==> IsText(data[..i + 1]) && step == EndTop) && Probed(Value())
      ensures !Run(START, data[..i]).endTop ==>
                && (code == ScanEnd <==> TextEnds(data, i))
                && (code != ScanEnd && endTop ==> Ending(code) && parseState == [])
    {
      FedByte(data, i);
      code := StepByte(c);
    }

    /** `checkValid`. */
    method CheckValid(data: Bytes) returns (valid: bool)
      modifies this
      ensures valid <==> IsText(data)
    {
      Reset();
      for i := 0 to |data|
        invariant Value() == Run(START, data[..i])
      {
        var code := Feed(data[i], data, i);
        if code == ScanError {
          FailedPrefix(data, i + 1);
          return false;
        }
      }
      assert data[..|data|] == data;
      var code := Eof(data);
      valid := code == ScanEnd;
    }

    /** One byte of input and, after a closing bracket, the probe with a space, which otherwise changes nothing. */
    method FeedAndProbe(c: Byte, ghost data: Bytes, ghost i: nat) returns (code: Code, end: bool)
      requires i < |data| && data[i] == c && Value() == Run(START, data[..i]) && !endTop
      modifies this
      ensures code == ScanEnd <==> TextEnds(data, i)
      ensures end ==> TextEnds(data, i + 1) && code != ScanEnd
      ensures !end ==> Value() == Run(START, data[..i + 1]) && (code == ScanError ==> failed)
      ensures !end && code != ScanEnd ==> !endTop
    {
      end := false;
      code := Feed(c, data, i);
      if code == ScanEndObject || code == ScanEndArray {
        if parseState == [] {
          BracketEnds(data, i + 1);
        }
        var probe := StepByte(' ');
        end := probe == ScanEnd;
      }
    }

    /** `nextValue`: splits off the shortest leading JSON text that the byte behind it cannot carry on. */
    method NextValue(data: Bytes) returns (ok: bool, value: Bytes, rest: Bytes)
      modifies this
      ensures ok <==> exists j: nat :: TextEnds(data, j)
      ensures ok ==> data == value + rest && TextEnds(data, |value|)
      ensures ok ==> forall j: nat :: j < |value| ==> !TextEnds(data, j)
    {
      Reset();
      for i := 0 to |data|
        invariant Value() == Run(START, data[..i]) && !Value().endTop
        invariant forall j: nat :: j < i ==> !TextEnds(data, j)
      {
        var code, end := FeedAndProbe(data[i], data, i);
        if end {
          return true, data[..i + 1], data[i + 1..];
        } else if code == ScanError {
          forall j: nat ensures !TextEnds(data, j) {
            if j > i {
              FailedEndsNowhere(data, i + 1, j);
            }
          }
          return false, [], [];
        } else if code == ScanEnd {
          return true, data[..i], data[i..];
        }
      }
      assert data[..|data|] == data;
      TextEndsWhole(data);
      var code := Eof(data);
      if code != ScanEnd {
        assert forall j: nat :: j >= |data| ==> !TextEnds(data, j);
        return false, [], [];
      }
      return true, data, [];
    }
  }

  /** With nothing behind it a JSON text is where a text ends, so `nextValue` never refuses one. */
  lemma TextEndsWhole(data: Bytes)
    ensures TextEnds(data, |data|) <==> IsText(data)
  {
    assert data[..|data|] == data;
  }

  lemma RunNext(p: Bytes, c: Byte)
    ensures Run(START, p + [c]) == Next(Run(START, p), c).state
  {
    RunSnoc(START, p, c);
    AfterIs(Run(START, p), c);
  }

  /** After a closing bracket a space ends the scan exactly at the top level and changes nothing elsewhere. */
  ghost predicate Probed(t: State) {
    && (t.stack == [] ==> t.step == EndTop && t.endTop)
    && if t.stack == [] then Next(t, ' ').code == ScanEnd else Next(t, ' ') == Move(t, ScanSkipSpace)
  }

  lemma ClosingPop(s: State, c: Byte)
    requires s.step == Failing ==> s.failed
    requires Next(s, c).code == ScanEndObject || Next(s, c).code == ScanEndArray
    ensures s.stack != [] && Next(s, c).state == Pop(s)
  {
    MoveKind(s, c);
    PoppingMove(s, c, Next(s, c));
  }

  lemma EndValuePops(s: State, c: Byte)
    ensures AtEndValue(s, c).code == ScanEndObject || AtEndValue(s, c).code == ScanEndArray ==>
              s.stack != [] && AtEndValue(s, c).state == Pop(s)
  {
  }

  lemma PoppingMove(s: State, c: Byte, m: Move)
    requires EndsSomething(s, c, m) && (m.code == ScanEndObject || m.code == ScanEndArray)
    ensures s.stack != [] && m.state == Pop(s)
  {
    EndValuePops(s, c);
    if s.stack != [] {
      var retopped := s.(stack := Retop(s.stack, ObjectValue));
      EndValuePops(retopped, c);
      assert retopped.stack[..|s.stack| - 1] == s.stack[..|s.stack| - 1];
    }
  }

  lemma ProbeAfterPop(s: State)
    requires s.stack != []
    ensures Probed(Pop(s))
  {
  }

  /** The scan reports the end one byte late: what was read before it is a text. */
  lemma EndCode(s: State, p: Bytes, c: Byte)
    requires ScannerSound.Describes(s, p) && Next(s, c).code == ScanEnd
    ensures IsText(p)
  {
    MoveKind(s, c);
    EndMove(s, p, c, Next(s, c));
  }

  lemma EndMove(s: State, p: Bytes, c: Byte, m: Move)
    requires ScannerSound.Describes(s, p) && EndsSomething(s, c, m) && m.code == ScanEnd
    ensures IsText(p)
  {
    if !s.endTop {
      EndCodeAt(s, c, m);
      if NumberDone(s.step) {
        ScannerSound.NumberFinished(s.stack, p, s.step);
      }
      ScannerSound.FinishedIsText(p);
    }
  }

  lemma EndCodeAt(s: State, c: Byte, m: Move)
    requires EndsSomething(s, c, m) && m.code == ScanEnd && s.step != EndTop
    requires s.step == BeginValueOrEmpty || s.step == BeginStringOrEmpty ==> s.stack != []
    ensures s.stack == [] && (s.step == EndValue || NumberDone(s.step))
  {
  }

  lemma CodeTells(s: State, p: Bytes, c: Byte)
    requires ScannerSound.Describes(s, p)
    ensures var m := Next(s, c);
            && (m.code == ScanError ==> m.state.failed)
            && (m.code == ScanEnd ==> IsText(p))
            && (m.code == ScanEndObject || m.code == ScanEndArray ==> Probed(m.state) && (s.failed || !m.state.failed))
  {
    ErrorCode(s, c);
    if Next(s, c).code == ScanEnd {
      EndCode(s, p, c);
    } else if Next(s, c).code == ScanEndObject || Next(s, c).code == ScanEndArray {
      ClosingPop(s, c);
      ProbeAfterPop(s);
    }
  }
}
