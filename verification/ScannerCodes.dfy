/** The codes the scanner returns tell its readers everything they need to follow the nesting. */
module ScannerCodes {
  import opened JsonGrammar
  import opened Scanner

  /** The open containers after one more code, as a reader of the codes keeps them. */
  function Replay(stack: seq<Parse>, code: Code): seq<Parse> {
    match code
    case ScanBeginObject => stack + [ObjectKey]
    case ScanBeginArray => stack + [ArrayValue]
    case ScanObjectKey => Relabelled(stack, ObjectValue)
    case ScanObjectValue => Relabelled(stack, ObjectKey)
    case ScanEndObject => Closed(stack)
    case ScanEndArray => Closed(stack)
    case _ => stack
  }

  function Relabelled(stack: seq<Parse>, p: Parse): seq<Parse> {
    if stack == [] then stack else stack[..|stack| - 1] + [p]
  }

  function Closed(stack: seq<Parse>): seq<Parse> {
    if stack == [] then stack else stack[..|stack| - 1]
  }

  /** Between tokens, where white space may stand. */
  predicate Between(step: Step) {
    !StringStep(step) && !NumberStep(step) && !NameStep(step) && step != Failing
  }

  /** What a code says about the byte it was returned for. */
  predicate Tells(code: Code, before: Step, c: Byte, after: Step) {
    match code
    case ScanBeginObject => c == '{' && Between(before)
    case ScanBeginArray => c == '[' && Between(before)
    case ScanBeginLiteral => Between(before) && !Between(after) && after != Failing
    case ScanObjectKey => c == ':' && !StringStep(before)
    case ScanObjectValue => c == ',' && !StringStep(before)
    case ScanArrayValue => c == ',' && !StringStep(before)
    case ScanEndObject => c == '}' && !StringStep(before)
    case ScanEndArray => c == ']' && !StringStep(before)
    case ScanSkipSpace => IsSpace(c) && !StringStep(before)
    case ScanContinue => !Between(before) && before != Failing
    case ScanEnd => !StringStep(before) && (after == EndTop || after == Failing)
    case ScanError => after == Failing
  }

  /** The innermost container fits the code. */
  predicate Innermost(stack: seq<Parse>, code: Code) {
    match code
    case ScanObjectKey => stack != [] && Top(stack) == ObjectKey
    case ScanObjectValue => stack != [] && Top(stack) == ObjectValue
    case ScanArrayValue => stack != [] && Top(stack) == ArrayValue
    case ScanEndArray => stack != [] && Top(stack) == ArrayValue
    case ScanEndObject => stack != [] && Top(stack) != ArrayValue
    case ScanEnd => stack == []
    case _ => true
  }

  /** What the places in the code that look at the top of the stack rely on. */
  predicate StackFits(s: State) {
    && (s.step == BeginStringOrEmpty ==> s.stack != [] && Top(s.stack) == ObjectKey)
    && (s.step == EndTop ==> s.stack == [])
  }

  /** The code fits the byte and the change of the stack, and a failure stays. */
  ghost predicate Sound(s: State, c: Byte, m: Move) {
    && (s.failed ==> m.state.failed)
    && Tells(m.code, s.step, c, m.state.step)
    && (StackFits(s) ==> StackFits(m.state))
    && (StackFits(s) && !m.state.failed ==> m.state.stack == Replay(s.stack, m.code) && Innermost(s.stack, m.code))
  }

  lemma FailSound(s: State, c: Byte)
    ensures Sound(s, c, Fail(s))
  {
  }

  lemma GoSound(s: State, c: Byte, step: Step)
    requires !Between(s.step) && s.step != Failing && step != BeginStringOrEmpty && step != EndTop
    ensures Sound(s, c, Go(s, step))
  {
  }

  lemma EndTopSound(s: State, c: Byte)
    requires s.stack == [] && !StringStep(s.step) && s.step != BeginStringOrEmpty
    ensures Sound(s, c, AtEndTop(s.(step := EndTop, endTop := true), c))
  {
  }

  lemma PopSound(s: State, c: Byte, code: Code)
    requires s.stack != [] && !StringStep(s.step) && s.step != BeginStringOrEmpty
    requires if code == ScanEndObject then c == '}' && Top(s.stack) != ArrayValue
             else code == ScanEndArray && c == ']' && Top(s.stack) == ArrayValue
    ensures Sound(s, c, Move(Pop(s), code))
  {
  }

  lemma EndValueSound(s: State, c: Byte)
    requires !StringStep(s.step) && s.step != BeginStringOrEmpty && s.step != Failing
    ensures Sound(s, c, AtEndValue(s, c))
  {
    FailSound(s, c);
    if s.stack == [] {
      EndTopSound(s, c);
    } else if !IsSpace(c) {
      if Top(s.stack) == ObjectValue && c == '}' {
        PopSound(s, c, ScanEndObject);
      } else if Top(s.stack) == ArrayValue && c == ']' {
        PopSound(s, c, ScanEndArray);
      }
    }
  }

  /** The step a token goes on to, or the value is over. */
  predicate Inside(step: Step) {
    step != BeginStringOrEmpty && step != EndTop
  }

  lemma StringMoves(s: State, c: Byte)
    requires StringStep(s.step)
    ensures var m := InStringMove(s, c);
            m == Fail(s) || (Inside(m.state.step) && m == Go(s, m.state.step))
  {
  }

  lemma StringSound(s: State, c: Byte)
    requires StringStep(s.step)
    ensures Sound(s, c, InStringMove(s, c))
  {
    StringMoves(s, c);
    FailOrGoSound(s, c, InStringMove(s, c));
  }

  lemma FailOrGoSound(s: State, c: Byte, m: Move)
    requires !Between(s.step) && s.step != Failing
    requires m == Fail(s) || (Inside(m.state.step) && m == Go(s, m.state.step))
    ensures Sound(s, c, m)
  {
    if m == Fail(s) {
      FailSound(s, c);
    } else {
      GoSound(s, c, m.state.step);
    }
  }

  lemma NumberMoves(s: State, c: Byte)
    requires NumberStep(s.step)
    ensures var m := InNumberMove(s, c);
            m == AtEndValue(s, c) || m == Fail(s) || (Inside(m.state.step) && m == Go(s, m.state.step))
  {
  }

  lemma NumberSound(s: State, c: Byte)
    requires NumberStep(s.step)
    ensures Sound(s, c, InNumberMove(s, c))
  {
    NumberMoves(s, c);
    if InNumberMove(s, c) == AtEndValue(s, c) {
      EndValueSound(s, c);
    } else {
      FailOrGoSound(s, c, InNumberMove(s, c));
    }
  }

  lemma NameMoves(s: State, c: Byte)
    requires NameStep(s.step)
    ensures var m := InNameMove(s, c);
            m == Fail(s) || (Inside(m.state.step) && m == Go(s, m.state.step))
  {
  }

  lemma NameSound(s: State, c: Byte)
    requires NameStep(s.step)
    ensures Sound(s, c, InNameMove(s, c))
  {
    NameMoves(s, c);
    FailOrGoSound(s, c, InNameMove(s, c));
  }

  /** Begins a token. */
  predicate IsLiteralMove(s: State, m: Move) {
    !Between(m.state.step) && m.state.step != Failing && m == Move(s.(step := m.state.step), ScanBeginLiteral)
  }

  lemma BeginValueMoves(s: State, c: Byte)
    ensures var m := AtBeginValue(s, c);
            || m == Fail(s) || IsLiteralMove(s, m) || (IsSpace(c) && m == Move(s, ScanSkipSpace))
            || (c == '{' && m == Move(s.(step := BeginStringOrEmpty, stack := s.stack + [ObjectKey]), ScanBeginObject))
            || (c == '[' && m == Move(s.(step := BeginValueOrEmpty, stack := s.stack + [ArrayValue]), ScanBeginArray))
  {
  }

  lemma LiteralSound(s: State, c: Byte, m: Move)
    requires Between(s.step) && IsLiteralMove(s, m)
    ensures Sound(s, c, m)
  {
  }

  lemma BeginValueSound(s: State, c: Byte)
    requires s.step == BeginValue || s.step == BeginValueOrEmpty
    ensures Sound(s, c, AtBeginValue(s, c))
  {
    BeginValueMoves(s, c);
    if IsLiteralMove(s, AtBeginValue(s, c)) {
      LiteralSound(s, c, AtBeginValue(s, c));
    } else if AtBeginValue(s, c) == Fail(s) {
      FailSound(s, c);
    }
  }

  lemma EmptyObjectSound(s: State, c: Byte)
    requires s.step == BeginStringOrEmpty && s.stack != [] && c == '}'
    ensures Sound(s, c, AtEndValue(s.(stack := Retop(s.stack, ObjectValue)), c))
  {
    var t := s.(stack := Retop(s.stack, ObjectValue));
    assert Top(t.stack) == ObjectValue && t.stack[..|t.stack| - 1] == s.stack[..|s.stack| - 1];
    assert AtEndValue(t, c) == Move(Pop(t), ScanEndObject);
  }

  lemma BetweenSound(s: State, c: Byte)
    requires !StringStep(s.step) && !NumberStep(s.step) && !NameStep(s.step)
    ensures Sound(s, c, BetweenMove(s, c))
  {
    match s.step
    case BeginValueOrEmpty => BeginValueSound(s, c); EndValueSound(s, c);
    case BeginValue => BeginValueSound(s, c);
    case BeginStringOrEmpty =>
      FailSound(s, c);
      if c == '}' && s.stack != [] {
        EmptyObjectSound(s, c);
      }
    case BeginString => FailSound(s, c);
    case EndValue => EndValueSound(s, c);
    case EndTop => FailSound(s, c);
    case _ =>
  }

  lemma StepSound(s: State, c: Byte)
    ensures Sound(s, c, Next(s, c))
  {
    if StringStep(s.step) {
      StringSound(s, c);
    } else if NumberStep(s.step) {
      NumberSound(s, c);
    } else if NameStep(s.step) {
      NameSound(s, c);
    } else {
      BetweenSound(s, c);
    }
  }

  // ----- whole texts -----

  /** The codes of a scan, one for each byte. */
  ghost function Codes(b: Bytes): (r: seq<Code>)
    ensures |r| == |b|
  {
    if b == [] then []
    else Codes(b[..|b| - 1]) + [Next(Run(START, b[..|b| - 1]), b[|b| - 1]).code]
  }

  function Rebuilt(codes: seq<Code>): seq<Parse> {
    if codes == [] then [] else Replay(Rebuilt(codes[..|codes| - 1]), codes[|codes| - 1])
  }

  /** Whoever reads the codes alone knows the open containers after every prefix. */
  lemma {:induction false} CodesRebuildStack(b: Bytes)
    requires !Run(START, b).failed
    ensures Run(START, b).stack == Rebuilt(Codes(b)) && StackFits(Run(START, b))
  {
    if b != [] {
      var init, c := b[..|b| - 1], b[|b| - 1];
      var s := Run(START, init);
      AfterIs(s, c);
      StepSound(s, c);
      CodesRebuildStack(init);
      assert Codes(b) == Codes(init) + [Next(s, c).code];
      assert Codes(b)[..|Codes(b)| - 1] == Codes(init);
    }
  }

  /** Every code fits its byte, and one that closes or re-labels a container fits the innermost one. */
  lemma CodesTell(b: Bytes, i: nat)
    requires i < |b| && !Run(START, b[..i + 1]).failed
    ensures var s := Run(START, b[..i]);
            && Tells(Codes(b[..i + 1])[i], s.step, b[i], Run(START, b[..i + 1]).step)
            && Innermost(Rebuilt(Codes(b[..i])), Codes(b[..i + 1])[i])
  {
    var s := Run(START, b[..i]);
    assert b[..i + 1][..i] == b[..i];
    AfterIs(s, b[i]);
    StepSound(s, b[i]);
    CodesRebuildStack(b[..i]);
  }
}
