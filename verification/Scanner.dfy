/** The pushdown scanner of utils/jsonext/scanner.go. */
module Scanner {
  import opened JsonGrammar

  /** The transition to execute next; the source stores the state's function itself. */
  datatype Step =
    | BeginValueOrEmpty | BeginValue | BeginStringOrEmpty | BeginString | EndValue | EndTop
    | InString | InStringEsc | EscU | EscU1 | EscU12 | EscU123
    | Neg | One | Zero | Dot | Dot0 | Exp | ExpSign | Exp0
    | T | Tr | Tru | F | Fa | Fal | Fals | N | Nu | Nul
    | Failing

  datatype Parse = ObjectKey | ObjectValue | ArrayValue

  datatype Code =
    | ScanContinue | ScanBeginLiteral | ScanBeginObject | ScanObjectKey | ScanObjectValue | ScanEndObject
    | ScanBeginArray | ScanArrayValue | ScanEndArray | ScanSkipSpace | ScanEnd | ScanError

  datatype State = State(step: Step, endTop: bool, stack: seq<Parse>, failed: bool)

  datatype Move = Move(state: State, code: Code)

  const START: State := State(BeginValue, false, [], false)

  // ----- the transitions -----

  function Top(stack: seq<Parse>): Parse
    requires stack != []
  {
    stack[|stack| - 1]
  }

  function Retop(stack: seq<Parse>, p: Parse): seq<Parse>
    requires stack != []
  {
    stack[..|stack| - 1] + [p]
  }

  function Fail(s: State): Move {
    Move(s.(step := Failing, failed := true), ScanError)
  }

  function Go(s: State, step: Step): Move {
    Move(s.(step := step), ScanContinue)
  }

  /** `popParseState`. */
  function Pop(s: State): State
    requires s.stack != []
  {
    var rest := s.stack[..|s.stack| - 1];
    if rest == [] then s.(stack := rest, step := EndTop, endTop := true) else s.(stack := rest, step := EndValue)
  }

  /** A stray byte after the top-level value is complained about on the next call. */
  function AtEndTop(s: State, c: Byte): Move {
    if IsSpace(c) then Move(s, ScanEnd) else Move(Fail(s).state, ScanEnd)
  }

  function AtEndValue(s: State, c: Byte): Move {
    if s.stack == [] then AtEndTop(s.(step := EndTop, endTop := true), c)
    else if IsSpace(c) then Move(s.(step := EndValue), ScanSkipSpace)
    else
      match Top(s.stack)
      case ObjectKey =>
        if c == ':' then Move(s.(stack := Retop(s.stack, ObjectValue), step := BeginValue), ScanObjectKey) else Fail(s)
      case ObjectValue =>
        if c == ',' then Move(s.(stack := Retop(s.stack, ObjectKey), step := BeginString), ScanObjectValue)
        else if c == '}' then Move(Pop(s), ScanEndObject)
        else Fail(s)
      case ArrayValue =>
        if c == ',' then Move(s.(step := BeginValue), ScanArrayValue)
        else if c == ']' then Move(Pop(s), ScanEndArray)
        else Fail(s)
  }

  function AtBeginValue(s: State, c: Byte): Move {
    if IsSpace(c) then Move(s, ScanSkipSpace)
    else if c == '{' then Move(s.(step := BeginStringOrEmpty, stack := s.stack + [ObjectKey]), ScanBeginObject)
    else if c == '[' then Move(s.(step := BeginValueOrEmpty, stack := s.stack + [ArrayValue]), ScanBeginArray)
    else if c == '"' then Move(s.(step := InString), ScanBeginLiteral)
    else if c == '-' then Move(s.(step := Neg), ScanBeginLiteral)
    else if c == '0' then Move(s.(step := Zero), ScanBeginLiteral)
    else if c == 't' then Move(s.(step := T), ScanBeginLiteral)
    else if c == 'f' then Move(s.(step := F), ScanBeginLiteral)
    else if c == 'n' then Move(s.(step := N), ScanBeginLiteral)
    else if '1' <= c <= '9' then Move(s.(step := One), ScanBeginLiteral)
    else Fail(s)
  }

  function AtBeginValueOrEmpty(s: State, c: Byte): Move {
    if IsSpace(c) then Move(s, ScanSkipSpace)
    else if c == ']' then AtEndValue(s, c)
    else AtBeginValue(s, c)
  }

  function AtBeginString(s: State, c: Byte): Move {
    if IsSpace(c) then Move(s, ScanSkipSpace)
    else if c == '"' then Move(s.(step := InString), ScanBeginLiteral)
    else Fail(s)
  }

  /** The source indexes the top of the stack here; the state is entered with an object on it. */
  function AtBeginStringOrEmpty(s: State, c: Byte): Move {
    if IsSpace(c) then Move(s, ScanSkipSpace)
    else if c == '}' && s.stack != [] then AtEndValue(s.(stack := Retop(s.stack, ObjectValue)), c)
    else AtBeginString(s, c)
  }

  function InStringMove(s: State, c: Byte): Move {
    match s.step
    case InString =>
      if c == '"' then Go(s, EndValue) else if c == '\\' then Go(s, InStringEsc) else if c < ' ' then Fail(s) else Go(s, InString)
    case InStringEsc => if IsEscaped(c) then Go(s, InString) else if c == 'u' then Go(s, EscU) else Fail(s)
    case EscU => if IsHex(c) then Go(s, EscU1) else Fail(s)
    case EscU1 => if IsHex(c) then Go(s, EscU12) else Fail(s)
    case EscU12 => if IsHex(c) then Go(s, EscU123) else Fail(s)
    case _ => if IsHex(c) then Go(s, InString) else Fail(s)
  }

  function AtZero(s: State, c: Byte): Move {
    if c == '.' then Go(s, Dot) else if IsE(c) then Go(s, Exp) else AtEndValue(s, c)
  }

  function InNumberMove(s: State, c: Byte): Move {
    match s.step
    case Neg => if c == '0' then Go(s, Zero) else if '1' <= c <= '9' then Go(s, One) else Fail(s)
    case One => if IsDigit(c) then Go(s, One) else AtZero(s, c)
    case Zero => AtZero(s, c)
    case Dot => if IsDigit(c) then Go(s, Dot0) else Fail(s)
    case Dot0 => if IsDigit(c) then Go(s, Dot0) else if IsE(c) then Go(s, Exp) else AtEndValue(s, c)
    case Exp => if IsSign(c) then Go(s, ExpSign) else if IsDigit(c) then Go(s, Exp0) else Fail(s)
    case ExpSign => if IsDigit(c) then Go(s, Exp0) else Fail(s)
    case _ => if IsDigit(c) then Go(s, Exp0) else AtEndValue(s, c)
  }

  function InNameMove(s: State, c: Byte): Move {
    match s.step
    case T => if c == 'r' then Go(s, Tr) else Fail(s)
    case Tr => if c == 'u' then Go(s, Tru) else Fail(s)
    case Tru => if c == 'e' then Go(s, EndValue) else Fail(s)
    case F => if c == 'a' then Go(s, Fa) else Fail(s)
    case Fa => if c == 'l' then Go(s, Fal) else Fail(s)
    case Fal => if c == 's' then Go(s, Fals) else Fail(s)
    case Fals => if c == 'e' then Go(s, EndValue) else Fail(s)
    case N => if c == 'u' then Go(s, Nu) else Fail(s)
    case Nu => if c == 'l' then Go(s, Nul) else Fail(s)
    case _ => if c == 'l' then Go(s, EndValue) else Fail(s)
  }

  function BetweenMove(s: State, c: Byte): Move {
    match s.step
    case BeginValueOrEmpty => AtBeginValueOrEmpty(s, c)
    case BeginValue => AtBeginValue(s, c)
    case BeginStringOrEmpty => AtBeginStringOrEmpty(s, c)
    case BeginString => AtBeginString(s, c)
    case EndValue => AtEndValue(s, c)
    case EndTop => AtEndTop(s, c)
    case _ => Move(s, ScanError)
  }

  predicate StringStep(step: Step) {
    step == InString || step == InStringEsc || step == EscU || step == EscU1 || step == EscU12 || step == EscU123
  }

  predicate NumberStep(step: Step) {
    step == Neg || step == One || step == Zero || step == Dot || step == Dot0 || step == Exp || step == ExpSign || step == Exp0
  }

  predicate NameStep(step: Step) {
    || step == T || step == Tr || step == Tru || step == F || step == Fa || step == Fal || step == Fals
    || step == N || step == Nu || step == Nul
  }

  /** One call of `scan.step`. */
  function Next(s: State, c: Byte): Move {
    if StringStep(s.step) then InStringMove(s, c)
    else if NumberStep(s.step) then InNumberMove(s, c)
    else if NameStep(s.step) then InNameMove(s, c)
    else BetweenMove(s, c)
  }

  /** The field `step` holds a function; a proof looks into it where it names `Next`. */
  ghost predicate IsTransition(f: (State, Byte) -> State) {
    forall s, c {:trigger Next(s, c)} :: f(s, c) == Next(s, c).state
  }

  lemma TransitionExists()
    ensures exists f :: IsTransition(f)
  {
    var f := (s: State, c: Byte) => Next(s, c).state;
    assert IsTransition(f);
  }

  ghost function Transition(): (f: (State, Byte) -> State)
    ensures IsTransition(f)
  {
    TransitionExists();
    var f :| IsTransition(f);
    f
  }

  ghost function After(s: State, c: Byte): State {
    Transition()(s, c)
  }

  lemma AfterIs(s: State, c: Byte)
    ensures After(s, c) == Next(s, c).state
  {
  }

  ghost function Run(s: State, b: Bytes): State {
    if b == [] then s else After(Run(s, b[..|b| - 1]), b[|b| - 1])
  }

  lemma {:induction false} RunConcat(s: State, a: Bytes, b: Bytes)
    ensures Run(s, a + b) == Run(Run(s, a), b)
  {
    if b == [] {
      assert a + b == a;
    } else {
      RunConcat(s, a, b[..|b| - 1]);
      assert (a + b)[..|a + b| - 1] == a + b[..|b| - 1];
    }
  }

  /** `eof`. */
  predicate EndsWell(s: State) {
    !s.failed && (s.endTop || Next(s, ' ').state.endTop)
  }

  /** What `checkValid` decides. */
  ghost predicate Accepted(b: Bytes) {
    EndsWell(Run(START, b))
  }
}
