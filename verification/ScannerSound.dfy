/**
 Only JSON texts are accepted: after every prefix the scanner's stack mirrors the
 containers that the prefix leaves open.
 */
module ScannerSound {
  import opened JsonGrammar
  import opened Scanner
  import ScannerComplete

  // ----- what a prefix can look like -----

  ghost predicate KeyExpected(stack: seq<Parse>) {
    stack != [] && Top(stack) == ObjectKey
  }

  /** What stands between `{` and the place where a key may begin. */
  ghost predicate KeyFrame(r: Bytes) {
    IsWs(r) || exists j :: 0 <= j < |r| && r[j] == ',' && IsMembers(r[..j]) && IsWs(r[j + 1..])
  }

  /** A key frame and a complete key. */
  ghost predicate IsKeyed(x: Bytes) {
    exists i, j :: 0 <= i <= j <= |x| && KeyFrame(x[..i]) && IsString(x[i..j]) && IsWs(x[j..])
  }

  /** What stands between `{` and the place where the value of a key may begin. */
  ghost predicate ValueFrame(r: Bytes) {
    exists j :: 0 <= j < |r| && r[j] == ':' && IsKeyed(r[..j]) && IsWs(r[j + 1..])
  }

  /** What stands between `[` and the place where an element may begin. */
  ghost predicate ElementFrame(r: Bytes) {
    IsWs(r) || exists j :: 0 <= j < |r| && r[j] == ',' && IsElements(r[..j]) && IsWs(r[j + 1..])
  }

  ghost predicate Frame(top: Parse, r: Bytes) {
    match top
    case ObjectKey => KeyFrame(r)
    case ObjectValue => ValueFrame(r)
    case ArrayValue => ElementFrame(r)
  }

  function Bracket(top: Parse): Byte {
    if top == ArrayValue then '[' else '{'
  }

  /** `p` opens exactly the containers `stack`, and a key or value may begin after it. */
  ghost predicate Open(stack: seq<Parse>, p: Bytes)
    decreases |stack|, 1
  {
    if stack == [] then IsWs(p) else exists k :: 0 <= k < |p| && OpenAt(stack, p, k)
  }

  /** The innermost container opens at `k`. */
  ghost predicate OpenAt(stack: seq<Parse>, p: Bytes, k: nat)
    requires stack != [] && k < |p|
    decreases |stack|, 0
  {
    var outer := stack[..|stack| - 1];
    && Open(outer, p[..k]) && !KeyExpected(outer)
    && p[k] == Bracket(Top(stack)) && Frame(Top(stack), p[k + 1..])
  }

  ghost predicate JustOpened(stack: seq<Parse>, p: Bytes) {
    stack != [] && exists k :: 0 <= k < |p| && OpenAt(stack, p, k) && IsWs(p[k + 1..])
  }

  ghost predicate Item(stack: seq<Parse>, v: Bytes) {
    if KeyExpected(stack) then IsString(v) else IsValue(v)
  }

  /** `p` has just completed a key or value inside `stack`. */
  ghost predicate Finished(stack: seq<Parse>, p: Bytes) {
    exists a, b :: 0 <= a <= b <= |p| && FinishedAt(stack, p, a, b)
  }

  ghost predicate FinishedAt(stack: seq<Parse>, p: Bytes, a: nat, b: nat)
    requires a <= b <= |p|
  {
    Open(stack, p[..a]) && Item(stack, p[a..b]) && IsWs(p[b..])
  }

  /** The beginnings of tokens each step stands for. */
  ghost predicate Partial(step: Step, x: Bytes) {
    var n := |x|;
    match step
    case InString => n >= 1 && x[0] == '"' && IsChars(x[1..])
    case InStringEsc => n >= 2 && x[0] == '"' && x[n - 1] == '\\' && IsChars(x[1..n - 1])
    case EscU => EscapeBegun(x, 0)
    case EscU1 => EscapeBegun(x, 1)
    case EscU12 => EscapeBegun(x, 2)
    case EscU123 => EscapeBegun(x, 3)
    case Neg => x == ['-']
    case Zero => IsInteger(x)
    case One => IsLong(x)
    case Dot => n > 0 && IsInteger(x[..n - 1]) && x[n - 1] == '.'
    case Dot0 => exists k :: 0 <= k <= n && IsInteger(x[..k]) && IsFrac(x[k..])
    case Exp => n > 0 && IsDecimal(x[..n - 1]) && IsE(x[n - 1])
    case ExpSign => n > 1 && IsDecimal(x[..n - 2]) && IsE(x[n - 2]) && IsSign(x[n - 1])
    case Exp0 => exists k :: 0 <= k <= n && IsDecimal(x[..k]) && IsExp(x[k..])
    case T => x == ['t']
    case Tr => x == ['t', 'r']
    case Tru => x == ['t', 'r', 'u']
    case F => x == ['f']
    case Fa => x == ['f', 'a']
    case Fal => x == ['f', 'a', 'l']
    case Fals => x == ['f', 'a', 'l', 's']
    case N => x == ['n']
    case Nu => x == ['n', 'u']
    case Nul => x == ['n', 'u', 'l']
    case _ => false
  }

  /** minus? and an int that does not begin with 0 */
  ghost predicate IsLong(x: Bytes) {
    var d := if x != [] && x[0] == '-' then x[1..] else x;
    d != [] && '1' <= d[0] <= '9' && IsDigits(d[1..])
  }

  /** A string with an open escape of `h` hexadecimal digits. */
  ghost predicate EscapeBegun(x: Bytes, h: nat) {
    var n := |x|;
    && n >= 3 + h && x[0] == '"' && x[n - 2 - h] == '\\' && x[n - 1 - h] == 'u' && IsChars(x[1..n - 2 - h])
    && forall i :: n - h <= i < n ==> IsHex(x[i])
  }

  ghost predicate Token(stack: seq<Parse>, p: Bytes, step: Step) {
    && (KeyExpected(stack) ==> StringStep(step))
    && exists a :: 0 <= a <= |p| && Open(stack, p[..a]) && Partial(step, p[a..])
  }

  /** The scanner's state after reading `p` describes `p`. */
  ghost predicate Describes(s: State, p: Bytes) {
    if s.failed then s.step == Failing
    else if s.endTop then s.step == EndTop && s.stack == [] && IsText(p)
    else
      match s.step
      case BeginValue => Open(s.stack, p) && !KeyExpected(s.stack)
      case BeginValueOrEmpty => JustOpened(s.stack, p) && Top(s.stack) == ArrayValue
      case BeginString => Open(s.stack, p) && KeyExpected(s.stack)
      case BeginStringOrEmpty => JustOpened(s.stack, p) && KeyExpected(s.stack)
      case EndValue => Finished(s.stack, p)
      case _ => Token(s.stack, p, s.step)
  }

  // ----- white space -----

  lemma WsSnoc(w: Bytes, c: Byte)
    requires IsWs(w) && IsSpace(c)
    ensures IsWs(w + [c])
  {
  }

  lemma Snoc(p: Bytes, c: Byte, k: nat)
    requires k <= |p|
    ensures (p + [c])[..k] == p[..k] && (p + [c])[k..] == p[k..] + [c]
  {
  }

  lemma FrameSpace(top: Parse, r: Bytes, c: Byte)
    requires Frame(top, r) && IsSpace(c)
    ensures Frame(top, r + [c])
  {
    var x := r + [c];
    if top != ObjectValue && IsWs(r) {
      WsSnoc(r, c);
    } else {
      var j :| 0 <= j < |r| && IsWs(r[j + 1..])
               && match top
                  case ObjectKey => r[j] == ',' && IsMembers(r[..j])
                  case ObjectValue => r[j] == ':' && IsKeyed(r[..j])
                  case ArrayValue => r[j] == ',' && IsElements(r[..j]);
      Snoc(r, c, j);
      Snoc(r, c, j + 1);
      WsSnoc(r[j + 1..], c);
      assert x[j] == r[j];
    }
  }

  lemma OpenAtSpace(stack: seq<Parse>, p: Bytes, k: nat, c: Byte)
    requires stack != [] && k < |p| && OpenAt(stack, p, k) && IsSpace(c)
    ensures OpenAt(stack, p + [c], k)
  {
    Snoc(p, c, k);
    Snoc(p, c, k + 1);
    FrameSpace(Top(stack), p[k + 1..], c);
  }

  lemma OpenSpace(stack: seq<Parse>, p: Bytes, c: Byte)
    requires Open(stack, p) && IsSpace(c)
    ensures Open(stack, p + [c])
  {
    if stack == [] {
      WsSnoc(p, c);
    } else {
      var k :| 0 <= k < |p| && OpenAt(stack, p, k);
      OpenAtSpace(stack, p, k, c);
    }
  }

  lemma JustOpenedSpace(stack: seq<Parse>, p: Bytes, c: Byte)
    requires JustOpened(stack, p) && IsSpace(c)
    ensures JustOpened(stack, p + [c])
  {
    var k :| 0 <= k < |p| && OpenAt(stack, p, k) && IsWs(p[k + 1..]);
    OpenAtSpace(stack, p, k, c);
    Snoc(p, c, k + 1);
    WsSnoc(p[k + 1..], c);
  }

  lemma FinishedSpace(stack: seq<Parse>, p: Bytes, c: Byte)
    requires Finished(stack, p) && IsSpace(c)
    ensures Finished(stack, p + [c])
  {
    var a, b :| 0 <= a <= b <= |p| && FinishedAt(stack, p, a, b);
    Snoc(p, c, a);
    Snoc(p, c, b);
    assert (p + [c])[a..b] == p[a..b];
    WsSnoc(p[b..], c);
    assert FinishedAt(stack, p + [c], a, b);
  }

  lemma FinishedIsText(p: Bytes)
    requires Finished([], p)
    ensures IsText(p)
  {
    var a, b :| 0 <= a <= b <= |p| && FinishedAt([], p, a, b);
    assert IsWs(p[..a]) && IsValue(p[a..b]) && IsWs(p[b..]);
  }

  // ----- opening -----

  lemma Opens(stack: seq<Parse>, p: Bytes, top: Parse)
    requires Open(stack, p) && !KeyExpected(stack) && top != ObjectValue
    ensures JustOpened(stack + [top], p + [Bracket(top)])
  {
    var s, q := stack + [top], p + [Bracket(top)];
    assert s[..|s| - 1] == stack && q[..|p|] == p && q[|p| + 1..] == [];
    assert OpenAt(s, q, |p|);
  }

  lemma JustOpenedOpen(stack: seq<Parse>, p: Bytes)
    requires JustOpened(stack, p)
    ensures Open(stack, p)
  {
  }

  // ----- completing a value -----

  /** The bytes after the innermost bracket, split into frame, value and space. */
  lemma ElementsGrow(x: Bytes, a: nat, b: nat)
    requires a <= b <= |x| && ElementFrame(x[..a]) && IsValue(x[a..b]) && IsWs(x[b..])
    ensures IsElements(x)
  {
    if IsWs(x[..a]) {
      assert IsText(x);
    } else {
      var j :| 0 <= j < a && x[..a][j] == ',' && IsElements(x[..a][..j]) && IsWs(x[..a][j + 1..]);
      SliceSlice(x, a, j);
      TextAt(x, j + 1, a, b);
      MoreElements(x, j);
    }
  }

  lemma MoreElements(x: Bytes, j: nat)
    requires j < |x| && x[j] == ',' && IsElements(x[..j]) && IsText(x[j + 1..])
    ensures IsElements(x)
  {
  }

  lemma TextAt(x: Bytes, from: nat, a: nat, b: nat)
    requires from <= a <= b <= |x| && IsWs(x[from..a]) && IsValue(x[a..b]) && IsWs(x[b..])
    ensures IsText(x[from..])
  {
    var y := x[from..];
    assert y == x[from..|x|];
    SubSlice(x, from, |x|, from, a);
    SubSlice(x, from, |x|, a, b);
    SubSlice(x, from, |x|, b, |x|);
    assert y[..a - from] == y[0..a - from] && y[b - from..] == y[b - from..|x| - from] && x[b..] == x[b..|x|];
  }

  lemma SliceSlice(x: Bytes, a: nat, j: nat)
    requires j < a <= |x|
    ensures x[..a][..j] == x[..j] && x[..a][j + 1..] == x[j + 1..a] && x[..a][j] == x[j]
  {
  }

  lemma KeyAt(x: Bytes, from: nat, i: nat, j: nat, to: nat)
    requires from <= i <= j <= to <= |x| && IsWs(x[from..i]) && IsString(x[i..j]) && IsWs(x[j..to])
    ensures IsKey(x[from..to])
  {
    var y := x[from..to];
    SubSlice(x, from, to, from, i);
    SubSlice(x, from, to, i, j);
    SubSlice(x, from, to, j, to);
    assert y[..i - from] == y[0..i - from] && y[j - from..] == y[j - from..to - from];
  }

  lemma SubSlice(x: Bytes, from: nat, to: nat, i: nat, j: nat)
    requires from <= i <= j <= to <= |x|
    ensures x[from..to][i - from..j - from] == x[i..j]
  {
    var y, z := x[from..to][i - from..j - from], x[i..j];
    forall k | 0 <= k < |z| ensures y[k] == z[k] {
    }
  }

  /** A key frame with a key, a colon and a text is a list of members. */
  lemma MembersOf(x: Bytes, i: nat, j: nat, k: nat)
    requires i <= j <= k < |x| && KeyFrame(x[..i]) && IsString(x[i..j]) && IsWs(x[j..k]) && x[k] == ':'
    requires IsText(x[k + 1..])
    ensures IsMembers(x)
  {
    if IsWs(x[..i]) {
      assert x[0..i] == x[..i] && x[0..k] == x[..k];
      KeyAt(x, 0, i, j, k);
      assert IsMember(x);
    } else {
      var l :| 0 <= l < i && x[..i][l] == ',' && IsMembers(x[..i][..l]) && IsWs(x[..i][l + 1..]);
      SliceSlice(x, i, l);
      KeyAt(x, l + 1, i, j, k);
      MemberAt(x, l + 1, k);
      MoreMembers(x, l);
    }
  }

  lemma MoreMembers(x: Bytes, l: nat)
    requires l < |x| && x[l] == ',' && IsMembers(x[..l]) && IsMember(x[l + 1..])
    ensures IsMembers(x)
  {
  }

  lemma MemberAt(x: Bytes, from: nat, k: nat)
    requires from <= k < |x| && IsKey(x[from..k]) && x[k] == ':' && IsText(x[k + 1..])
    ensures IsMember(x[from..])
  {
    var y := x[from..];
    assert y[..k - from] == x[from..k] && y[k - from] == ':' && y[k - from + 1..] == x[k + 1..];
  }

  lemma MembersGrow(x: Bytes, a: nat, b: nat)
    requires a <= b <= |x| && ValueFrame(x[..a]) && IsValue(x[a..b]) && IsWs(x[b..])
    ensures IsMembers(x)
  {
    var k :| 0 <= k < a && x[..a][k] == ':' && IsKeyed(x[..a][..k]) && IsWs(x[..a][k + 1..]);
    SliceSlice(x, a, k);
    TextAt(x, k + 1, a, b);
    KeyedMembers(x, k);
  }

  lemma KeyedMembers(x: Bytes, k: nat)
    requires k < |x| && IsKeyed(x[..k]) && x[k] == ':' && IsText(x[k + 1..])
    ensures IsMembers(x)
  {
    var y := x[..k];
    var i, j :| 0 <= i <= j <= |y| && KeyFrame(y[..i]) && IsString(y[i..j]) && IsWs(y[j..]);
    PrefixSlices(x, i, j, k);
    MembersOf(x, i, j, k);
  }

  lemma PrefixSlices(x: Bytes, i: nat, j: nat, k: nat)
    requires i <= j <= k <= |x|
    ensures x[..k][..i] == x[..i] && x[..k][i..j] == x[i..j] && x[..k][j..] == x[j..k]
  {
  }

  /** The rest of the prefix after the innermost bracket when a key or value is finished. */
  ghost predicate FinishedIn(stack: seq<Parse>, p: Bytes, k: nat, a: nat, b: nat)
    requires stack != [] && k < a <= b <= |p|
  {
    var outer := stack[..|stack| - 1];
    && Open(outer, p[..k]) && !KeyExpected(outer) && p[k] == Bracket(Top(stack))
    && Frame(Top(stack), p[k + 1..a]) && Item(stack, p[a..b]) && IsWs(p[b..])
  }

  lemma FinishedInside(stack: seq<Parse>, p: Bytes) returns (k: nat, a: nat, b: nat)
    requires stack != [] && Finished(stack, p)
    ensures k < a <= b <= |p| && FinishedIn(stack, p, k, a, b)
  {
    a, b :| 0 <= a <= b <= |p| && FinishedAt(stack, p, a, b);
    assert Open(stack, p[..a]);
    k :| 0 <= k < |p[..a]| && OpenAt(stack, p[..a], k);
    SliceSlice(p, a, k);
  }

  /** Replaces the innermost container's frame. */
  lemma Reframed(stack: seq<Parse>, p: Bytes, k: nat, top: Parse, c: Byte)
    requires stack != [] && k < |p| && Open(stack[..|stack| - 1], p[..k]) && !KeyExpected(stack[..|stack| - 1])
    requires p[k] == Bracket(top) && Frame(top, p[k + 1..] + [c])
    ensures Open(Retop(stack, top), p + [c])
  {
    var s, q := Retop(stack, top), p + [c];
    assert s[..|s| - 1] == stack[..|stack| - 1];
    Snoc(p, c, k);
    Snoc(p, c, k + 1);
    assert OpenAt(s, q, k);
  }

  /** The container that opens at `k` is complete with `c`. */
  lemma Completed(stack: seq<Parse>, p: Bytes, k: nat, c: Byte)
    requires stack != [] && k < |p| && Open(stack[..|stack| - 1], p[..k]) && !KeyExpected(stack[..|stack| - 1])
    requires IsValue(p[k..] + [c])
    ensures Finished(stack[..|stack| - 1], p + [c])
  {
    var outer, q := stack[..|stack| - 1], p + [c];
    Snoc(p, c, k);
    assert q[k..|q|] == q[k..] && q[|q|..] == [];
    assert FinishedAt(outer, q, k, |q|);
  }

  lemma ArrayOf(p: Bytes, k: nat)
    requires k < |p| && p[k] == '[' && (IsWs(p[k + 1..]) || IsElements(p[k + 1..]))
    ensures IsValue(p[k..] + [']'])
  {
    var v := p[k..] + [']'];
    assert v[1..|v| - 1] == p[k + 1..];
    assert IsArray(v);
  }

  lemma ObjectOf(p: Bytes, k: nat)
    requires k < |p| && p[k] == '{' && (IsWs(p[k + 1..]) || IsMembers(p[k + 1..]))
    ensures IsValue(p[k..] + ['}'])
  {
    var v := p[k..] + ['}'];
    assert v[1..|v| - 1] == p[k + 1..];
    assert IsObject(v);
  }

  lemma PopDescribes(s: State, p: Bytes)
    requires !s.failed && !s.endTop && s.stack != [] && Finished(s.stack[..|s.stack| - 1], p)
    ensures Describes(Pop(s), p)
  {
    if |s.stack| == 1 {
      FinishedIsText(p);
    }
  }

  lemma Rest(p: Bytes, k: nat, a: nat, b: nat)
    requires k < a <= b <= |p|
    ensures var x := p[k + 1..];
            && x[..a - k - 1] == p[k + 1..a] && x[a - k - 1..b - k - 1] == p[a..b] && x[b - k - 1..] == p[b..]
  {
  }

  lemma AfterKey(s: State, p: Bytes)
    requires !s.failed && !s.endTop && KeyExpected(s.stack) && Finished(s.stack, p)
    ensures Open(Retop(s.stack, ObjectValue), p + [':'])
  {
    var k, a, b := FinishedInside(s.stack, p);
    Rest(p, k, a, b);
    var x := p[k + 1..];
    assert IsKeyed(x);
    var r := x + [':'];
    assert r[..|x|] == x && r[|x| + 1..] == [];
    assert ValueFrame(r);
    Reframed(s.stack, p, k, ObjectValue, ':');
  }

  lemma MembersInside(s: State, p: Bytes) returns (k: nat)
    requires s.stack != [] && Top(s.stack) == ObjectValue && Finished(s.stack, p)
    ensures k < |p| && Open(s.stack[..|s.stack| - 1], p[..k]) && !KeyExpected(s.stack[..|s.stack| - 1])
    ensures p[k] == '{' && IsMembers(p[k + 1..])
  {
    var a, b;
    k, a, b := FinishedInside(s.stack, p);
    MembersRest(s.stack, p, k, a, b);
  }

  lemma MembersRest(stack: seq<Parse>, p: Bytes, k: nat, a: nat, b: nat)
    requires stack != [] && Top(stack) == ObjectValue && k < a <= b <= |p| && FinishedIn(stack, p, k, a, b)
    ensures IsMembers(p[k + 1..])
  {
    MembersBetween(p, k, a, b);
  }

  lemma MembersBetween(p: Bytes, k: nat, a: nat, b: nat)
    requires k < a <= b <= |p| && ValueFrame(p[k + 1..a]) && IsValue(p[a..b]) && IsWs(p[b..])
    ensures IsMembers(p[k + 1..])
  {
    Rest(p, k, a, b);
    MembersGrow(p[k + 1..], a - k - 1, b - k - 1);
  }

  lemma AfterMember(s: State, p: Bytes, c: Byte)
    requires !s.failed && !s.endTop && s.stack != [] && Top(s.stack) == ObjectValue && Finished(s.stack, p)
    requires c == ',' || c == '}'
    ensures Describes(AtEndValue(s, c).state, p + [c])
  {
    var k := MembersInside(s, p);
    if c == ',' {
      var x := p[k + 1..];
      var r := x + [','];
      assert r[..|x|] == x && r[|x| + 1..] == [];
      assert KeyFrame(r);
      Reframed(s.stack, p, k, ObjectKey, ',');
    } else {
      ObjectOf(p, k);
      Completed(s.stack, p, k, '}');
      PopDescribes(s, p + [c]);
    }
  }

  lemma ElementsInside(s: State, p: Bytes) returns (k: nat)
    requires s.stack != [] && Top(s.stack) == ArrayValue && Finished(s.stack, p)
    ensures k < |p| && Open(s.stack[..|s.stack| - 1], p[..k]) && !KeyExpected(s.stack[..|s.stack| - 1])
    ensures p[k] == '[' && IsElements(p[k + 1..])
  {
    var a, b;
    k, a, b := FinishedInside(s.stack, p);
    ElementsRest(s.stack, p, k, a, b);
  }

  lemma ElementsRest(stack: seq<Parse>, p: Bytes, k: nat, a: nat, b: nat)
    requires stack != [] && Top(stack) == ArrayValue && k < a <= b <= |p| && FinishedIn(stack, p, k, a, b)
    ensures IsElements(p[k + 1..])
  {
    ElementsBetween(p, k, a, b);
  }

  lemma ElementsBetween(p: Bytes, k: nat, a: nat, b: nat)
    requires k < a <= b <= |p| && ElementFrame(p[k + 1..a]) && IsValue(p[a..b]) && IsWs(p[b..])
    ensures IsElements(p[k + 1..])
  {
    var x := p[k + 1..];
    Rest(p, k, a, b);
    assert ElementFrame(x[..a - k - 1]);
    assert IsValue(x[a - k - 1..b - k - 1]);
    ElementsGrow(x, a - k - 1, b - k - 1);
  }

  lemma ElementsThenComma(x: Bytes)
    requires IsElements(x)
    ensures ElementFrame(x + [','])
  {
    var r := x + [','];
    assert r[..|x|] == x && r[|x| + 1..] == [];
  }

  lemma AfterElement(s: State, p: Bytes, c: Byte)
    requires !s.failed && !s.endTop && s.stack != [] && Top(s.stack) == ArrayValue && Finished(s.stack, p)
    requires c == ',' || c == ']'
    ensures Describes(AtEndValue(s, c).state, p + [c])
  {
    if c == ',' {
      ElementComma(s, p);
    } else {
      ArrayEnds(s, p);
      PopDescribes(s, p + [c]);
    }
  }

  lemma ElementComma(s: State, p: Bytes)
    requires s.stack != [] && Top(s.stack) == ArrayValue && Finished(s.stack, p)
    ensures Open(s.stack, p + [','])
  {
    var k := ElementsInside(s, p);
    ElementsThenComma(p[k + 1..]);
    Reframed(s.stack, p, k, ArrayValue, ',');
    assert Retop(s.stack, ArrayValue) == s.stack;
  }

  lemma ArrayEnds(s: State, p: Bytes)
    requires s.stack != [] && Top(s.stack) == ArrayValue && Finished(s.stack, p)
    ensures Finished(s.stack[..|s.stack| - 1], p + [']'])
  {
    var k := ElementsInside(s, p);
    ArrayOf(p, k);
    Completed(s.stack, p, k, ']');
  }

  lemma TextSpace(p: Bytes, c: Byte)
    requires IsText(p) && IsSpace(c)
    ensures IsText(p + [c])
  {
    var i, j :| 0 <= i <= j <= |p| && IsWs(p[..i]) && IsValue(p[i..j]) && IsWs(p[j..]);
    Snoc(p, c, i);
    Snoc(p, c, j);
    assert (p + [c])[i..j] == p[i..j];
    WsSnoc(p[j..], c);
  }

  /** `stateEndValue`, from whatever state it is called. */
  lemma EndValueDescribes(s: State, p: Bytes, c: Byte)
    requires !s.failed && !s.endTop && Finished(s.stack, p)
    ensures Describes(AtEndValue(s, c).state, p + [c])
  {
    if s.stack == [] {
      FinishedIsText(p);
      if IsSpace(c) {
        TextSpace(p, c);
      }
    } else if IsSpace(c) {
      FinishedSpace(s.stack, p, c);
    } else if Top(s.stack) == ObjectKey {
      if c == ':' {
        AfterKey(s, p);
      }
    } else if Top(s.stack) == ObjectValue {
      if c == ',' || c == '}' {
        AfterMember(s, p, c);
      }
    } else if c == ',' || c == ']' {
      AfterElement(s, p, c);
    }
  }

  /** An empty container closes. */
  lemma EmptyCloses(s: State, p: Bytes, c: Byte)
    requires !s.failed && !s.endTop && JustOpened(s.stack, p)
    requires if Top(s.stack) == ArrayValue then c == ']' else c == '}'
    ensures Describes(Pop(s), p + [c])
  {
    var k :| 0 <= k < |p| && OpenAt(s.stack, p, k) && IsWs(p[k + 1..]);
    if c == ']' {
      ArrayOf(p, k);
    } else {
      ObjectOf(p, k);
    }
    Completed(s.stack, p, k, c);
    PopDescribes(s, p + [c]);
  }

  // ----- tokens -----

  lemma Kept(stack: seq<Parse>, p: Bytes, a: nat, c: Byte, step: Step)
    requires a <= |p| && Open(stack, p[..a]) && Partial(step, p[a..] + [c])
    requires KeyExpected(stack) ==> StringStep(step)
    ensures Token(stack, p + [c], step)
  {
    Snoc(p, c, a);
  }

  lemma Ended(stack: seq<Parse>, p: Bytes, a: nat, c: Byte)
    requires a <= |p| && Open(stack, p[..a]) && Item(stack, p[a..] + [c])
    ensures Finished(stack, p + [c])
  {
    var q := p + [c];
    Snoc(p, c, a);
    assert q[a..|q|] == q[a..] && q[|q|..] == [];
    assert FinishedAt(stack, q, a, |q|);
  }

  lemma Begun(stack: seq<Parse>, p: Bytes, c: Byte, step: Step)
    requires Open(stack, p) && Partial(step, [c]) && (KeyExpected(stack) ==> StringStep(step))
    ensures Token(stack, p + [c], step)
  {
    assert p[..|p|] == p && p[|p|..] + [c] == [c];
    Kept(stack, p, |p|, c, step);
  }

  lemma CharsSnoc(x: Bytes, c: Byte)
    requires IsChars(x) && IsPlain(c)
    ensures IsChars(x + [c])
  {
    assert (x + [c])[..|x|] == x;
  }

  lemma CharsEscape(x: Bytes, c: Byte)
    requires IsChars(x) && IsEscaped(c)
    ensures IsChars(x + ['\\', c])
  {
    assert (x + ['\\', c])[..|x|] == x;
  }

  lemma CharsUnicode(x: Bytes, h: Bytes)
    requires IsChars(x) && |h| == 4 && forall i :: 0 <= i < 4 ==> IsHex(h[i])
    ensures IsChars(x + ['\\', 'u'] + h)
  {
    var b := x + ['\\', 'u'] + h;
    assert b[..|b| - 6] == x;
    assert b[|b| - 4] == h[0] && b[|b| - 3] == h[1] && b[|b| - 2] == h[2] && b[|b| - 1] == h[3];
  }

  lemma PlainGrows(x: Bytes, c: Byte)
    requires Partial(InString, x) && IsPlain(c)
    ensures Partial(InString, x + [c])
  {
    CharsSnoc(x[1..], c);
    assert (x + [c])[1..] == x[1..] + [c];
  }

  lemma EscapeGrows(x: Bytes, c: Byte)
    requires Partial(InStringEsc, x) && IsEscaped(c)
    ensures Partial(InString, x + [c])
  {
    var chars := x[1..|x| - 1];
    CharsEscape(chars, c);
    assert x[1..] == chars + ['\\'];
    assert (x + [c])[1..] == x[1..] + [c];
    assert (x + [c])[1..] == chars + ['\\', c];
  }

  lemma HexGrows(x: Bytes, c: Byte, h: nat)
    requires EscapeBegun(x, h) && IsHex(c)
    ensures EscapeBegun(x + [c], h + 1)
  {
    assert (x + [c])[1..|x| - 2 - h] == x[1..|x| - 2 - h];
  }

  lemma UnicodeGrows(x: Bytes)
    requires EscapeBegun(x, 4)
    ensures Partial(InString, x)
  {
    var n := |x|;
    CharsUnicode(x[1..n - 6], x[n - 4..]);
    assert x[1..] == x[1..n - 6] + ['\\', 'u'] + x[n - 4..];
  }

  lemma EscapeBegins(x: Bytes)
    requires Partial(InStringEsc, x)
    ensures EscapeBegun(x + ['u'], 0)
  {
    assert (x + ['u'])[1..|x| - 1] == x[1..|x| - 1];
  }

  lemma StringEnds(x: Bytes)
    requires Partial(InString, x)
    ensures IsString(x + ['"'])
  {
    assert (x + ['"'])[1..|x|] == x[1..];
  }

  lemma BackslashGrows(x: Bytes)
    requires Partial(InString, x)
    ensures Partial(InStringEsc, x + ['\\'])
  {
    assert (x + ['\\'])[1..|x|] == x[1..];
  }

  lemma StringGrows(step: Step, x: Bytes, c: Byte, next: Step)
    requires StringStep(step) && Partial(step, x)
    requires next != EndValue && InStringMove(START.(step := step), c) == Go(START, next)
    ensures StringStep(next) && Partial(next, x + [c])
  {
    if step == InString {
      if c == '\\' { BackslashGrows(x); } else { PlainGrows(x, c); }
    } else if step == InStringEsc {
      if c == 'u' { EscapeBegins(x); } else { EscapeGrows(x, c); }
    } else {
      var h := if step == EscU then 0 else if step == EscU1 then 1 else if step == EscU12 then 2 else 3;
      HexGrows(x, c, h);
      if h == 3 { UnicodeGrows(x + [c]); }
    }
  }

  lemma StringDescribes(s: State, p: Bytes, c: Byte)
    requires !s.failed && !s.endTop && StringStep(s.step) && Token(s.stack, p, s.step)
    ensures Describes(InStringMove(s, c).state, p + [c])
  {
    var a :| 0 <= a <= |p| && Open(s.stack, p[..a]) && Partial(s.step, p[a..]);
    var t := InStringMove(s, c).state;
    StringMoves(s, c);
    if t.failed {
    } else if t.step == EndValue {
      StringEnds(p[a..]);
      Ended(s.stack, p, a, c);
    } else {
      StringGrows(s.step, p[a..], c, t.step);
      Kept(s.stack, p, a, c, t.step);
      TokenStands(s, t, p + [c]);
    }
  }

  lemma NameGrows(step: Step, x: Bytes, c: Byte, next: Step)
    requires NameStep(step) && Partial(step, x) && InNameMove(START.(step := step), c) == Go(START, next)
    ensures next == EndValue ==> IsName(x + [c])
    ensures next != EndValue ==> NameStep(next) && Partial(next, x + [c])
  {
  }

  lemma NameDescribes(s: State, p: Bytes, c: Byte)
    requires !s.failed && !s.endTop && NameStep(s.step) && Token(s.stack, p, s.step)
    ensures Describes(InNameMove(s, c).state, p + [c])
  {
    var a :| 0 <= a <= |p| && Open(s.stack, p[..a]) && Partial(s.step, p[a..]);
    var t := InNameMove(s, c).state;
    NameMoves(s, c);
    if !t.failed {
      NameGrows(s.step, p[a..], c, t.step);
      if t.step == EndValue {
        Ended(s.stack, p, a, c);
      } else {
        Kept(s.stack, p, a, c, t.step);
        TokenStands(s, t, p + [c]);
      }
    }
  }

  lemma NameMoves(s: State, c: Byte)
    requires NameStep(s.step) && !s.failed
    ensures var t := InNameMove(s, c).state;
            if t.failed then t.step == Failing
            else t == s.(step := t.step) && InNameMove(START.(step := s.step), c) == Go(START, t.step)
  {
  }

  lemma TokenStands(s: State, t: State, p: Bytes)
    requires !s.failed && !s.endTop && t == s.(step := t.step) && Token(s.stack, p, t.step)
    requires StringStep(t.step) || NumberStep(t.step) || NameStep(t.step)
    ensures Describes(t, p)
  {
  }

  lemma StringMoves(s: State, c: Byte)
    requires StringStep(s.step) && !s.failed
    ensures var t := InStringMove(s, c).state;
            if t.failed then t.step == Failing
            else
              && t == s.(step := t.step) && InStringMove(START.(step := s.step), c) == Go(START, t.step)
              && (t.step == EndValue <==> s.step == InString && c == '"')
  {
  }

  // ----- numbers -----

  lemma LongIsInteger(x: Bytes)
    requires IsLong(x)
    ensures IsInteger(x)
  {
  }

  lemma LongGrows(x: Bytes, c: Byte)
    requires IsLong(x) && IsDigit(c)
    ensures IsLong(x + [c])
  {
    if x[0] == '-' {
      assert (x + [c])[1..] == x[1..] + [c];
      assert (x[1..] + [c])[1..] == x[1..][1..] + [c];
    } else {
      assert (x + [c])[1..] == x[1..] + [c];
    }
  }

  lemma FracGrows(x: Bytes, c: Byte)
    requires Partial(Dot0, x) && IsDigit(c)
    ensures Partial(Dot0, x + [c])
  {
    var k :| 0 <= k <= |x| && IsInteger(x[..k]) && IsFrac(x[k..]);
    Snoc(x, c, k);
    assert (x[k..] + [c])[1..] == x[k..][1..] + [c];
  }

  lemma FracBegins(x: Bytes, c: Byte)
    requires Partial(Dot, x) && IsDigit(c)
    ensures Partial(Dot0, x + [c])
  {
    var k := |x| - 1;
    Snoc(x, c, k);
    assert x[k..] + [c] == ['.', c] && ['.', c][1..] == [c];
  }

  lemma ExpGrows(x: Bytes, c: Byte)
    requires Partial(Exp0, x) && IsDigit(c)
    ensures Partial(Exp0, x + [c])
  {
    var k :| 0 <= k <= |x| && IsDecimal(x[..k]) && IsExp(x[k..]);
    Snoc(x, c, k);
    ExpSnoc(x[k..], c);
  }

  lemma ExpSnoc(e: Bytes, c: Byte)
    requires IsExp(e) && IsDigit(c)
    ensures IsExp(e + [c])
  {
    assert (e + [c])[1..] == e[1..] + [c];
    if !IsDigits(e[1..]) {
      assert (e + [c])[2..] == e[2..] + [c];
    }
  }

  lemma ExpBegins(x: Bytes, c: Byte)
    requires Partial(Exp, x) && IsDigit(c)
    ensures Partial(Exp0, x + [c])
  {
    var k := |x| - 1;
    Snoc(x, c, k);
    var e := x[k..] + [c];
    assert e == [x[k], c] && e[1..] == [c];
    assert IsExp(e);
  }

  lemma SignedExpBegins(x: Bytes, c: Byte)
    requires Partial(ExpSign, x) && IsDigit(c)
    ensures Partial(Exp0, x + [c])
  {
    var k := |x| - 2;
    Snoc(x, c, k);
    var e := x[k..] + [c];
    assert e == [x[k], x[k + 1], c] && e[2..] == [c];
    assert IsExp(e);
  }

  lemma PointFollows(x: Bytes, c: Byte)
    requires IsInteger(x) && c == '.'
    ensures Partial(Dot, x + [c])
  {
    assert (x + [c])[..|x|] == x;
  }

  lemma ExpFollows(x: Bytes, c: Byte)
    requires IsDecimal(x) && IsE(c)
    ensures Partial(Exp, x + [c])
  {
    assert (x + [c])[..|x|] == x;
  }

  lemma SignFollows(x: Bytes, c: Byte)
    requires Partial(Exp, x) && IsSign(c)
    ensures Partial(ExpSign, x + [c])
  {
    assert (x + [c])[..|x| - 1] == x[..|x| - 1];
  }

  lemma DecimalDone(step: Step, x: Bytes)
    requires (step == Zero || step == One || step == Dot0) && Partial(step, x)
    ensures IsDecimal(x)
  {
    if step == One {
      LongIsInteger(x);
    }
  }

  lemma NumberGrows(step: Step, x: Bytes, c: Byte, next: Step)
    requires NumberStep(step) && Partial(step, x) && NumberStep(next)
    requires InNumberMove(START.(step := step), c) == Go(START, next)
    ensures Partial(next, x + [c])
  {
    if step == Neg {
      NegGrows(x, c);
    } else if step == Zero || step == One {
      if step == One { LongIsInteger(x); }
      if IsDigit(c) { LongGrows(x, c); } else if c == '.' { PointFollows(x, c); } else { ExpFollows(x, c); }
    } else if step == Dot {
      FracBegins(x, c);
    } else if step == Dot0 {
      DecimalDone(Dot0, x);
      if IsDigit(c) { FracGrows(x, c); } else { ExpFollows(x, c); }
    } else if step == Exp {
      if IsDigit(c) { ExpBegins(x, c); } else { SignFollows(x, c); }
    } else if step == ExpSign {
      SignedExpBegins(x, c);
    } else {
      ExpGrows(x, c);
    }
  }

  lemma NegGrows(x: Bytes, c: Byte)
    requires Partial(Neg, x) && IsDigit(c)
    ensures c == '0' ==> Partial(Zero, x + [c])
    ensures c != '0' ==> Partial(One, x + [c])
  {
    assert (x + [c])[1..] == [c];
  }

  /** The four final number states stand for complete numbers. */
  lemma NumberComplete(step: Step, x: Bytes)
    requires ScannerComplete.NumberDone(step) && Partial(step, x)
    ensures IsNumber(x)
  {
    if step != Exp0 {
      DecimalDone(step, x);
    }
  }

  lemma NumberFinished(stack: seq<Parse>, p: Bytes, step: Step)
    requires Token(stack, p, step) && ScannerComplete.NumberDone(step)
    ensures Finished(stack, p)
  {
    var a :| 0 <= a <= |p| && Open(stack, p[..a]) && Partial(step, p[a..]);
    NumberComplete(step, p[a..]);
    NumberStands(stack, p, a);
  }

  lemma NumberStands(stack: seq<Parse>, p: Bytes, a: nat)
    requires a <= |p| && Open(stack, p[..a]) && !KeyExpected(stack) && IsNumber(p[a..])
    ensures Finished(stack, p)
  {
    assert p[a..|p|] == p[a..] && p[|p|..] == [];
    assert FinishedAt(stack, p, a, |p|);
  }

  /** Whether a byte continues the number. */
  predicate Continues(step: Step, c: Byte) {
    match step
    case One => IsDigit(c) || c == '.' || IsE(c)
    case Zero => c == '.' || IsE(c)
    case Dot0 => IsDigit(c) || IsE(c)
    case Exp0 => IsDigit(c)
    case _ => true
  }

  lemma NumberMoves(s: State, c: Byte)
    requires NumberStep(s.step) && !s.failed
    ensures !Continues(s.step, c) ==> ScannerComplete.NumberDone(s.step) && InNumberMove(s, c) == AtEndValue(s, c)
    ensures Continues(s.step, c) ==>
              var t := InNumberMove(s, c).state;
              && (t.failed || (NumberStep(t.step) && t == s.(step := t.step)))
              && (!t.failed ==> InNumberMove(START.(step := s.step), c) == Go(START, t.step))
  {
  }

  lemma NumberDescribes(s: State, p: Bytes, c: Byte)
    requires !s.failed && !s.endTop && NumberStep(s.step) && Token(s.stack, p, s.step)
    ensures Describes(InNumberMove(s, c).state, p + [c])
  {
    NumberMoves(s, c);
    if !Continues(s.step, c) {
      NumberFinished(s.stack, p, s.step);
      EndValueDescribes(s, p, c);
    } else if !InNumberMove(s, c).state.failed {
      var a :| 0 <= a <= |p| && Open(s.stack, p[..a]) && Partial(s.step, p[a..]);
      var next := InNumberMove(s, c).state.step;
      NumberGrows(s.step, p[a..], c, next);
      Kept(s.stack, p, a, c, next);
    }
  }

  // ----- beginnings -----

  lemma BeginValueDescribes(s: State, p: Bytes, c: Byte)
    requires !s.failed && !s.endTop && !IsSpace(c) && Open(s.stack, p) && !KeyExpected(s.stack)
    ensures Describes(AtBeginValue(s, c).state, p + [c])
  {
    var t := AtBeginValue(s, c).state;
    if c == '{' {
      Opens(s.stack, p, ObjectKey);
    } else if c == '[' {
      Opens(s.stack, p, ArrayValue);
    } else if !t.failed {
      FirstByte(s, c);
      Begun(s.stack, p, c, t.step);
    }
  }

  lemma FirstByte(s: State, c: Byte)
    requires !s.failed && !IsSpace(c) && c != '{' && c != '['
    ensures var t := AtBeginValue(s, c).state;
            !t.failed ==>
              && t == s.(step := t.step) && Partial(t.step, [c])
              && (StringStep(t.step) || NumberStep(t.step) || NameStep(t.step))
  {
    assert [c][1..] == [];
  }

  lemma BeginStringDescribes(s: State, p: Bytes, c: Byte)
    requires !s.failed && !s.endTop && !IsSpace(c) && Open(s.stack, p) && KeyExpected(s.stack)
    ensures Describes(AtBeginString(s, c).state, p + [c])
  {
    if c == '"' {
      assert [c][1..] == [];
      Begun(s.stack, p, c, InString);
    }
  }

  lemma BeginDescribes(s: State, p: Bytes, c: Byte)
    requires !s.failed && Describes(s, p)
    requires s.step == BeginValue || s.step == BeginString
    ensures Describes(Next(s, c).state, p + [c])
  {
    if IsSpace(c) {
      OpenSpace(s.stack, p, c);
    } else if s.step == BeginValue {
      BeginValueDescribes(s, p, c);
    } else {
      BeginStringDescribes(s, p, c);
    }
  }

  lemma ClosesAtOnce(s: State, c: Byte)
    requires s.stack != []
    requires (s.step == BeginValueOrEmpty && c == ']' && Top(s.stack) == ArrayValue)
          || (s.step == BeginStringOrEmpty && c == '}' && Top(s.stack) != ArrayValue)
    ensures Next(s, c).state == Pop(s)
  {
    if c == ']' {
      ClosingBracket(s);
    } else {
      RetopPop(s);
      ClosingBrace(s.(stack := Retop(s.stack, ObjectValue)));
    }
  }

  lemma RetopPop(s: State)
    requires s.stack != []
    ensures Retop(s.stack, ObjectValue) != [] && Top(Retop(s.stack, ObjectValue)) == ObjectValue
    ensures Pop(s.(stack := Retop(s.stack, ObjectValue))) == Pop(s)
  {
    assert Retop(s.stack, ObjectValue)[..|s.stack| - 1] == s.stack[..|s.stack| - 1];
  }

  lemma ClosingBracket(s: State)
    requires s.stack != [] && Top(s.stack) == ArrayValue
    ensures AtEndValue(s, ']') == Move(Pop(s), ScanEndArray)
  {
  }

  lemma ClosingBrace(s: State)
    requires s.stack != [] && Top(s.stack) == ObjectValue
    ensures AtEndValue(s, '}') == Move(Pop(s), ScanEndObject)
  {
  }

  lemma BeginOrEmptyDescribes(s: State, p: Bytes, c: Byte)
    requires !s.failed && Describes(s, p)
    requires s.step == BeginValueOrEmpty || s.step == BeginStringOrEmpty
    ensures Describes(Next(s, c).state, p + [c])
  {
    if IsSpace(c) {
      JustOpenedSpace(s.stack, p, c);
    } else if (s.step == BeginValueOrEmpty && c == ']') || (s.step == BeginStringOrEmpty && c == '}') {
      EmptyCloses(s, p, c);
      ClosesAtOnce(s, c);
    } else {
      JustOpenedOpen(s.stack, p);
      if s.step == BeginValueOrEmpty {
        BeginValueDescribes(s, p, c);
      } else {
        BeginStringDescribes(s, p, c);
      }
    }
  }

  /** One step keeps the description. */
  lemma StepDescribes(s: State, p: Bytes, c: Byte)
    requires Describes(s, p)
    ensures Describes(After(s, c), p + [c])
  {
    AfterIs(s, c);
    if s.failed {
      FailedStays(s, c);
    } else if StringStep(s.step) {
      StringDescribes(s, p, c);
    } else if NumberStep(s.step) {
      NumberDescribes(s, p, c);
    } else if NameStep(s.step) {
      NameDescribes(s, p, c);
    } else if s.step == BeginValue || s.step == BeginString {
      BeginDescribes(s, p, c);
    } else if s.step == BeginValueOrEmpty || s.step == BeginStringOrEmpty {
      BeginOrEmptyDescribes(s, p, c);
    } else if s.step == EndValue {
      EndValueDescribes(s, p, c);
    } else if IsSpace(c) {
      TextSpace(p, c);
    }
  }

  lemma FailedStays(s: State, c: Byte)
    requires s.step == Failing
    ensures Next(s, c).state == s
  {
    FailingMove(s, c);
  }

  lemma FailingMove(s: State, c: Byte)
    requires s.step == Failing
    ensures BetweenMove(s, c).state == s && !StringStep(s.step) && !NumberStep(s.step) && !NameStep(s.step)
  {
  }

  lemma DescribesSnoc(p: Bytes, c: Byte)
    requires Describes(Run(START, p), p)
    ensures Describes(Run(START, p + [c]), p + [c])
  {
    StepDescribes(Run(START, p), p, c);
    ScannerComplete.RunSnoc(START, p, c);
    AfterIs(Run(START, p), c);
  }

  /** The stack mirrors the open containers after every prefix. */
  lemma {:induction false} RunDescribes(p: Bytes)
    ensures Describes(Run(START, p), p)
  {
    if p == [] {
      StartDescribes();
    } else {
      var init, last := p[..|p| - 1], p[|p| - 1];
      assert p == init + [last];
      RunDescribes(init);
      DescribesSnoc(init, last);
    }
  }

  lemma StartDescribes()
    ensures Describes(START, [])
  {
    assert IsWs([]);
  }

  lemma EndsWithText(s: State, p: Bytes)
    requires Describes(s, p) && EndsWell(s)
    ensures IsText(p)
  {
    if !s.endTop {
      SpaceEnds(s);
      if ScannerComplete.NumberDone(s.step) {
        NumberFinished(s.stack, p, s.step);
      }
      FinishedIsText(p);
    }
  }

  lemma SpaceEnds(s: State)
    requires !s.endTop && Next(s, ' ').state.endTop
    ensures s.stack == [] && (s.step == EndValue || ScannerComplete.NumberDone(s.step))
  {
    if StringStep(s.step) || NameStep(s.step) {
      SpaceKeepsEndTop(s);
    } else if NumberStep(s.step) {
      NumberSpace(s);
    } else {
      BetweenSpace(s);
    }
  }

  lemma BetweenSpace(s: State)
    requires !s.endTop && BetweenMove(s, ' ').state.endTop
    ensures s.stack == [] && s.step == EndValue
  {
  }

  /** A space inside a token does not end the text. */
  lemma SpaceKeepsEndTop(s: State)
    ensures StringStep(s.step) ==> InStringMove(s, ' ').state.endTop == s.endTop
    ensures NameStep(s.step) ==> InNameMove(s, ' ').state.endTop == s.endTop
  {
  }

  lemma NumberSpace(s: State)
    requires NumberStep(s.step) && !s.endTop && InNumberMove(s, ' ').state.endTop
    ensures s.stack == [] && ScannerComplete.NumberDone(s.step)
  {
  }

  /** The scanner accepts exactly the JSON texts. */
  lemma AcceptsExactlyJson(b: Bytes)
    ensures Accepted(b) <==> IsText(b)
  {
    if IsText(b) {
      ScannerComplete.TextAccepted(b);
    }
    if Accepted(b) {
      RunDescribes(b);
      EndsWithText(Run(START, b), b);
    }
  }
}
