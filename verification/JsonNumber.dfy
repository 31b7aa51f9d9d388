/** `isValidNumber` of utils/jsonext/decode.go agrees with section 6 of RFC 7159 and with the scanner. */
module JsonNumber {
  import opened JsonGrammar
  import opened Scanner
  import opened ScannerComplete
  import ScannerSound

  // ----- the shrinking string -----

  function SkipDigits(s: Bytes): Bytes {
    if s != [] && IsDigit(s[0]) then SkipDigits(s[1..]) else s
  }

  function AfterMinus(s: Bytes): Bytes {
    if s != [] && s[0] == '-' then s[1..] else s
  }

  /** None is the failing branch of the digit switch. */
  datatype Rest = None | Rest(s: Bytes)

  function AfterInt(s: Bytes): Rest {
    if s == [] then None
    else if s[0] == '0' then Rest(s[1..])
    else if '1' <= s[0] <= '9' then Rest(SkipDigits(s[1..]))
    else None
  }

  function AfterFrac(s: Bytes): Bytes {
    if |s| >= 2 && s[0] == '.' && IsDigit(s[1]) then SkipDigits(s[2..]) else s
  }

  function AfterExp(s: Bytes): Bytes {
    if |s| >= 2 && IsE(s[0]) then
      if IsSign(s[1]) then (if |s| == 2 then s else SkipDigits(s[2..])) else SkipDigits(s[1..])
    else s
  }

  function Consumes(s: Bytes): bool {
    var r := AfterInt(AfterMinus(s));
    r.Rest? && AfterExp(AfterFrac(r.s)) == []
  }

  method DropDigits(s: Bytes) returns (r: Bytes)
    ensures r == SkipDigits(s)
  {
    r := s;
    while |r| > 0 && IsDigit(r[0])
      invariant SkipDigits(r) == SkipDigits(s)
      decreases |r|
    {
      r := r[1..];
    }
  }

  // ----- greedy is right -----

  /** What was skipped is a run of digits. */
  lemma {:induction false} Skipped(s: Bytes) returns (k: nat)
    ensures k <= |s| && IsDigits(s[..k]) && s[k..] == SkipDigits(s)
    ensures k < |s| ==> !IsDigit(s[k])
  {
    if s != [] && IsDigit(s[0]) {
      var j := Skipped(s[1..]);
      k := j + 1;
      assert s[k..] == s[1..][j..];
      assert forall i :: 0 < i < k ==> s[..k][i] == s[1..][..j][i - 1];
    } else {
      k := 0;
    }
  }

  lemma {:induction false} SkipsExactly(x: Bytes, y: Bytes)
    requires IsDigits(x) && (y == [] || !IsDigit(y[0]))
    ensures SkipDigits(x + y) == y
  {
    if x == [] {
      assert x + y == y;
    } else {
      assert (x + y)[1..] == x[1..] + y;
      SkipsExactly(x[1..], y);
    }
  }

  lemma ExpConsumed(s: Bytes)
    ensures AfterExp(s) == [] <==> s == [] || IsExp(s)
  {
    if |s| >= 2 && IsE(s[0]) {
      if IsSign(s[1]) {
        AllDigits(s[2..]);
        assert !IsDigits(s[1..]) by { assert s[1..][0] == s[1]; }
      } else {
        AllDigits(s[1..]);
      }
    }
  }

  lemma AllDigits(s: Bytes)
    ensures SkipDigits(s) == [] <==> IsDigits(s)
  {
    var k := Skipped(s);
    if IsDigits(s) {
      assert s + [] == s;
      SkipsExactly(s, []);
    }
    if SkipDigits(s) == [] {
      assert s[..k] == s;
    }
  }

  /** frac? exp? */
  ghost predicate IsTail(s: Bytes) {
    s == [] || IsExp(s) || IsFrac(s) || exists k :: 0 <= k <= |s| && IsFrac(s[..k]) && IsExp(s[k..])
  }

  lemma TailSound(s: Bytes)
    requires AfterExp(AfterFrac(s)) == []
    ensures IsTail(s)
  {
    ExpConsumed(AfterFrac(s));
    if |s| >= 2 && s[0] == '.' && IsDigit(s[1]) {
      var j := Skipped(s[2..]);
      var k := j + 2;
      FracPrefix(s, k);
      assert s[k..] == s[2..][j..] == AfterFrac(s);
      if s[k..] == [] {
        assert s[..k] == s;
      }
    }
  }

  lemma FracPrefix(s: Bytes, k: nat)
    requires 2 <= k <= |s| && s[0] == '.' && IsDigit(s[1]) && IsDigits(s[2..][..k - 2])
    ensures IsFrac(s[..k])
  {
    forall i | 0 <= i < k - 1 ensures IsDigit(s[..k][1..][i]) {
      assert i > 0 ==> s[..k][1..][i] == s[2..][..k - 2][i - 1];
    }
  }

  lemma TailComplete(s: Bytes)
    requires IsTail(s)
    ensures AfterExp(AfterFrac(s)) == []
  {
    if s == [] || IsExp(s) {
      ExpConsumed(s);
    } else if IsFrac(s) {
      FracThen(s, []);
      assert s + [] == s;
      ExpConsumed([]);
    } else {
      var k :| 0 <= k <= |s| && IsFrac(s[..k]) && IsExp(s[k..]);
      FracThen(s[..k], s[k..]);
      assert s[..k] + s[k..] == s;
      ExpConsumed(s[k..]);
    }
  }

  lemma FracThen(f: Bytes, e: Bytes)
    requires IsFrac(f) && (e == [] || IsExp(e))
    ensures AfterFrac(f + e) == e
  {
    assert f[1..][0] == f[1];
    assert (f + e)[2..] == f[2..] + e;
    assert f[2..] == f[1..][1..];
    SkipsExactly(f[2..], e);
  }

  // ----- the integer part -----

  lemma TailBegins(t: Bytes)
    requires IsTail(t) && t != []
    ensures !IsDigit(t[0])
  {
  }

  lemma IntThen(d: Bytes, t: Bytes)
    requires IsInt(d) && IsTail(t)
    ensures AfterInt(d + t) == Rest(t)
  {
    if t != [] {
      TailBegins(t);
    }
    assert (d + t)[1..] == d[1..] + t;
    if d != ['0'] {
      SkipsExactly(d[1..], t);
    }
  }

  lemma IntFound(s: Bytes) returns (k: nat)
    requires AfterInt(s).Rest?
    ensures k <= |s| && IsInt(s[..k]) && s[k..] == AfterInt(s).s
  {
    if s[0] == '0' {
      k := 1;
      assert s[..1] == ['0'];
    } else {
      var j := Skipped(s[1..]);
      k := j + 1;
      assert s[..k][1..] == s[1..][..j] && s[k..] == s[1..][j..];
    }
  }

  lemma SplitDecimal(s: Bytes) returns (k: nat)
    requires IsDecimal(s)
    ensures k <= |s| && IsInteger(s[..k]) && (s[k..] == [] || IsFrac(s[k..]))
  {
    if IsInteger(s) {
      k := |s|;
      assert s[..k] == s;
    } else {
      k :| 0 <= k <= |s| && IsInteger(s[..k]) && IsFrac(s[k..]);
    }
  }

  lemma SplitNumber(s: Bytes) returns (k: nat)
    requires IsNumber(s)
    ensures k <= |s| && IsInteger(s[..k]) && IsTail(s[k..])
  {
    if IsDecimal(s) {
      k := SplitDecimal(s);
    } else {
      var j :| 0 <= j <= |s| && IsDecimal(s[..j]) && IsExp(s[j..]);
      k := SplitDecimal(s[..j]);
      TailOf(s, k, j);
    }
  }

  lemma TailOf(s: Bytes, k: nat, j: nat)
    requires k <= j <= |s| && (s[..j][k..] == [] || IsFrac(s[..j][k..])) && IsExp(s[j..])
    ensures s[..j][..k] == s[..k] && IsTail(s[k..])
  {
    var t := s[k..];
    assert t[..j - k] == s[..j][k..] && t[j - k..] == s[j..];
    if s[..j][k..] == [] {
      assert j == k;
    }
  }

  lemma JoinNumber(s: Bytes, k: nat)
    requires k <= |s| && IsInteger(s[..k]) && IsTail(s[k..])
    ensures IsNumber(s)
  {
    var t := s[k..];
    if t == [] {
      assert s[..k] == s;
    } else if IsFrac(t) {
      JoinDecimal(s, k);
    } else if IsExp(t) {
      JoinExp(s, k);
    } else {
      var j :| 0 <= j <= |t| && IsFrac(t[..j]) && IsExp(t[j..]);
      JoinFracExp(s, k, j);
    }
  }

  lemma JoinFracExp(s: Bytes, k: nat, j: nat)
    requires k + j <= |s| && IsInteger(s[..k]) && IsFrac(s[k..][..j]) && IsExp(s[k..][j..])
    ensures IsNumber(s)
  {
    assert s[..k + j][..k] == s[..k] && s[..k + j][k..] == s[k..][..j];
    JoinDecimal(s[..k + j], k);
    assert s[k + j..] == s[k..][j..];
    JoinExp(s, k + j);
  }

  lemma JoinDecimal(d: Bytes, k: nat)
    requires k <= |d| && IsInteger(d[..k]) && IsFrac(d[k..])
    ensures IsDecimal(d)
  {
  }

  lemma JoinExp(s: Bytes, k: nat)
    requires k <= |s| && IsDecimal(s[..k]) && IsExp(s[k..])
    ensures IsNumber(s)
  {
  }

  lemma ConsumesSound(s: Bytes)
    requires Consumes(s)
    ensures IsNumber(s)
  {
    var d := AfterMinus(s);
    var k := IntFound(d);
    TailSound(d[k..]);
    if s != d {
      assert s[..k + 1][1..] == d[..k] && s[k + 1..] == d[k..];
      JoinNumber(s, k + 1);
    } else {
      JoinNumber(s, k);
    }
  }

  lemma ConsumesComplete(s: Bytes)
    requires IsNumber(s)
    ensures Consumes(s)
  {
    var k := SplitNumber(s);
    TailComplete(s[k..]);
    IntegerThen(s, k);
  }

  lemma IntegerThen(s: Bytes, k: nat)
    requires k <= |s| && IsInteger(s[..k]) && IsTail(s[k..])
    ensures AfterInt(AfterMinus(s)) == Rest(s[k..])
  {
    if IsInt(s[..k]) {
      assert s == s[..k] + s[k..];
      IntThen(s[..k], s[k..]);
    } else {
      assert s[1..] == s[..k][1..] + s[k..];
      IntThen(s[..k][1..], s[k..]);
    }
  }

  lemma ConsumesExactly(s: Bytes)
    ensures Consumes(s) <==> IsNumber(s)
  {
    if IsNumber(s) {
      ConsumesComplete(s);
    }
    if Consumes(s) {
      ConsumesSound(s);
    }
  }

  /** `isValidNumber` accepts exactly the numbers of section 6. */
  method IsValidNumber(str: Bytes) returns (valid: bool)
    ensures valid <==> IsNumber(str)
  {
    ConsumesExactly(str);
    var s := str;
    if s == [] {
      return false;
    }
    if s[0] == '-' {
      s := s[1..];
      if s == [] {
        return false;
      }
    }
    assert s == AfterMinus(str);
    if s[0] == '0' {
      s := s[1..];
    } else if '1' <= s[0] <= '9' {
      s := DropDigits(s[1..]);
    } else {
      return false;
    }
    ghost var fraction := s;
    assert AfterInt(AfterMinus(str)) == Rest(fraction);
    if |s| >= 2 && s[0] == '.' && IsDigit(s[1]) {
      s := DropDigits(s[2..]);
    }
    ghost var exponent := s;
    assert exponent == AfterFrac(fraction);
    assert Consumes(str) <==> AfterExp(exponent) == [];
    if |s| >= 2 && IsE(s[0]) {
      s := s[1..];
      if IsSign(s[0]) {
        s := s[1..];
        assert s == exponent[2..];
        if s == [] {
          assert AfterExp(exponent) == exponent;
          return false;
        }
      }
      s := DropDigits(s);
    }
    assert s == AfterExp(exponent);
    return s == [];
  }

  /** The scanner ends in one of its final number states exactly on the numbers of section 6. */
  lemma ScansAsNumber(x: Bytes)
    ensures IsNumber(x) <==>
            && x != [] && !IsSpace(x[0])
            && var t := Run(START, x); !t.failed && t.stack == [] && NumberDone(t.step)
  {
    var t := Run(START, x);
    if IsNumber(x) {
      RunNumber(START, x);
      NumberBegins(x);
    }
    if x != [] && !IsSpace(x[0]) && !t.failed && t.stack == [] && NumberDone(t.step) {
      ScannerSound.RunDescribes(x);
      var a :| 0 <= a <= |x| && ScannerSound.Open([], x[..a]) && ScannerSound.Partial(t.step, x[a..]);
      if a > 0 {
        FirstIsSpace(x, a);
      }
      assert x[0..] == x;
      ScannerSound.NumberComplete(t.step, x);
    }
  }

  lemma FirstIsSpace(x: Bytes, a: nat)
    requires 0 < a <= |x| && IsWs(x[..a])
    ensures IsSpace(x[0])
  {
    assert x[..a][0] == x[0];
  }

  lemma NumberBegins(x: Bytes)
    requires IsNumber(x)
    ensures x != [] && !IsSpace(x[0])
  {
    ConsumesComplete(x);
  }
}
