/** The grammar of JSON text, sections 2 to 7 of RFC 7159, on bytes (UTF-8 validity aside). */
module JsonGrammar {

  type Byte = c: char | c < '\U{100}'
  type Bytes = seq<Byte>

  // ----- section 2: text, white space -----

  predicate IsSpace(c: Byte) {
    c == ' ' || c == '\t' || c == '\r' || c == '\n'
  }

  ghost predicate IsWs(b: Bytes) {
    forall i :: 0 <= i < |b| ==> IsSpace(b[i])
  }

  ghost predicate IsText(b: Bytes)
    decreases |b|, 2
  {
    exists i, j :: 0 <= i <= j <= |b| && IsWs(b[..i]) && IsValue(b[i..j]) && IsWs(b[j..])
  }

  // ----- section 3: values -----

  ghost predicate IsValue(b: Bytes)
    decreases |b|, 1
  {
    IsName(b) || IsNumber(b) || IsString(b) || IsArray(b) || IsObject(b)
  }

  ghost predicate IsName(b: Bytes) {
    b == ['t', 'r', 'u', 'e'] || b == ['f', 'a', 'l', 's', 'e'] || b == ['n', 'u', 'l', 'l']
  }

  // ----- section 5: arrays -----

  ghost predicate IsArray(b: Bytes)
    decreases |b|, 0
  {
    && |b| >= 2 && b[0] == '[' && b[|b| - 1] == ']'
    && (IsWs(b[1..|b| - 1]) || IsElements(b[1..|b| - 1]))
  }

  /** One or more values with commas between them. */
  ghost predicate IsElements(b: Bytes)
    decreases |b|, 3
  {
    || IsText(b)
    || exists k :: 0 <= k < |b| && b[k] == ',' && IsElements(b[..k]) && IsText(b[k + 1..])
  }

  // ----- section 4: objects -----

  ghost predicate IsObject(b: Bytes)
    decreases |b|, 0
  {
    && |b| >= 2 && b[0] == '{' && b[|b| - 1] == '}'
    && (IsWs(b[1..|b| - 1]) || IsMembers(b[1..|b| - 1]))
  }

  ghost predicate IsMembers(b: Bytes)
    decreases |b|, 3
  {
    || IsMember(b)
    || exists k :: 0 <= k < |b| && b[k] == ',' && IsMembers(b[..k]) && IsMember(b[k + 1..])
  }

  ghost predicate IsMember(b: Bytes)
    decreases |b|, 2
  {
    exists k :: 0 <= k < |b| && b[k] == ':' && IsKey(b[..k]) && IsText(b[k + 1..])
  }

  ghost predicate IsKey(b: Bytes) {
    exists i, j :: 0 <= i <= j <= |b| && IsWs(b[..i]) && IsString(b[i..j]) && IsWs(b[j..])
  }

  // ----- section 6: numbers -----

  predicate IsDigit(c: Byte) {
    '0' <= c <= '9'
  }

  ghost predicate IsDigits(b: Bytes) {
    forall i :: 0 <= i < |b| ==> IsDigit(b[i])
  }

  ghost predicate IsInt(b: Bytes) {
    b == ['0'] || (b != [] && '1' <= b[0] <= '9' && IsDigits(b[1..]))
  }

  /** minus? int */
  ghost predicate IsInteger(b: Bytes) {
    IsInt(b) || (b != [] && b[0] == '-' && IsInt(b[1..]))
  }

  ghost predicate IsFrac(b: Bytes) {
    |b| > 1 && b[0] == '.' && IsDigits(b[1..])
  }

  /** minus? int frac? */
  ghost predicate IsDecimal(b: Bytes) {
    IsInteger(b) || exists k :: 0 <= k <= |b| && IsInteger(b[..k]) && IsFrac(b[k..])
  }

  predicate IsE(c: Byte) {
    c == 'e' || c == 'E'
  }

  predicate IsSign(c: Byte) {
    c == '+' || c == '-'
  }

  ghost predicate IsExp(b: Bytes) {
    && |b| > 1 && IsE(b[0])
    && (IsDigits(b[1..]) || (|b| > 2 && IsSign(b[1]) && IsDigits(b[2..])))
  }

  /** minus? int frac? exp? */
  ghost predicate IsNumber(b: Bytes) {
    IsDecimal(b) || exists k :: 0 <= k <= |b| && IsDecimal(b[..k]) && IsExp(b[k..])
  }

  // ----- section 7: strings -----

  ghost predicate IsString(b: Bytes) {
    |b| >= 2 && b[0] == '"' && b[|b| - 1] == '"' && IsChars(b[1..|b| - 1])
  }

  predicate IsPlain(c: Byte) {
    c >= ' ' && c != '"' && c != '\\'
  }

  predicate IsEscaped(c: Byte) {
    c == '"' || c == '\\' || c == '/' || c == 'b' || c == 'f' || c == 'n' || c == 'r' || c == 't'
  }

  predicate IsHex(c: Byte) {
    '0' <= c <= '9' || 'a' <= c <= 'f' || 'A' <= c <= 'F'
  }

  ghost predicate IsChars(b: Bytes) {
    var n := |b|;
    || b == []
    || (IsChars(b[..n - 1]) && IsPlain(b[n - 1]))
    || (n >= 2 && IsChars(b[..n - 2]) && b[n - 2] == '\\' && IsEscaped(b[n - 1]))
    || (n >= 6 && IsChars(b[..n - 6]) && b[n - 6] == '\\' && b[n - 5] == 'u'
        && IsHex(b[n - 4]) && IsHex(b[n - 3]) && IsHex(b[n - 2]) && IsHex(b[n - 1]))
  }
}
