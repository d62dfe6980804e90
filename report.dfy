/** Report: the diagnostic the detector emits and the text it is reported
    with, "<path>:<line>:<column>: blank lines inside function body (<name>)",
    including the decimal rendering of the line and column numbers. */
module Report {

  /** One finding: the path it is reported under, the line and column of the
      statement that follows the gap, and the enclosing function's name. */
  datatype Diagnostic = Diagnostic(path: string, line: int, column: int, funcName: string)

  /** The fixed text after the position, up to the function name. */
  const BlankLinesText: string := "blank lines inside function body ("

  predicate IsDigit(c: char) {
    '0' <= c <= '9'
  }

  function DigitChar(d: nat): (c: char)
    requires d < 10
    ensures IsDigit(c) && c as int - '0' as int == d
  {
    (48 + d) as char
  }

  /** The decimal digits of a natural number, most significant first, with
      no leading zero. */
  function Digits(n: nat): (s: string)
    ensures |s| >= 1
    ensures forall i :: 0 <= i < |s| ==> IsDigit(s[i])
    ensures n >= 10 ==> s[0] != '0'
    decreases n
  {
    if n < 10 then [DigitChar(n)] else Digits(n / 10) + [DigitChar(n % 10)]
  }

  /** The value a string of decimal digits denotes; the reference the
      rendering is checked against. */
  function DigitsValue(s: string): (v: nat)
    requires forall i :: 0 <= i < |s| ==> IsDigit(s[i])
  {
    if s == [] then 0
    else
      var last := s[|s| - 1];
      assert IsDigit(last);
      10 * DigitsValue(s[..|s| - 1]) + (last as int - '0' as int)
  }

  lemma {:induction false} DigitsRoundTrip(n: nat)
    ensures DigitsValue(Digits(n)) == n
    decreases n
  {
    if n >= 10 {
      var s := Digits(n);
      assert s[..|s| - 1] == Digits(n / 10);
      DigitsRoundTrip(n / 10);
    }
  }

  /** The %d verb: an optional minus sign and the digits of the magnitude. */
  function Decimal(n: int): (s: string)
  {
    if n < 0 then "-" + Digits(-n) else Digits(n)
  }

  /** The value of a rendering produced by Decimal. */
  function DecimalValue(s: string): (v: int)
  {
    if |s| > 0 && s[0] == '-' && forall i :: 1 <= i < |s| ==> IsDigit(s[i]) then
      0 - DigitsValue(s[1..]) as int
    else if forall i :: 0 <= i < |s| ==> IsDigit(s[i]) then
      DigitsValue(s)
    else
      0
  }

  /** Decimal loses nothing: reading the rendering back gives the number. */
  lemma DecimalRoundTrip(n: int)
    ensures DecimalValue(Decimal(n)) == n
  {
    if n < 0 {
      var s := Decimal(n);
      assert s[1..] == Digits(-n);
      DigitsRoundTrip(-n);
    } else {
      DigitsRoundTrip(n);
    }
  }

  /** The text the report carries. It starts with the path and a colon and
      ends with the fixed words and the function name in parentheses. */
  function Message(d: Diagnostic): (m: string)
    ensures |d.path| + 1 <= |m| && m[..|d.path| + 1] == d.path + ":"
    ensures var tail := BlankLinesText + d.funcName + ")";
      |tail| <= |m| && m[|m| - |tail|..] == tail
  {
    var head := d.path + ":" + Decimal(d.line) + ":" + Decimal(d.column) + ": ";
    var tail := BlankLinesText + d.funcName + ")";
    assert (head + tail)[..|d.path| + 1] == d.path + ":";
    assert (head + tail)[|head|..] == tail;
    head + tail
  }

  /** The whole report text: the path, the line and the column, each
      followed by a colon, then a space, the fixed words and the function
      name in parentheses; the two numbers read back as the diagnostic's
      line and column. */
  lemma MessageFormat(d: Diagnostic)
    ensures exists line, column ::
      && Message(d) == d.path + ":" + line + ":" + column + ": " + BlankLinesText + d.funcName + ")"
      && DecimalValue(line) == d.line
      && DecimalValue(column) == d.column
  {
    DecimalRoundTrip(d.line);
    DecimalRoundTrip(d.column);
    var line, column := Decimal(d.line), Decimal(d.column);
    assert Message(d) == d.path + ":" + line + ":" + column + ": " + BlankLinesText + d.funcName + ")";
  }
}
