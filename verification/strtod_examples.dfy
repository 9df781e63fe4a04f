/** A scanner closer to `strtod` on plain decimals: digits, then an
    optional `.` and more digits. When no digit is consumed there is no
    conversion and the end is the start, as `strtod` reports it. These
    lemmas show where the tokenizer's requirement on the scanner binds. */
module StrtodExamples {
  import opened Errors
  import opened Tokens
  import opened LineExamples

  /** The end of `digits [ '.' digits ]` starting at `j`, or `j` itself
      when that consumes no digit. */
  function DecimalScan(s: string, j: nat): (r: Scanned<int>)
    ensures j <= |s| ==> j <= r.end <= |s|
  {
    if j > |s| then Scanned(0, j)
    else
      var a := DigitEnd(s, j);
      var b := if a < |s| && s[a] == '.' then DigitEnd(s, a + 1) else a;
      if a == j && b <= j + 1 then Scanned(0, j) else Scanned(DigitsValue(s, j, a), b)
  }

  /** On `3.` the scanner consumes the whole literal, so the tokenizer's
      requirement holds and the line is one number. At index 1, inside the
      literal, the scanner does not advance: the stronger condition
      `ScansEverywhere` fails although the line is tokenized correctly. */
  lemma TrailingDot(s: string)
    requires s == "3."
    ensures ScannerOk(DecimalScan, s, 0)
    ensures Lex(DecimalScan, s, 0) == Ok([Num(3, 2), EOF(0)])
    ensures !ScansEverywhere(DecimalScan, s)
  {
    assert DigitEnd(s, 1) == 1 && DigitEnd(s, 0) == 1 && DigitEnd(s, 2) == 2;
    assert DigitsValue(s, 0, 1) == 3;
    assert DecimalScan(s, 0) == Scanned(3, 2);
    assert NoSpaceIn(s, 0, 2);
    assert ScannerOk(DecimalScan, s, 2) && Lex(DecimalScan, s, 2) == Ok([EOF(0)]);
    NumberToken(DecimalScan, s, 0);
    assert [Num(3, 2)] + [EOF(0)] == [Num(3, 2), EOF(0)];
    assert IsNumStart(s[1]) && DecimalScan(s, 1).end == 1;
  }

  /** On a lone `.` the scanner does not advance. The C loop would append
      a number token and scan the same index again, forever; the
      requirement is false there, so such a line is outside the model. */
  lemma LoneDot(s: string)
    requires s == "."
    ensures DecimalScan(s, 0).end == 0
    ensures !ScannerOk(DecimalScan, s, 0)
  {
    assert SkipSpaces(s, 0) == 0;
  }
}
