/** Whole lines, tokenized and evaluated. The tokens of each line are
    derived for any scanner that reads its literals; a decimal integer
    scanner then stands in for `strtod`, and integer arithmetic for
    doubles, to give each line's value. The lines chosen avoid division. */
module LineExamples {
  import opened Errors
  import opened Tokens
  import opened Evaluator
  import opened Driver
  import opened Examples

  /** The end of the run of digits starting at `k`. */
  function DigitEnd(s: string, k: nat): (e: nat)
    requires k <= |s|
    ensures k <= e <= |s|
    ensures forall m | k <= m < e :: IsDigit(s[m])
    decreases |s| - k
  {
    if k < |s| && IsDigit(s[k]) then DigitEnd(s, k + 1) else k
  }

  /** The decimal value of the digits in `s[a..b]`. */
  function DigitsValue(s: string, a: nat, b: nat): int
    requires a <= b <= |s|
    decreases b - a
  {
    if a == b then 0
    else DigitsValue(s, a, b - 1) * 10 + (if IsDigit(s[b - 1]) then s[b - 1] as int - '0' as int else 0)
  }

  /** A scanner for decimal integer literals: it consumes the character
      at `j` and the digits after it. */
  function DigitScan(s: string, j: nat): Scanned<int> {
    if j < |s| then Scanned(DigitsValue(s, j, DigitEnd(s, j + 1)), DigitEnd(s, j + 1))
    else Scanned(0, j)
  }

  /** The digit scanner advances at every literal character. */
  lemma DigitScanOk(s: string)
    ensures ScansEverywhere(DigitScan, s)
  {
    forall j | 0 <= j < |s| && IsNumStart(s[j])
      ensures j < DigitScan(s, j).end <= |s| && NoSpaceIn(s, j, DigitScan(s, j).end)
    {
      DigitScanAt(s, j);
    }
  }

  /** So it meets the tokenizer's requirement from every index of every
      line. */
  lemma DigitScanFrom(s: string, i: nat)
    requires i <= |s|
    ensures ScannerOk(DigitScan, s, i)
  {
    DigitScanOk(s);
    EverywhereSuffices(DigitScan, s, i);
  }

  /** The literal scanned at `j` is the character there and the digits
      after it, so it holds no space. */
  lemma DigitScanAt(s: string, j: nat)
    requires j < |s| && IsNumStart(s[j])
    ensures j < DigitScan(s, j).end <= |s| && NoSpaceIn(s, j, DigitScan(s, j).end)
  {
    var e := DigitEnd(s, j + 1);
    assert DigitScan(s, j).end == e;
    forall k | j <= k < e
      ensures s[k] != ' '
    {
      if k > j {
        assert IsDigit(s[k]);
      }
    }
  }

  const IntArith: Arith<int> := Arith(
    (a, b) => a + b,
    (a, b) => a - b,
    (a, b) => a * b,
    (a, b) => if b == 0 then 0 else a / b,
    (a, b) => 0,
    a => -a)

  /** A literal scanned at `i` to `e`, followed by a line the tokenizer
      accepts from `e`, is one number token in front of the tokens after
      it, and the tokenizer accepts the line from `i` too. */
  lemma NumAt<V>(scan: (string, nat) -> Scanned<V>, s: string, i: nat, v: V, e: nat, rest: seq<Token<V>>)
    requires i < e <= |s| && IsNumStart(s[i]) && scan(s, i) == Scanned(v, e) && NoSpaceIn(s, i, e)
    requires ScannerOk(scan, s, e) && Lex(scan, s, e) == Ok(rest)
    ensures ScannerOk(scan, s, i)
    ensures Lex(scan, s, i) == Ok([Num(v, e)] + rest)
  {
    assert SkipSpaces(s, i) == i;
    NumberToken(scan, s, i);
  }

  /** An operator character at `i` is one operator token in front of the
      tokens after it. */
  lemma OpAt<V>(scan: (string, nat) -> Scanned<V>, s: string, i: nat, op: OpCode, rest: seq<Token<V>>)
    requires i < |s| && OpOf(s[i]) == Some(op)
    requires ScannerOk(scan, s, i + 1) && Lex(scan, s, i + 1) == Ok(rest)
    ensures ScannerOk(scan, s, i)
    ensures Lex(scan, s, i) == Ok([Op(op, i)] + rest)
  {
    assert SkipSpaces(s, i) == i;
    OperatorToken(scan, s, i, op);
  }

  /** A space in the middle of a line contributes no token. */
  lemma SpaceAt<V>(scan: (string, nat) -> Scanned<V>, s: string, i: nat, rest: seq<Token<V>>)
    requires i + 1 < |s| && s[i] == ' '
    requires ScannerOk(scan, s, i + 1) && Lex(scan, s, i + 1) == Ok(rest)
    ensures ScannerOk(scan, s, i)
    ensures Lex(scan, s, i) == Ok(rest)
  {
    assert SkipSpaces(s, i) == SkipSpaces(s, i + 1);
    SpaceIsSkipped(scan, s, i);
  }

  /** `2+3*4` tokenizes, with any scanner that reads its three one-digit
      literals, to five tokens and the end-of-input token. */
  lemma MulBeforeAddTokens<V>(scan: (string, nat) -> Scanned<V>, s: string, a: V, b: V, c: V)
    requires s == "2+3*4"
    requires scan(s, 0) == Scanned(a, 1) && scan(s, 2) == Scanned(b, 3) && scan(s, 4) == Scanned(c, 5)
    ensures ScannerOk(scan, s, 0)
    ensures Lex(scan, s, 0) == Ok([Num(a, 1), Op(Plus, 1), Num(b, 3), Op(Mul, 3), Num(c, 5), EOF(0)])
  {
    var t5: seq<Token<V>> := [EOF(0)];
    assert ScannerOk(scan, s, 5) && Lex(scan, s, 5) == Ok(t5);
    var t4 := [Num(c, 5)] + t5;
    assert NoSpaceIn(s, 4, 5);
    NumAt(scan, s, 4, c, 5, t5);
    var t3 := [Op(Mul, 3)] + t4;
    OpAt(scan, s, 3, Mul, t4);
    var t2 := [Num(b, 3)] + t3;
    assert NoSpaceIn(s, 2, 3);
    NumAt(scan, s, 2, b, 3, t3);
    var t1 := [Op(Plus, 1)] + t2;
    OpAt(scan, s, 1, Plus, t2);
    assert NoSpaceIn(s, 0, 1);
    NumAt(scan, s, 0, a, 1, t1);
    assert [Num(a, 1)] + t1 == [Num(a, 1), Op(Plus, 1), Num(b, 3), Op(Mul, 3), Num(c, 5), EOF(0)];
  }

  /** With the digit scanner, `2+3*4` tokenizes to the numbers 2, 3 and 4
      with their operators and the end-of-input token. */
  lemma LexMulBeforeAdd(s: string)
    requires s == "2+3*4"
    ensures ScannerOk(DigitScan, s, 0)
    ensures Lex(DigitScan, s, 0) == Ok([Num(2, 1), Op(Plus, 1), Num(3, 3), Op(Mul, 3), Num(4, 5), EOF(0)])
  {
    assert DigitEnd(s, 1) == 1 && DigitEnd(s, 3) == 3 && DigitEnd(s, 5) == 5;
    assert DigitScan(s, 0) == Scanned(2, 1) && DigitScan(s, 2) == Scanned(3, 3) && DigitScan(s, 4) == Scanned(4, 5);
    MulBeforeAddTokens(DigitScan, s, 2, 3, 4);
  }

  /** `2+3*4` is 14. */
  lemma LineMulBeforeAdd(s: string)
    requires s == "2+3*4"
    ensures ScannerOk(DigitScan, s, 0)
    ensures EvalLine(DigitScan, IntArith, s) == Ok(14)
  {
    LexMulBeforeAdd(s);
    MulBeforeAdd(IntArith, 2, 3, 4);
  }

  /** `2+@3` tokenizes, with any scanner that reads its first literal,
      up to the `@` and fails there. */
  lemma BadCharTokens<V>(scan: (string, nat) -> Scanned<V>, s: string, a: V)
    requires s == "2+@3"
    requires scan(s, 0) == Scanned(a, 1)
    ensures ScannerOk(scan, s, 0)
    ensures Lex(scan, s, 0) == Err(Failure(BadChar, 2))
  {
    assert SkipSpaces(s, 2) == 2 && SkipSpaces(s, 1) == 1 && SkipSpaces(s, 0) == 0;
    assert IsBadChar(s[2]) && ScannerOk(scan, s, 2);
    BadCharToken(scan, s, 2);
    assert ScannerOk(scan, s, 1);
    OperatorToken(scan, s, 1, Plus);
    assert NoSpaceIn(s, 0, 1) && ScannerOk(scan, s, 0);
    NumberToken(scan, s, 0);
  }

  /** With the digit scanner, `2+@3` fails at the `@`, index 2. */
  lemma LexBadChar(s: string)
    requires s == "2+@3"
    ensures ScannerOk(DigitScan, s, 0)
    ensures Lex(DigitScan, s, 0) == Err(Failure(BadChar, 2))
  {
    assert DigitEnd(s, 1) == 1;
    assert DigitScan(s, 0) == Scanned(2, 1);
    BadCharTokens(DigitScan, s, 2);
  }

  /** The line `2+@3` is rejected with `BadChar` at the `@`, index 2. */
  lemma LineBadChar(s: string)
    requires s == "2+@3"
    ensures ScannerOk(DigitScan, s, 0)
    ensures EvalLine(DigitScan, IntArith, s) == Err(Failure(BadChar, 2))
  {
    LexBadChar(s);
  }

  /** `(2+3` tokenizes, with any scanner that reads its two one-digit
      literals, to four tokens and the end-of-input token. */
  lemma UnclosedParenTokens<V>(scan: (string, nat) -> Scanned<V>, s: string, a: V, b: V)
    requires s == "(2+3"
    requires scan(s, 1) == Scanned(a, 2) && scan(s, 3) == Scanned(b, 4)
    ensures ScannerOk(scan, s, 0)
    ensures Lex(scan, s, 0) == Ok([Op(LParen, 0), Num(a, 2), Op(Plus, 2), Num(b, 4), EOF(0)])
  {
    var t4: seq<Token<V>> := [EOF(0)];
    assert ScannerOk(scan, s, 4) && Lex(scan, s, 4) == Ok(t4);
    var t3 := [Num(b, 4)] + t4;
    assert NoSpaceIn(s, 3, 4);
    NumAt(scan, s, 3, b, 4, t4);
    var t2 := [Op(Plus, 2)] + t3;
    OpAt(scan, s, 2, Plus, t3);
    var t1 := [Num(a, 2)] + t2;
    assert NoSpaceIn(s, 1, 2);
    NumAt(scan, s, 1, a, 2, t2);
    OpAt(scan, s, 0, LParen, t1);
    assert [Op(LParen, 0)] + t1 == [Op(LParen, 0), Num(a, 2), Op(Plus, 2), Num(b, 4), EOF(0)];
  }

  /** With the digit scanner, `(2+3` tokenizes to its four tokens and the
      sentinel. */
  lemma LexUnclosedParen(s: string)
    requires s == "(2+3"
    ensures ScannerOk(DigitScan, s, 0)
    ensures Lex(DigitScan, s, 0) == Ok([Op(LParen, 0), Num(2, 2), Op(Plus, 2), Num(3, 4), EOF(0)])
  {
    assert DigitEnd(s, 2) == 2 && DigitEnd(s, 4) == 4;
    assert DigitScan(s, 1) == Scanned(2, 2) && DigitScan(s, 3) == Scanned(3, 4);
    UnclosedParenTokens(DigitScan, s, 2, 3);
  }

  /** The line `(2+3` is `NoParen` at column 0, the sentinel's column,
      not one past the end of the line. */
  lemma LineUnclosedParen(s: string)
    requires s == "(2+3"
    ensures ScannerOk(DigitScan, s, 0)
    ensures EvalLine(DigitScan, IntArith, s) == Err(Failure(NoParen, 0))
  {
    LexUnclosedParen(s);
    UnclosedParenAtSentinel(IntArith, 2, 3);
  }

  /** `(2+3 ` ends in a space, so with any scanner that reads its two
      one-digit literals no sentinel follows the last number. */
  lemma TrailingSpaceTokens<V>(scan: (string, nat) -> Scanned<V>, s: string, a: V, b: V)
    requires s == "(2+3 "
    requires scan(s, 1) == Scanned(a, 2) && scan(s, 3) == Scanned(b, 4)
    ensures ScannerOk(scan, s, 0)
    ensures Lex(scan, s, 0) == Ok([Op(LParen, 0), Num(a, 2), Op(Plus, 2), Num(b, 4)])
  {
    var t4: seq<Token<V>> := [];
    assert SkipSpaces(s, 4) == |s| && ScannerOk(scan, s, 4);
    TrailingSpaces(scan, s, 4);
    var t3 := [Num(b, 4)] + t4;
    assert NoSpaceIn(s, 3, 4);
    NumAt(scan, s, 3, b, 4, t4);
    var t2 := [Op(Plus, 2)] + t3;
    OpAt(scan, s, 2, Plus, t3);
    var t1 := [Num(a, 2)] + t2;
    assert NoSpaceIn(s, 1, 2);
    NumAt(scan, s, 1, a, 2, t2);
    OpAt(scan, s, 0, LParen, t1);
    assert [Op(LParen, 0)] + t1 == [Op(LParen, 0), Num(a, 2), Op(Plus, 2), Num(b, 4)];
  }

  /** With the digit scanner, `(2+3 ` tokenizes without the end-of-input
      token. */
  lemma LexTrailingSpace(s: string)
    requires s == "(2+3 "
    ensures ScannerOk(DigitScan, s, 0)
    ensures Lex(DigitScan, s, 0) == Ok([Op(LParen, 0), Num(2, 2), Op(Plus, 2), Num(3, 4)])
  {
    assert DigitEnd(s, 2) == 2 && DigitEnd(s, 4) == 4;
    assert DigitScan(s, 1) == Scanned(2, 2) && DigitScan(s, 3) == Scanned(3, 4);
    TrailingSpaceTokens(DigitScan, s, 2, 3);
  }

  /** Without the sentinel, `NoParen` for `(2+3 ` is reported at the
      column of the last number, 4. */
  lemma LineUnclosedParenTrailingSpace(s: string)
    requires s == "(2+3 "
    ensures ScannerOk(DigitScan, s, 0)
    ensures EvalLine(DigitScan, IntArith, s) == Err(Failure(NoParen, 4))
  {
    LexTrailingSpace(s);
    UnclosedParenPastEnd(IntArith, 2, 3);
  }

  /** `2 3` tokenizes, with any scanner that reads its two one-digit
      literals, to two numbers and the end-of-input token; the space
      yields nothing. */
  lemma JuxtapositionTokens<V>(scan: (string, nat) -> Scanned<V>, s: string, a: V, b: V)
    requires s == "2 3"
    requires scan(s, 0) == Scanned(a, 1) && scan(s, 2) == Scanned(b, 3)
    ensures ScannerOk(scan, s, 0)
    ensures Lex(scan, s, 0) == Ok([Num(a, 1), Num(b, 3), EOF(0)])
  {
    var t3: seq<Token<V>> := [EOF(0)];
    assert ScannerOk(scan, s, 3) && Lex(scan, s, 3) == Ok(t3);
    var t2 := [Num(b, 3)] + t3;
    assert NoSpaceIn(s, 2, 3);
    NumAt(scan, s, 2, b, 3, t3);
    SpaceAt(scan, s, 1, t2);
    assert NoSpaceIn(s, 0, 1);
    NumAt(scan, s, 0, a, 1, t2);
    assert [Num(a, 1)] + t2 == [Num(a, 1), Num(b, 3), EOF(0)];
  }

  /** With the digit scanner, `2 3` tokenizes to the numbers 2 and 3 and
      the sentinel. */
  lemma LexJuxtaposition(s: string)
    requires s == "2 3"
    ensures ScannerOk(DigitScan, s, 0)
    ensures Lex(DigitScan, s, 0) == Ok([Num(2, 1), Num(3, 3), EOF(0)])
  {
    assert DigitEnd(s, 1) == 1 && DigitEnd(s, 3) == 3;
    assert DigitScan(s, 0) == Scanned(2, 1) && DigitScan(s, 2) == Scanned(3, 3);
    JuxtapositionTokens(DigitScan, s, 2, 3);
  }

  /** `2 3` is 6: the numbers multiply. */
  lemma LineJuxtaposition(s: string)
    requires s == "2 3"
    ensures ScannerOk(DigitScan, s, 0)
    ensures EvalLine(DigitScan, IntArith, s) == Ok(6)
  {
    LexJuxtaposition(s);
    ImplicitMulNumbers(IntArith, 2, 3);
  }

  /** `2^3)` tokenizes, with any scanner that reads its two one-digit
      literals, with the caret as a `(`. */
  lemma CaretTokens<V>(scan: (string, nat) -> Scanned<V>, s: string, a: V, b: V)
    requires s == "2^3)"
    requires scan(s, 0) == Scanned(a, 1) && scan(s, 2) == Scanned(b, 3)
    ensures ScannerOk(scan, s, 0)
    ensures Lex(scan, s, 0) == Ok([Num(a, 1), Op(LParen, 1), Num(b, 3), Op(RParen, 3), EOF(0)])
  {
    var t4: seq<Token<V>> := [EOF(0)];
    assert ScannerOk(scan, s, 4) && Lex(scan, s, 4) == Ok(t4);
    var t3 := [Op(RParen, 3)] + t4;
    OpAt(scan, s, 3, RParen, t4);
    var t2 := [Num(b, 3)] + t3;
    assert NoSpaceIn(s, 2, 3);
    NumAt(scan, s, 2, b, 3, t3);
    var t1 := [Op(LParen, 1)] + t2;
    OpAt(scan, s, 1, LParen, t2);
    assert NoSpaceIn(s, 0, 1);
    NumAt(scan, s, 0, a, 1, t1);
    assert [Num(a, 1)] + t1 == [Num(a, 1), Op(LParen, 1), Num(b, 3), Op(RParen, 3), EOF(0)];
  }

  /** With the digit scanner, `2^3)` tokenizes with the caret as a `(` at
      index 1. */
  lemma LexCaret(s: string)
    requires s == "2^3)"
    ensures ScannerOk(DigitScan, s, 0)
    ensures Lex(DigitScan, s, 0) == Ok([Num(2, 1), Op(LParen, 1), Num(3, 3), Op(RParen, 3), EOF(0)])
  {
    assert DigitEnd(s, 1) == 1 && DigitEnd(s, 3) == 3;
    assert DigitScan(s, 0) == Scanned(2, 1) && DigitScan(s, 2) == Scanned(3, 3);
    CaretTokens(DigitScan, s, 2, 3);
  }

  /** `2^3)` is 6: the caret is a `(` that multiplies. */
  lemma LineCaret(s: string)
    requires s == "2^3)"
    ensures ScannerOk(DigitScan, s, 0)
    ensures EvalLine(DigitScan, IntArith, s) == Ok(6)
  {
    LexCaret(s);
    CaretMultiplies(IntArith, 2, 3);
  }
}
