/** The tokenizer `parse` of `src/main.c`: a line becomes a sequence of
    number, operator and end-of-input tokens, each with a column.

    `strtod` is not modelled: the number scanner is a parameter `scan`
    that, at a position holding a digit or `.`, yields the literal's value
    and the index just past it.
 */
module Tokens {
  import opened Errors
  import opened DynArray

  /** The operator codes `O_PLUS` .. `O_RPAREN`. */
  datatype OpCode = Plus | Minus | Mul | Div | Pow | LParen | RParen

  /** `T_EOF`, `T_NUM` and `T_OP` tokens. The C token keeps the number
      and the operator in one union; here each variant holds its own. */
  datatype Token<V> = EOF(column: nat) | Num(value: V, column: nat) | Op(code: OpCode, column: nat)

  /** What the number scanner reports: the value and the end index. */
  datatype Scanned<V> = Scanned(value: V, end: nat)

  /** `isdigit` in the C locale. */
  predicate IsDigit(c: char) {
    '0' <= c <= '9'
  }

  /** A numeric literal starts with a digit or a `.`. */
  predicate IsNumStart(c: char) {
    IsDigit(c) || c == '.'
  }

  /** The character that spells each operator code in a line. */
  function Spelling(op: OpCode): char {
    match op
    case Plus => '+'
    case Minus => '-'
    case Mul => '*'
    case Div => '/'
    case Pow => '^'
    case LParen => '('
    case RParen => ')'
  }

  /** The operator switch of `parse`. `'^'` stores `O_POW` and then falls
      through into the `'('` case, which overwrites it with `O_LPAREN`,
      so the caret yields a left parenthesis. Exactly the seven operator
      characters are recognised, and each yields the code it spells,
      except the caret. */
  function OpOf(c: char): (r: Option<OpCode>)
    ensures r.Some? <==> c in "+-*/^()"
    ensures r.Some? && c != '^' ==> Spelling(r.value) == c
    ensures c == '^' ==> r == Some(LParen)
    ensures r.Some? ==> c != ' ' && !IsNumStart(c)
    ensures r != Some(Pow)
  {
    match c
    case '+' => Some(Plus)
    case '-' => Some(Minus)
    case '*' => Some(Mul)
    case '/' => Some(Div)
    case '^' => Some(LParen)
    case '(' => Some(LParen)
    case ')' => Some(RParen)
    case _ => None
  }

  /** Reading back the spelling of an operator gives the operator, except
      for `O_POW`, whose caret reads as `O_LPAREN`. */
  lemma SpellingRoundTrip(op: OpCode)
    ensures op != Pow ==> OpOf(Spelling(op)) == Some(op)
    ensures op == Pow ==> OpOf(Spelling(op)) == Some(LParen)
  {
  }

  /** A character the tokenizer rejects wherever it stands. */
  predicate IsBadChar(c: char) {
    c != ' ' && !IsNumStart(c) && OpOf(c).None?
  }

  predicate NoSpaceIn(s: string, a: nat, b: nat)
    requires a <= b <= |s|
  {
    forall k | a <= k < b :: s[k] != ' '
  }

  /** What `parse` needs from `strtod` on the line `s`, scanning from
      index `i`: wherever the loop calls it (the first non-space after a
      token, when that is a digit or `.`) it consumes at least one
      character, stays inside the line and consumes no space. Positions
      inside a literal are never scanned and carry no requirement. Where
      the scanner does not advance, as `strtod` does not on a lone `.`,
      the C loop appends tokens forever; the predicate is false there. */
  predicate ScannerOk<V>(scan: (string, nat) -> Scanned<V>, s: string, i: nat)
    requires i <= |s|
    decreases |s| - i
  {
    var j := SkipSpaces(s, i);
    j < |s| ==>
      if IsNumStart(s[j]) then
        var e := scan(s, j).end;
        j < e <= |s| && NoSpaceIn(s, j, e) && ScannerOk(scan, s, e)
      else OpOf(s[j]).Some? ==> ScannerOk(scan, s, j + 1)
  }

  /** A simpler sufficient condition: the scanner advances, within the
      line and over no space, at every digit or `.` of the line. */
  predicate ScansEverywhere<V>(scan: (string, nat) -> Scanned<V>, s: string) {
    forall j | 0 <= j < |s| && IsNumStart(s[j]) ::
      j < scan(s, j).end <= |s| && NoSpaceIn(s, j, scan(s, j).end)
  }

  /** A scanner that advances at every literal character advances at
      every position the tokenizer scans. */
  lemma {:induction false} EverywhereSuffices<V>(scan: (string, nat) -> Scanned<V>, s: string, i: nat)
    requires i <= |s| && ScansEverywhere(scan, s)
    ensures ScannerOk(scan, s, i)
    decreases |s| - i
  {
    var j := SkipSpaces(s, i);
    if j < |s| {
      if IsNumStart(s[j]) {
        EverywhereSuffices(scan, s, scan(s, j).end);
      } else if OpOf(s[j]).Some? {
        EverywhereSuffices(scan, s, j + 1);
      }
    }
  }

  /** The `while (*p == ' ') p++;` loop. */
  function SkipSpaces(s: string, i: nat): (j: nat)
    requires i <= |s|
    ensures i <= j <= |s|
    ensures forall k | i <= k < j :: s[k] == ' '
    ensures j < |s| ==> s[j] != ' '
    decreases |s| - i
  {
    if i < |s| && s[i] == ' ' then SkipSpaces(s, i + 1) else i
  }

  /** Every character from `i` on is one the tokenizer accepts. */
  predicate AllLexable(s: string, i: nat) {
    forall k | i <= k < |s| :: !IsBadChar(s[k])
  }

  predicate HasSentinel<V>(ts: seq<Token<V>>) {
    |ts| > 0 && ts[|ts| - 1].EOF?
  }

  /** What every token produced from `s[i..]` says about the line: an
      end-of-input token is the last one and has column 0; an operator
      token stands at the column of a character mapping to its code; a
      number token's column is the end of a literal scanned from a digit
      or `.` at or after `i`, and its value is that literal's value. */
  ghost predicate LexedSound<V>(scan: (string, nat) -> Scanned<V>, s: string, i: nat, ts: seq<Token<V>>) {
    forall k | 0 <= k < |ts| ::
      match ts[k]
      case EOF(col) => k == |ts| - 1 && col == 0
      case Op(code, col) => i <= col < |s| && OpOf(s[col]) == Some(code)
      case Num(v, col) =>
        exists j | i <= j < col <= |s| :: IsNumStart(s[j]) && scan(s, j) == Scanned(v, col)
  }

  /** `Prefixed(ts, r)`: the tokens `ts` followed by those of `r`, unless
      `r` failed. */
  function Prefixed<V>(ts: seq<Token<V>>, r: Result<seq<Token<V>>>): Result<seq<Token<V>>> {
    match r
    case Ok(rest) => Ok(ts + rest)
    case Err(e) => Err(e)
  }

  /** The tokens `parse` appends for the line `s`, scanning from index
      `i`. The scan stops with one end-of-input token (column 0) when the
      loop condition finds the end of the line, but returns early with no
      token at all when the line ends in spaces. A character that is not
      a space, a literal start or an operator is `BadChar` at its index.
   */
  function Lex<V>(scan: (string, nat) -> Scanned<V>, s: string, i: nat): (r: Result<seq<Token<V>>>)
    requires i <= |s| && ScannerOk(scan, s, i)
    ensures r.Err? ==> r.error.kind == BadChar && i <= r.error.column < |s| && IsBadChar(s[r.error.column])
    decreases |s| - i
  {
    if i == |s| then Ok([EOF(0)])
    else
      var j := SkipSpaces(s, i);
      if j == |s| then Ok([])
      else if IsNumStart(s[j]) then
        var lit := scan(s, j);
        Prefixed([Num(lit.value, lit.end)], Lex(scan, s, lit.end))
      else match OpOf(s[j])
        case None => Err(Failure(BadChar, j))
        case Some(op) => Prefixed([Op(op, j)], Lex(scan, s, j + 1))
  }

  /** Every token `Lex` produces is accounted for by the line (see
      `LexedSound`). */
  lemma {:induction false} LexSound<V>(scan: (string, nat) -> Scanned<V>, s: string, i: nat)
    requires i <= |s| && ScannerOk(scan, s, i)
    ensures Lex(scan, s, i).Ok? ==> LexedSound(scan, s, i, Lex(scan, s, i).value)
    decreases |s| - i
  {
    if i < |s| {
      var j := SkipSpaces(s, i);
      if j < |s| && (IsNumStart(s[j]) || OpOf(s[j]).Some?) {
        var e := if IsNumStart(s[j]) then scan(s, j).end else j + 1;
        LexSound(scan, s, e);
      }
    }
  }

  /** The end-of-input sentinel is appended exactly when the line is
      empty from `i` on or does not end in a space: a line ending in
      spaces returns early with no sentinel. */
  lemma {:induction false} LexSentinel<V>(scan: (string, nat) -> Scanned<V>, s: string, i: nat)
    requires i <= |s| && ScannerOk(scan, s, i)
    ensures Lex(scan, s, i).Ok? ==> (HasSentinel(Lex(scan, s, i).value) <==> i == |s| || s[|s| - 1] != ' ')
    decreases |s| - i
  {
    if i < |s| {
      var j := SkipSpaces(s, i);
      if j < |s| && (IsNumStart(s[j]) || OpOf(s[j]).Some?) {
        var e := if IsNumStart(s[j]) then scan(s, j).end else j + 1;
        LexSentinel(scan, s, e);
        if e == |s| {
          assert s[|s| - 1] != ' ';
        }
      }
    }
  }

  /** A line whose characters from `i` on are all spaces, literal
      characters or operators is tokenized without error: the only
      failure `Lex` has points at a bad character. */
  lemma LexComplete<V>(scan: (string, nat) -> Scanned<V>, s: string, i: nat)
    requires i <= |s| && ScannerOk(scan, s, i) && AllLexable(s, i)
    ensures Lex(scan, s, i).Ok?
  {
  }

  lemma PrefixedAssoc<V>(a: seq<Token<V>>, b: seq<Token<V>>, r: Result<seq<Token<V>>>)
    ensures Prefixed(a, Prefixed(b, r)) == Prefixed(a + b, r)
  {
    if r.Ok? {
      assert a + (b + r.value) == (a + b) + r.value;
    }
  }

  /** A space produces no token: unless it is the last character, scanning
      from it gives what scanning from the next character gives. */
  lemma SpaceIsSkipped<V>(scan: (string, nat) -> Scanned<V>, s: string, i: nat)
    requires i + 1 < |s| && s[i] == ' ' && ScannerOk(scan, s, i)
    ensures ScannerOk(scan, s, i + 1)
    ensures Lex(scan, s, i) == Lex(scan, s, i + 1)
  {
  }

  /** Spaces up to the end of the line yield no token at all: `parse`
      returns before it appends the end-of-input token. */
  lemma TrailingSpaces<V>(scan: (string, nat) -> Scanned<V>, s: string, i: nat)
    requires i < |s| && SkipSpaces(s, i) == |s| && ScannerOk(scan, s, i)
    ensures Lex(scan, s, i) == Ok([])
  {
  }

  /** A character that is not a space, a literal start or an operator
      stops tokenizing with `BadChar` at its own index. */
  lemma BadCharToken<V>(scan: (string, nat) -> Scanned<V>, s: string, i: nat)
    requires i < |s| && IsBadChar(s[i]) && ScannerOk(scan, s, i)
    ensures Lex(scan, s, i) == Err(Failure(BadChar, i))
  {
    assert SkipSpaces(s, i) == i;
  }

  /** Each of `+ - * / ( )` yields exactly one operator token with its code
      and its own index as column, and scanning resumes right after it. */
  lemma OperatorToken<V>(scan: (string, nat) -> Scanned<V>, s: string, i: nat, op: OpCode)
    requires i < |s| && OpOf(s[i]) == Some(op) && ScannerOk(scan, s, i)
    ensures ScannerOk(scan, s, i + 1)
    ensures Lex(scan, s, i) == Prefixed([Op(op, i)], Lex(scan, s, i + 1))
  {
    assert SkipSpaces(s, i) == i;
  }

  /** `^` lexes as a left parenthesis. */
  lemma CaretIsLParen<V>(scan: (string, nat) -> Scanned<V>, s: string, i: nat)
    requires i < |s| && s[i] == '^' && ScannerOk(scan, s, i)
    ensures ScannerOk(scan, s, i + 1)
    ensures Lex(scan, s, i) == Prefixed([Op(LParen, i)], Lex(scan, s, i + 1))
  {
    OperatorToken(scan, s, i, LParen);
  }

  /** Leading spaces are skipped: scanning from `i` is scanning from the
      first non-space character at or after `i`. */
  lemma SpacesSkipped<V>(scan: (string, nat) -> Scanned<V>, s: string, i: nat)
    requires i < |s| && SkipSpaces(s, i) < |s| && ScannerOk(scan, s, i)
    ensures ScannerOk(scan, s, SkipSpaces(s, i))
    ensures Lex(scan, s, i) == Lex(scan, s, SkipSpaces(s, i))
  {
  }

  /** No token of a scanned line has the code `Pow`. */
  lemma {:induction false} NoPowToken<V>(scan: (string, nat) -> Scanned<V>, s: string, i: nat, ts: seq<Token<V>>)
    requires i <= |s| && ScannerOk(scan, s, i) && Lex(scan, s, i) == Ok(ts)
    ensures forall k | 0 <= k < |ts| :: !(ts[k].Op? && ts[k].code == Pow)
  {
    LexSound(scan, s, i);
    forall k | 0 <= k < |ts|
      ensures !(ts[k].Op? && ts[k].code == Pow)
    {
      if ts[k].Op? {
        assert OpOf(s[ts[k].column]) == Some(ts[k].code);
      }
    }
  }

  /** A number token's column is the index just past its literal, and
      scanning resumes there. */
  lemma NumberToken<V>(scan: (string, nat) -> Scanned<V>, s: string, i: nat)
    requires i < |s| && IsNumStart(s[i]) && ScannerOk(scan, s, i)
    ensures i < scan(s, i).end <= |s| && ScannerOk(scan, s, scan(s, i).end)
    ensures Lex(scan, s, i) == Prefixed([Num(scan(s, i).value, scan(s, i).end)], Lex(scan, s, scan(s, i).end))
  {
  }

  /** One round of the `parse` loop from `i`: what the first non-space
      character decides, with the scanner requirement carried to where
      scanning resumes. */
  lemma ScanStep<V>(scan: (string, nat) -> Scanned<V>, s: string, i: nat)
    requires i < |s| && ScannerOk(scan, s, i)
    ensures var j := SkipSpaces(s, i);
      && (j == |s| ==> Lex(scan, s, i) == Ok([]))
      && (j < |s| && IsNumStart(s[j]) ==>
            var e := scan(s, j).end;
            j < e <= |s| && ScannerOk(scan, s, e)
            && Lex(scan, s, i) == Prefixed([Num(scan(s, j).value, e)], Lex(scan, s, e)))
      && (j < |s| && !IsNumStart(s[j]) && OpOf(s[j]).Some? ==>
            ScannerOk(scan, s, j + 1)
            && Lex(scan, s, i) == Prefixed([Op(OpOf(s[j]).value, j)], Lex(scan, s, j + 1)))
      && (j < |s| && !IsNumStart(s[j]) && OpOf(s[j]).None? ==>
            Lex(scan, s, i) == Err(Failure(BadChar, j)))
  {
  }

  /** The bookkeeping of one emitted token: what is left to scan after
      it is what was left before, minus the token. */
  lemma Extend<V>(scan: (string, nat) -> Scanned<V>, s: string, whole: Result<seq<Token<V>>>,
                  emitted: seq<Token<V>>, tok: Token<V>, p0: nat, p1: nat)
    requires p0 <= |s| && p1 <= |s| && ScannerOk(scan, s, p0) && ScannerOk(scan, s, p1)
    requires whole == Prefixed(emitted, Lex(scan, s, p0))
    requires Lex(scan, s, p0) == Prefixed([tok], Lex(scan, s, p1))
    ensures whole == Prefixed(emitted + [tok], Lex(scan, s, p1))
  {
    PrefixedAssoc(emitted, [tok], Lex(scan, s, p1));
  }

  /** The `while (*p == ' ') p++;` loop of `parse`, which stops where
      `SkipSpaces` says. */
  method SkipSpaceRun(s: string, i: nat) returns (j: nat)
    requires i <= |s|
    ensures j == SkipSpaces(s, i)
  {
    j := i;
    while j < |s| && s[j] == ' '
      invariant i <= j <= |s|
      invariant SkipSpaces(s, i) == SkipSpaces(s, j)
    {
      j := j + 1;
    }
  }

  /** One round of the loop of `parse` from index `i`: skip spaces, then
      scan a literal or an operator. The result is no token when the
      spaces reach the end of the line (the early `return`), one token
      and the index after it, or `BadChar` at the offending character. */
  method ParseToken<V>(scan: (string, nat) -> Scanned<V>, s: string, i: nat)
    returns (r: Result<Option<(Token<V>, nat)>>)
    requires i < |s| && ScannerOk(scan, s, i)
    ensures r.Ok? && r.value.None? ==> Lex(scan, s, i) == Ok([])
    ensures r.Ok? && r.value.Some? ==>
              var (tok, next) := r.value.value;
              i < next <= |s| && ScannerOk(scan, s, next)
              && Lex(scan, s, i) == Prefixed([tok], Lex(scan, s, next))
    ensures r.Err? ==> Lex(scan, s, i) == Err(r.error)
  {
    var p := SkipSpaceRun(s, i);
    ScanStep(scan, s, i);
    if p < |s| && IsNumStart(s[p]) {
      var lit := scan(s, p);
      return Ok(Some((Num(lit.value, lit.end), lit.end)));
    } else if p == |s| {
      return Ok(None);
    }
    match OpOf(s[p])
    case None =>
      return Err(Failure(BadChar, p));
    case Some(op) =>
      return Ok(Some((Op(op, p), p + 1)));
  }

  /** `parse` as the C loop writes it: each round skips spaces, scans a
      literal or an operator and `da_append`s its token; the end-of-input
      token is appended once the loop condition finds the end of the
      line. It appends to whatever the buffer already holds, and its
      result is the buffer extended by `Lex`'s tokens, or `Lex`'s
      `BadChar` failure.
   */
  method Parse<V>(scan: (string, nat) -> Scanned<V>, s: string, t: Buffer<Token<V>>)
    returns (r: Result<Buffer<Token<V>>>)
    requires ScannerOk(scan, s, 0) && Valid(t)
    ensures r.Ok? <==> Lex(scan, s, 0).Ok?
    ensures r.Ok? ==> r.value.items == t.items + Lex(scan, s, 0).value
    ensures r.Ok? ==> r.value.cap >= t.cap && Valid(r.value)
    ensures r.Err? ==> r.error == Lex(scan, s, 0).error
  {
    var p: nat := 0;
    var buf := t;
    ghost var emitted: seq<Token<V>> := [];
    ghost var whole := Lex(scan, s, 0);
    assert whole == Prefixed(emitted, Lex(scan, s, 0)) by {
      if whole.Ok? {
        assert emitted + whole.value == whole.value;
      }
    }
    while p < |s|
      invariant p <= |s|
      invariant buf.items == t.items + emitted && buf.cap >= t.cap && Valid(buf)
      invariant ScannerOk(scan, s, p)
      invariant whole == Prefixed(emitted, Lex(scan, s, p))
      decreases |s| - p
    {
      var step := ParseToken(scan, s, p);
      match step
      case Err(e) =>
        return Err(e);
      case Ok(None) =>
        assert emitted + [] == emitted;
        return Ok(buf);
      case Ok(Some((tok, next))) =>
        buf := Append(buf, tok);
        Extend(scan, s, whole, emitted, tok, p, next);
        emitted := emitted + [tok];
        p := next;
    }
    buf := Append(buf, EOF(0));
    emitted := emitted + [EOF(0)];
    return Ok(buf);
  }
}
