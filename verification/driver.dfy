/** The per-line driver `expr` of `src/main.c`: tokenize the line into
    the reused buffer, evaluate from `min_bp = 0`, then truncate the
    buffer to length 0 whether evaluation succeeded or failed.

    A `BadChar` is raised while tokenizing, before the jump target of the
    line is set, so the C program's state after it is undefined; the model
    reports only the error's column there and says nothing about the
    buffer.
 */
module Driver {
  import opened Errors
  import opened DynArray
  import opened Tokens
  import opened Evaluator

  /** The outcome of one line: rejected by the tokenizer with `BadChar`
      at a column, or evaluated to a value or a parser error, with the
      token buffer handed on to the next line. */
  datatype LineResult<V> =
    | Rejected(column: nat)
    | Evaluated(outcome: Result<V>, tokens: Buffer<Token<V>>)

  /** The value or error one line produces from an empty buffer. */
  function EvalLine<V>(scan: (string, nat) -> Scanned<V>, alg: Arith<V>, s: string): (r: Result<V>)
    requires ScannerOk(scan, s, 0)
    ensures (r.Err? && r.error.kind == BadChar) <==> Lex(scan, s, 0).Err?
    ensures r.Err? && r.error.kind == BadChar ==> r.error.column < |s| && IsBadChar(s[r.error.column])
    ensures AllLexable(s, 0) ==> r.Err? ==> r.error.kind in {BadToken, BadOp, NoParen}
  {
    var toks :- Lex(scan, s, 0);
    Evaluate(alg, toks)
  }

  /** `expr`: the tokens of the line are appended to whatever the buffer
      holds and evaluated from its start. Every line that reaches the
      evaluator leaves the buffer empty with its capacity kept, so the
      next line starts from an empty buffer again: evaluating the same
      line twice gives the same outcome. */
  method Expr<V>(scan: (string, nat) -> Scanned<V>, alg: Arith<V>, s: string, t: Buffer<Token<V>>)
    returns (r: LineResult<V>)
    requires ScannerOk(scan, s, 0) && Valid(t)
    ensures r.Rejected? <==> Lex(scan, s, 0).Err?
    ensures r.Rejected? ==> Lex(scan, s, 0).error == Failure(BadChar, r.column)
    ensures r.Evaluated? ==> r.tokens.items == [] && r.tokens.cap >= t.cap && Valid(r.tokens)
    ensures r.Evaluated? ==> r.outcome == Evaluate(alg, t.items + Lex(scan, s, 0).value)
    ensures r.Evaluated? && t.items == [] ==> r.outcome == EvalLine(scan, alg, s)
  {
    var parsed := Parse(scan, s, t);
    if parsed.Err? {
      return Rejected(parsed.error.column);
    }
    var buf := parsed.value;
    var outcome := Evaluate(alg, buf.items);
    buf := Buffer([], buf.cap);
    r := Evaluated(outcome, buf);
    assert t.items == [] ==> buf.items + Lex(scan, s, 0).value == Lex(scan, s, 0).value;
  }

  /** A blank line (empty, or spaces only) has nothing to evaluate: the
      empty line yields only the sentinel, consumed as `BadToken` at its
      column 0; a line of spaces yields no token at all, so the cursor
      reads past the end and reports the initial column 0. */
  lemma BlankLine<V>(scan: (string, nat) -> Scanned<V>, alg: Arith<V>, s: string)
    requires forall k | 0 <= k < |s| :: s[k] == ' '
    ensures ScannerOk(scan, s, 0)
    ensures Lex(scan, s, 0) == Ok(if |s| == 0 then [EOF(0)] else [])
    ensures EvalLine(scan, alg, s) == Err(Failure(BadToken, 0))
  {
  }
}
