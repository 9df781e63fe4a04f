/** The cursor `Lexer` of `src/main.c` over a token buffer: the index
    `at` of the next unread token and the column of the last token read
    from the buffer. Reading past the end yields an end-of-input token. */
module Lexer {
  import opened Tokens

  datatype Cursor = Cursor(at: nat, column: nat)

  /** `lexpeek`: the next token, not consumed. */
  function Peek<V>(toks: seq<Token<V>>, c: Cursor): (t: Token<V>)
    ensures c.at < |toks| ==> t == toks[c.at]
    ensures c.at >= |toks| ==> t == EOF(0)
  {
    if c.at >= |toks| then EOF(0) else toks[c.at]
  }

  /** `lexnext`: consume the token `Peek` shows. The position always
      advances by one, even past the end of the buffer; the column is
      updated only when a token of the buffer is read. */
  function Next<V>(toks: seq<Token<V>>, c: Cursor): (r: (Token<V>, Cursor))
    ensures r.0 == Peek(toks, c)
    ensures r.1.at == c.at + 1
    ensures r.1.column == if c.at < |toks| then toks[c.at].column else c.column
  {
    if c.at >= |toks| then (EOF(0), Cursor(c.at + 1, c.column))
    else (toks[c.at], Cursor(c.at + 1, toks[c.at].column))
  }
}
