/** The precedence-climbing parser-evaluator `expr_bp` of `src/main.c`,
    with `do_op`. It parses and computes in one recursive pass over the
    token buffer.

    Double-precision arithmetic is not modelled: the evaluator is generic
    in the number type `V` and takes the operations as an `Arith<V>`.
 */
module Evaluator {
  import opened Errors
  import opened Tokens
  import opened BindingPower
  import opened Lexer

  /** The arithmetic `do_op` and unary minus use: `+ - * /`, `pow` and
      negation. */
  datatype Arith<!V> = Arith(
    add: (V, V) -> V,
    sub: (V, V) -> V,
    mul: (V, V) -> V,
    div: (V, V) -> V,
    pow: (V, V) -> V,
    neg: V -> V)

  /** A parsed value and the cursor after the tokens it consumed. */
  datatype Parsed<V> = Parsed(value: V, rest: Cursor)

  /** `do_op`: apply a binary operator; the parentheses are `BadOp` at the
      given column. */
  function DoOp<V>(alg: Arith<V>, op: OpCode, lhs: V, rhs: V, column: nat): (r: Result<V>)
    ensures r.Ok? <==> op != LParen && op != RParen
    ensures r.Err? ==> r.error == Failure(BadOp, column)
    ensures InfixBp(op).Some? ==> r.Ok? && r.value == ArithOf(alg, op, lhs, rhs)
  {
    match op
    case Plus => Ok(alg.add(lhs, rhs))
    case Minus => Ok(alg.sub(lhs, rhs))
    case Mul => Ok(alg.mul(lhs, rhs))
    case Div => Ok(alg.div(lhs, rhs))
    case Pow => Ok(alg.pow(lhs, rhs))
    case _ => Err(Failure(BadOp, column))
  }

  /** The four arithmetic operators, as a reference for what the
      evaluator combines with. */
  function ArithOf<V>(alg: Arith<V>, op: OpCode, lhs: V, rhs: V): V
    requires InfixBp(op).Some?
  {
    if op == Plus then alg.add(lhs, rhs)
    else if op == Minus then alg.sub(lhs, rhs)
    else if op == Mul then alg.mul(lhs, rhs)
    else alg.div(lhs, rhs)
  }

  /** The tokens left before the end of the buffer. */
  function Remaining<V>(toks: seq<Token<V>>, c: Cursor): nat {
    if c.at <= |toks| then |toks| - c.at else 0
  }

  /** `expr_bp(l, min_bp)`: consume an operand (a number, a parenthesised
      expression or a signed operand) and continue with `Loop`. On
      success it has consumed at least one token and stopped inside the
      buffer; its errors are those of the parser, never `BadChar`. */
  function ExprBp<V>(alg: Arith<V>, toks: seq<Token<V>>, c: Cursor, minBp: nat): (r: Result<Parsed<V>>)
    ensures r.Ok? ==> c.at < r.value.rest.at <= |toks|
    ensures r.Err? ==> r.error.kind != BadChar
    decreases Remaining(toks, c), 0
  {
    var (lhs, c1) := Next(toks, c);
    match lhs
    case EOF(_) => Err(Failure(BadToken, c1.column))
    case Num(v, _) => Loop(alg, toks, c1, minBp, v)
    case Op(op, _) =>
      if op == LParen then
        var inner :- ExprBp(alg, toks, c1, 0);
        var (close, c2) := Next(toks, inner.rest);
        if close.Op? && close.code == RParen then Loop(alg, toks, c2, minBp, inner.value)
        else Err(Failure(NoParen, c2.column))
      else
        var rbp :- PrefixBp(op, c1.column);
        var operand :- ExprBp(alg, toks, c1, rbp);
        Loop(alg, toks, operand.rest, minBp, if op == Plus then operand.value else alg.neg(operand.value))
  }

  /** The `while (1)` loop of `expr_bp` with current left value `lhs`.
      It peeks at the next token: the end of input, an operator without
      an infix role, or one whose left power is below `minBp` ends the
      loop with nothing consumed. A number or `(` in operator position is
      an implicit multiplication that consumes no token of its own. */
  function Loop<V>(alg: Arith<V>, toks: seq<Token<V>>, c: Cursor, minBp: nat, lhs: V): (r: Result<Parsed<V>>)
    ensures r.Ok? ==> r.value.rest == c || c.at < r.value.rest.at <= |toks|
    ensures r.Err? ==> r.error.kind != BadChar
    decreases Remaining(toks, c), 1
  {
    var t := Peek(toks, c);
    if t.EOF? then Ok(Parsed(lhs, c))
    else
      var implicit := t.Num? || t.code == LParen;
      var op := if implicit then Mul else t.code;
      match InfixBp(op)
      case None => Ok(Parsed(lhs, c))
      case Some(bp) =>
        if bp.left < minBp then Ok(Parsed(lhs, c))
        else
          var c' := if implicit then c else Next(toks, c).1;
          var rhs :- ExprBp(alg, toks, c', bp.right);
          match DoOp(alg, op, lhs, rhs.value, rhs.rest.column)
          case Err(e) => Err(e)
          case Ok(v) => Loop(alg, toks, rhs.rest, minBp, v)
  }

  /** The top-level call `expr_bp(&l, 0)` from a fresh cursor; the value is
      what `expr` prints. Tokens after the parsed expression are ignored. */
  function Evaluate<V>(alg: Arith<V>, toks: seq<Token<V>>): (r: Result<V>)
    ensures r.Err? ==> r.error.kind in {BadToken, BadOp, NoParen}
  {
    var p :- ExprBp(alg, toks, Cursor(0, 0), 0);
    Ok(p.value)
  }
}
