/** Concrete lines and token sequences, checked against the model. The
    token-level examples hold for every arithmetic; the line-level ones
    use integer arithmetic and a decimal integer scanner in place of
    `strtod` and doubles. */
module Examples {
  import opened Errors
  import opened Tokens
  import opened Lexer
  import opened Evaluator

  /** `a + b * c`: `*` binds tighter than `+`. */
  lemma MulBeforeAdd<V>(alg: Arith<V>, a: V, b: V, c: V)
    ensures Evaluate(alg, [Num(a, 1), Op(Plus, 1), Num(b, 3), Op(Mul, 3), Num(c, 5), EOF(0)])
            == Ok(alg.add(a, alg.mul(b, c)))
  {
    var t := [Num(a, 1), Op(Plus, 1), Num(b, 3), Op(Mul, 3), Num(c, 5), EOF(0)];
    assert Loop(alg, t, Cursor(5, 5), 0, alg.add(a, alg.mul(b, c))) == Ok(Parsed(alg.add(a, alg.mul(b, c)), Cursor(5, 5)));
    assert Loop(alg, t, Cursor(5, 5), 2, alg.mul(b, c)) == Ok(Parsed(alg.mul(b, c), Cursor(5, 5)));
    assert ExprBp(alg, t, Cursor(4, 3), 4) == Ok(Parsed(c, Cursor(5, 5)));
    assert ExprBp(alg, t, Cursor(2, 1), 2) == Ok(Parsed(alg.mul(b, c), Cursor(5, 5)));
    assert ExprBp(alg, t, Cursor(0, 0), 0) == Ok(Parsed(alg.add(a, alg.mul(b, c)), Cursor(5, 5)));
  }

  /** `(a + b) * c`: parentheses override precedence. */
  lemma ParensFirst<V>(alg: Arith<V>, a: V, b: V, c: V)
    ensures Evaluate(alg, [Op(LParen, 0), Num(a, 2), Op(Plus, 2), Num(b, 4), Op(RParen, 4), Op(Mul, 5), Num(c, 7), EOF(0)])
            == Ok(alg.mul(alg.add(a, b), c))
  {
    var t := [Op(LParen, 0), Num(a, 2), Op(Plus, 2), Num(b, 4), Op(RParen, 4), Op(Mul, 5), Num(c, 7), EOF(0)];
    var ab := alg.add(a, b);
    assert Loop(alg, t, Cursor(7, 7), 0, alg.mul(ab, c)) == Ok(Parsed(alg.mul(ab, c), Cursor(7, 7)));
    assert ExprBp(alg, t, Cursor(6, 5), 4) == Ok(Parsed(c, Cursor(7, 7)));
    assert Loop(alg, t, Cursor(5, 4), 0, ab) == Ok(Parsed(alg.mul(ab, c), Cursor(7, 7)));
    assert Loop(alg, t, Cursor(4, 4), 0, ab) == Ok(Parsed(ab, Cursor(4, 4)));
    assert ExprBp(alg, t, Cursor(3, 2), 2) == Ok(Parsed(b, Cursor(4, 4)));
    assert ExprBp(alg, t, Cursor(1, 0), 0) == Ok(Parsed(ab, Cursor(4, 4)));
    assert ExprBp(alg, t, Cursor(0, 0), 0) == Ok(Parsed(alg.mul(ab, c), Cursor(7, 7)));
  }

  /** `a - b - c` is `(a - b) - c`: each level is left-associative. */
  lemma SubtractionLeftAssociative<V>(alg: Arith<V>, a: V, b: V, c: V)
    ensures Evaluate(alg, [Num(a, 2), Op(Minus, 2), Num(b, 4), Op(Minus, 4), Num(c, 6), EOF(0)])
            == Ok(alg.sub(alg.sub(a, b), c))
  {
    var t := [Num(a, 2), Op(Minus, 2), Num(b, 4), Op(Minus, 4), Num(c, 6), EOF(0)];
    var ab := alg.sub(a, b);
    assert Loop(alg, t, Cursor(5, 6), 0, alg.sub(ab, c)) == Ok(Parsed(alg.sub(ab, c), Cursor(5, 6)));
    assert ExprBp(alg, t, Cursor(4, 4), 2) == Ok(Parsed(c, Cursor(5, 6)));
    assert Loop(alg, t, Cursor(3, 4), 2, b) == Ok(Parsed(b, Cursor(3, 4)));
    assert ExprBp(alg, t, Cursor(2, 2), 2) == Ok(Parsed(b, Cursor(3, 4)));
    assert Loop(alg, t, Cursor(3, 4), 0, ab) == Ok(Parsed(alg.sub(ab, c), Cursor(5, 6)));
    assert ExprBp(alg, t, Cursor(0, 0), 0) == Ok(Parsed(alg.sub(ab, c), Cursor(5, 6)));
  }

  /** `a * b / c` is `(a * b) / c`: `*` and `/` share a level, so they
      group from the left. */
  lemma MulDivLeftAssociative<V>(alg: Arith<V>, a: V, b: V, c: V)
    ensures Evaluate(alg, [Num(a, 1), Op(Mul, 1), Num(b, 3), Op(Div, 3), Num(c, 5), EOF(0)])
            == Ok(alg.div(alg.mul(a, b), c))
  {
    var t := [Num(a, 1), Op(Mul, 1), Num(b, 3), Op(Div, 3), Num(c, 5), EOF(0)];
    var ab := alg.mul(a, b);
    assert Loop(alg, t, Cursor(5, 5), 0, alg.div(ab, c)) == Ok(Parsed(alg.div(ab, c), Cursor(5, 5)));
    assert ExprBp(alg, t, Cursor(4, 3), 4) == Ok(Parsed(c, Cursor(5, 5)));
    assert Loop(alg, t, Cursor(3, 3), 4, b) == Ok(Parsed(b, Cursor(3, 3)));
    assert ExprBp(alg, t, Cursor(2, 1), 4) == Ok(Parsed(b, Cursor(3, 3)));
    assert Loop(alg, t, Cursor(3, 3), 0, ab) == Ok(Parsed(alg.div(ab, c), Cursor(5, 5)));
    assert ExprBp(alg, t, Cursor(0, 0), 0) == Ok(Parsed(alg.div(ab, c), Cursor(5, 5)));
  }

  /** `--a` negates twice: prefix signs chain. */
  lemma DoubleNegation<V>(alg: Arith<V>, a: V)
    ensures Evaluate(alg, [Op(Minus, 0), Op(Minus, 1), Num(a, 3), EOF(0)]) == Ok(alg.neg(alg.neg(a)))
  {
    var t := [Op(Minus, 0), Op(Minus, 1), Num(a, 3), EOF(0)];
    assert ExprBp(alg, t, Cursor(2, 1), 5) == Ok(Parsed(a, Cursor(3, 3)));
    assert ExprBp(alg, t, Cursor(1, 0), 5) == Ok(Parsed(alg.neg(a), Cursor(3, 3)));
    assert ExprBp(alg, t, Cursor(0, 0), 0) == Ok(Parsed(alg.neg(alg.neg(a)), Cursor(3, 3)));
  }

  /** `-a + b` is `(-a) + b`: a sign binds tighter than `+`. */
  lemma SignBeforeAdd<V>(alg: Arith<V>, a: V, b: V)
    ensures Evaluate(alg, [Op(Minus, 0), Num(a, 2), Op(Plus, 2), Num(b, 4), EOF(0)]) == Ok(alg.add(alg.neg(a), b))
  {
    var t := [Op(Minus, 0), Num(a, 2), Op(Plus, 2), Num(b, 4), EOF(0)];
    assert ExprBp(alg, t, Cursor(1, 0), 5) == Ok(Parsed(a, Cursor(2, 2)));
    assert ExprBp(alg, t, Cursor(3, 2), 2) == Ok(Parsed(b, Cursor(4, 4)));
    assert Loop(alg, t, Cursor(2, 2), 0, alg.neg(a)) == Ok(Parsed(alg.add(alg.neg(a), b), Cursor(4, 4)));
    assert ExprBp(alg, t, Cursor(0, 0), 0) == Ok(Parsed(alg.add(alg.neg(a), b), Cursor(4, 4)));
  }

  /** `-a * b` is `(-a) * b`: a sign binds tighter than `*`. */
  lemma SignBeforeMul<V>(alg: Arith<V>, a: V, b: V)
    ensures Evaluate(alg, [Op(Minus, 0), Num(a, 2), Op(Mul, 2), Num(b, 4), EOF(0)]) == Ok(alg.mul(alg.neg(a), b))
  {
    var t := [Op(Minus, 0), Num(a, 2), Op(Mul, 2), Num(b, 4), EOF(0)];
    assert ExprBp(alg, t, Cursor(1, 0), 5) == Ok(Parsed(a, Cursor(2, 2)));
    assert ExprBp(alg, t, Cursor(3, 2), 4) == Ok(Parsed(b, Cursor(4, 4)));
    assert Loop(alg, t, Cursor(2, 2), 0, alg.neg(a)) == Ok(Parsed(alg.mul(alg.neg(a), b), Cursor(4, 4)));
    assert ExprBp(alg, t, Cursor(0, 0), 0) == Ok(Parsed(alg.mul(alg.neg(a), b), Cursor(4, 4)));
  }

  /** `-(a + b)` negates the whole parenthesised sum. */
  lemma NegatedParens<V>(alg: Arith<V>, a: V, b: V)
    ensures Evaluate(alg, [Op(Minus, 0), Op(LParen, 1), Num(a, 3), Op(Plus, 3), Num(b, 5), Op(RParen, 5), EOF(0)])
            == Ok(alg.neg(alg.add(a, b)))
  {
    var t := [Op(Minus, 0), Op(LParen, 1), Num(a, 3), Op(Plus, 3), Num(b, 5), Op(RParen, 5), EOF(0)];
    var ab := alg.add(a, b);
    assert ExprBp(alg, t, Cursor(4, 3), 2) == Ok(Parsed(b, Cursor(5, 5)));
    assert Loop(alg, t, Cursor(5, 5), 0, ab) == Ok(Parsed(ab, Cursor(5, 5)));
    assert Loop(alg, t, Cursor(3, 3), 0, a) == Ok(Parsed(ab, Cursor(5, 5)));
    assert ExprBp(alg, t, Cursor(2, 1), 0) == Ok(Parsed(ab, Cursor(5, 5)));
    assert Loop(alg, t, Cursor(6, 5), 5, ab) == Ok(Parsed(ab, Cursor(6, 5)));
    assert ExprBp(alg, t, Cursor(1, 0), 5) == Ok(Parsed(ab, Cursor(6, 5)));
    assert ExprBp(alg, t, Cursor(0, 0), 0) == Ok(Parsed(alg.neg(ab), Cursor(6, 5)));
  }

  /** `a(b + c)` is `a * (b + c)`: a `(` after a value multiplies. */
  lemma ImplicitMulParen<V>(alg: Arith<V>, a: V, b: V, c: V)
    ensures Evaluate(alg, [Num(a, 1), Op(LParen, 1), Num(b, 3), Op(Plus, 3), Num(c, 5), Op(RParen, 5), EOF(0)])
            == Ok(alg.mul(a, alg.add(b, c)))
  {
    var t := [Num(a, 1), Op(LParen, 1), Num(b, 3), Op(Plus, 3), Num(c, 5), Op(RParen, 5), EOF(0)];
    var bc := alg.add(b, c);
    assert ExprBp(alg, t, Cursor(4, 3), 2) == Ok(Parsed(c, Cursor(5, 5)));
    assert Loop(alg, t, Cursor(5, 5), 0, bc) == Ok(Parsed(bc, Cursor(5, 5)));
    assert Loop(alg, t, Cursor(3, 3), 0, b) == Ok(Parsed(bc, Cursor(5, 5)));
    assert ExprBp(alg, t, Cursor(2, 1), 0) == Ok(Parsed(bc, Cursor(5, 5)));
    assert ExprBp(alg, t, Cursor(1, 1), 4) == Ok(Parsed(bc, Cursor(6, 5)));
    assert Loop(alg, t, Cursor(1, 1), 0, a) == Ok(Parsed(alg.mul(a, bc), Cursor(6, 5)));
    assert ExprBp(alg, t, Cursor(0, 0), 0) == Ok(Parsed(alg.mul(a, bc), Cursor(6, 5)));
  }

  /** `a b` is `a * b`: two adjacent numbers multiply. */
  lemma ImplicitMulNumbers<V>(alg: Arith<V>, a: V, b: V)
    ensures Evaluate(alg, [Num(a, 1), Num(b, 3), EOF(0)]) == Ok(alg.mul(a, b))
  {
    var t := [Num(a, 1), Num(b, 3), EOF(0)];
    assert ExprBp(alg, t, Cursor(1, 1), 4) == Ok(Parsed(b, Cursor(2, 3)));
    assert Loop(alg, t, Cursor(2, 3), 0, alg.mul(a, b)) == Ok(Parsed(alg.mul(a, b), Cursor(2, 3)));
    assert Loop(alg, t, Cursor(1, 1), 0, a) == Ok(Parsed(alg.mul(a, b), Cursor(2, 3)));
    assert ExprBp(alg, t, Cursor(0, 0), 0) == Ok(Parsed(alg.mul(a, b), Cursor(2, 3)));
  }

  /** `a)b` is just `a`: the stray `)` ends the expression and the rest of
      the line is ignored. */
  lemma StrayParenEndsLine<V>(alg: Arith<V>, a: V, b: V)
    ensures Evaluate(alg, [Num(a, 1), Op(RParen, 1), Num(b, 3), EOF(0)]) == Ok(a)
  {
    var t := [Num(a, 1), Op(RParen, 1), Num(b, 3), EOF(0)];
    assert Loop(alg, t, Cursor(1, 1), 0, a) == Ok(Parsed(a, Cursor(1, 1)));
    assert ExprBp(alg, t, Cursor(0, 0), 0) == Ok(Parsed(a, Cursor(1, 1)));
  }

  /** `(a + b` with the sentinel: the sentinel is consumed in place of `)`,
      so `NoParen` is reported at its column 0. */
  lemma UnclosedParenAtSentinel<V>(alg: Arith<V>, a: V, b: V)
    ensures Evaluate(alg, [Op(LParen, 0), Num(a, 2), Op(Plus, 2), Num(b, 4), EOF(0)]) == Err(Failure(NoParen, 0))
  {
    var t := [Op(LParen, 0), Num(a, 2), Op(Plus, 2), Num(b, 4), EOF(0)];
    assert ExprBp(alg, t, Cursor(3, 2), 2) == Ok(Parsed(b, Cursor(4, 4)));
    assert Loop(alg, t, Cursor(4, 4), 0, alg.add(a, b)) == Ok(Parsed(alg.add(a, b), Cursor(4, 4)));
    assert Loop(alg, t, Cursor(2, 2), 0, a) == Ok(Parsed(alg.add(a, b), Cursor(4, 4)));
    assert ExprBp(alg, t, Cursor(1, 0), 0) == Ok(Parsed(alg.add(a, b), Cursor(4, 4)));
  }

  /** `(a + b ` without the sentinel (the line ended in a space): reading
      past the end leaves the column of the last number, 4. */
  lemma UnclosedParenPastEnd<V>(alg: Arith<V>, a: V, b: V)
    ensures Evaluate(alg, [Op(LParen, 0), Num(a, 2), Op(Plus, 2), Num(b, 4)]) == Err(Failure(NoParen, 4))
  {
    var t := [Op(LParen, 0), Num(a, 2), Op(Plus, 2), Num(b, 4)];
    assert ExprBp(alg, t, Cursor(3, 2), 2) == Ok(Parsed(b, Cursor(4, 4)));
    assert Loop(alg, t, Cursor(4, 4), 0, alg.add(a, b)) == Ok(Parsed(alg.add(a, b), Cursor(4, 4)));
    assert Loop(alg, t, Cursor(2, 2), 0, a) == Ok(Parsed(alg.add(a, b), Cursor(4, 4)));
    assert ExprBp(alg, t, Cursor(1, 0), 0) == Ok(Parsed(alg.add(a, b), Cursor(4, 4)));
  }

  /** `* a`: an operator without a prefix role is `BadOp` at its column. */
  lemma LeadingStar<V>(alg: Arith<V>, a: V)
    ensures Evaluate(alg, [Op(Mul, 0), Num(a, 2), EOF(0)]) == Err(Failure(BadOp, 0))
  {
  }

  /** `a^b)` is `a * b`: the caret lexes as `(`, which multiplies
      implicitly, and the `)` closes it. */
  lemma CaretMultiplies<V>(alg: Arith<V>, a: V, b: V)
    ensures Evaluate(alg, [Num(a, 1), Op(LParen, 1), Num(b, 3), Op(RParen, 3), EOF(0)]) == Ok(alg.mul(a, b))
  {
    var t := [Num(a, 1), Op(LParen, 1), Num(b, 3), Op(RParen, 3), EOF(0)];
    assert Loop(alg, t, Cursor(3, 3), 0, b) == Ok(Parsed(b, Cursor(3, 3)));
    assert ExprBp(alg, t, Cursor(2, 1), 0) == Ok(Parsed(b, Cursor(3, 3)));
    assert Loop(alg, t, Cursor(4, 3), 4, b) == Ok(Parsed(b, Cursor(4, 3)));
    assert ExprBp(alg, t, Cursor(1, 1), 4) == Ok(Parsed(b, Cursor(4, 3)));
    assert Loop(alg, t, Cursor(4, 3), 0, alg.mul(a, b)) == Ok(Parsed(alg.mul(a, b), Cursor(4, 3)));
    assert Loop(alg, t, Cursor(1, 1), 0, a) == Ok(Parsed(alg.mul(a, b), Cursor(4, 3)));
    assert ExprBp(alg, t, Cursor(0, 0), 0) == Ok(Parsed(alg.mul(a, b), Cursor(4, 3)));
  }
}
