/** Properties of the parser-evaluator: when the loop stops, which errors
    the first token causes, that `pow` is never reached, that only the
    tokens from the cursor on are read, and that juxtaposition is
    multiplication. */
module EvaluatorFacts {
  import opened Errors
  import opened Tokens
  import opened BindingPower
  import opened Lexer
  import opened Evaluator

  /** The infix powers a token has when it stands in operator position:
      its own for an operator, those of `*` for a number or `(` (implicit
      multiplication), none for the end of input. */
  function InfixRole<V>(t: Token<V>): Option<Powers> {
    match t
    case EOF(_) => None
    case Num(_, _) => InfixBp(Mul)
    case Op(code, _) => if code == LParen then InfixBp(Mul) else InfixBp(code)
  }

  /** The loop's stop condition at cursor `c`. */
  predicate Stops<V>(toks: seq<Token<V>>, c: Cursor, minBp: nat) {
    InfixRole(Peek(toks, c)).None? || InfixRole(Peek(toks, c)).value.left < minBp
  }

  /** The loop returns its left value with nothing consumed exactly when
      the next token is the end of input, has no infix role, or binds
      less tightly on the left than `minBp` allows; otherwise it consumes
      something or fails. */
  lemma LoopStopsExactly<V>(alg: Arith<V>, toks: seq<Token<V>>, c: Cursor, minBp: nat, lhs: V)
    ensures Stops(toks, c, minBp) ==> Loop(alg, toks, c, minBp, lhs) == Ok(Parsed(lhs, c))
    ensures !Stops(toks, c, minBp) ==> Loop(alg, toks, c, minBp, lhs).Ok? ==> Loop(alg, toks, c, minBp, lhs).value.rest.at > c.at
  {
  }

  /** An operand position holding the end of input is `BadToken`, at
      column 0 for the appended sentinel and at the last consumed column
      past the end of the buffer. */
  lemma FirstTokenEof<V>(alg: Arith<V>, toks: seq<Token<V>>, c: Cursor, minBp: nat)
    requires Peek(toks, c).EOF?
    ensures ExprBp(alg, toks, c, minBp).Err?
    ensures ExprBp(alg, toks, c, minBp).error.kind == BadToken
    ensures c.at >= |toks| ==> ExprBp(alg, toks, c, minBp).error.column == c.column
    ensures c.at < |toks| ==> ExprBp(alg, toks, c, minBp).error.column == toks[c.at].column
  {
  }

  /** An operator other than `+ - (` in operand position is `BadOp` at its
      own column. */
  lemma LeadingNonPrefixOp<V>(alg: Arith<V>, toks: seq<Token<V>>, c: Cursor, minBp: nat)
    requires c.at < |toks| && toks[c.at].Op?
    requires toks[c.at].code !in {Plus, Minus, LParen}
    ensures ExprBp(alg, toks, c, minBp) == Err(Failure(BadOp, toks[c.at].column))
  {
  }

  /** After `(` and a parsed inner expression, a consumed token other
      than `)` is `NoParen` at the column the cursor then holds: that
      token's own column (0 for the appended sentinel), or the last
      consumed column when reading past the end of the buffer. */
  lemma UnclosedParen<V>(alg: Arith<V>, toks: seq<Token<V>>, c: Cursor, minBp: nat)
    requires c.at < |toks| && toks[c.at] == Op(LParen, toks[c.at].column)
    requires ExprBp(alg, toks, Cursor(c.at + 1, toks[c.at].column), 0).Ok?
    requires var q := ExprBp(alg, toks, Cursor(c.at + 1, toks[c.at].column), 0).value.rest;
             !(Peek(toks, q).Op? && Peek(toks, q).code == RParen)
    ensures var q := ExprBp(alg, toks, Cursor(c.at + 1, toks[c.at].column), 0).value.rest;
            ExprBp(alg, toks, c, minBp)
            == Err(Failure(NoParen, if q.at < |toks| then toks[q.at].column else q.column))
    ensures var q := ExprBp(alg, toks, Cursor(c.at + 1, toks[c.at].column), 0).value.rest;
            q.at < |toks| && toks[q.at].EOF? && toks[q.at].column == 0 ==>
              ExprBp(alg, toks, c, minBp) == Err(Failure(NoParen, 0))
  {
  }

  /** `do_op` never receives `^` or a parenthesis from the loop, so
      replacing the power function changes nothing: `pow` is unreachable. */
  lemma {:induction false} ExprBpIgnoresPow<V>(alg: Arith<V>, pow: (V, V) -> V, toks: seq<Token<V>>, c: Cursor, minBp: nat)
    ensures ExprBp(alg.(pow := pow), toks, c, minBp) == ExprBp(alg, toks, c, minBp)
    decreases Remaining(toks, c), 0
  {
    var (lhs, c1) := Next(toks, c);
    match lhs
    case EOF(_) =>
    case Num(v, _) =>
      LoopIgnoresPow(alg, pow, toks, c1, minBp, v);
    case Op(op, _) =>
      if op == LParen {
        ExprBpIgnoresPow(alg, pow, toks, c1, 0);
        var inner := ExprBp(alg, toks, c1, 0);
        if inner.Ok? {
          var (close, c2) := Next(toks, inner.value.rest);
          if close.Op? && close.code == RParen {
            LoopIgnoresPow(alg, pow, toks, c2, minBp, inner.value.value);
          }
        }
      } else if PrefixBp(op, c1.column).Ok? {
        var rbp := PrefixBp(op, c1.column).value;
        ExprBpIgnoresPow(alg, pow, toks, c1, rbp);
        var operand := ExprBp(alg, toks, c1, rbp);
        if operand.Ok? {
          var v := if op == Plus then operand.value.value else alg.neg(operand.value.value);
          LoopIgnoresPow(alg, pow, toks, operand.value.rest, minBp, v);
        }
      }
  }

  lemma {:induction false} LoopIgnoresPow<V>(alg: Arith<V>, pow: (V, V) -> V, toks: seq<Token<V>>, c: Cursor, minBp: nat, lhs: V)
    ensures Loop(alg.(pow := pow), toks, c, minBp, lhs) == Loop(alg, toks, c, minBp, lhs)
    decreases Remaining(toks, c), 1
  {
    var t := Peek(toks, c);
    if !t.EOF? {
      var implicit := t.Num? || t.code == LParen;
      var op := if implicit then Mul else t.code;
      if InfixBp(op).Some? && InfixBp(op).value.left >= minBp {
        var bp := InfixBp(op).value;
        var c' := if implicit then c else Next(toks, c).1;
        ExprBpIgnoresPow(alg, pow, toks, c', bp.right);
        var rhs := ExprBp(alg, toks, c', bp.right);
        if rhs.Ok? {
          var v := ArithOf(alg, op, lhs, rhs.value.value);
          assert DoOp(alg.(pow := pow), op, lhs, rhs.value.value, rhs.value.rest.column) == Ok(v);
          LoopIgnoresPow(alg, pow, toks, rhs.value.rest, minBp, v);
        }
      }
    }
  }

  /** A result with its cursor position moved `d` tokens further. */
  function ShiftResult<V>(r: Result<Parsed<V>>, d: nat): Result<Parsed<V>> {
    match r
    case Ok(p) => Ok(Parsed(p.value, Cursor(p.rest.at + d, p.rest.column)))
    case Err(e) => Err(e)
  }

  /** The evaluator reads only the tokens at and after its cursor: dropping
      `d` tokens before the cursor gives the same result, `d` positions
      earlier. */
  lemma {:induction false} ExprBpShift<V>(alg: Arith<V>, toks: seq<Token<V>>, c: Cursor, minBp: nat, d: nat)
    requires d <= c.at && d <= |toks|
    ensures ExprBp(alg, toks, c, minBp)
            == ShiftResult(ExprBp(alg, toks[d..], Cursor(c.at - d, c.column), minBp), d)
    decreases Remaining(toks, c), 0
  {
    var u := toks[d..];
    var cu := Cursor(c.at - d, c.column);
    var (lhs, c1) := Next(toks, c);
    var cu1 := Cursor(c1.at - d, c1.column);
    assert Next(u, cu) == (lhs, cu1);
    match lhs
    case EOF(_) =>
    case Num(v, _) =>
      assert ExprBp(alg, toks, c, minBp) == Loop(alg, toks, c1, minBp, v);
      assert ExprBp(alg, u, cu, minBp) == Loop(alg, u, cu1, minBp, v);
      LoopShift(alg, toks, c1, minBp, v, d);
    case Op(op, _) =>
      if op == LParen {
        ParenShift(alg, toks, c, minBp, d);
      } else {
        PrefixShift(alg, toks, c, minBp, d);
      }
  }

  lemma {:induction false} ParenShift<V>(alg: Arith<V>, toks: seq<Token<V>>, c: Cursor, minBp: nat, d: nat)
    requires d <= c.at < |toks| && toks[c.at].Op? && toks[c.at].code == LParen
    ensures ExprBp(alg, toks, c, minBp)
            == ShiftResult(ExprBp(alg, toks[d..], Cursor(c.at - d, c.column), minBp), d)
    decreases Remaining(toks, c), 0, 0
  {
    var u := toks[d..];
    var cu := Cursor(c.at - d, c.column);
    var (lhs, c1) := Next(toks, c);
    var cu1 := Cursor(c1.at - d, c1.column);
    assert Next(u, cu) == (lhs, cu1);
    ExprBpShift(alg, toks, c1, 0, d);
    var inner := ExprBp(alg, toks, c1, 0);
    var innerU := ExprBp(alg, u, cu1, 0);
    assert inner == ShiftResult(innerU, d);
    if inner.Ok? {
      var q := inner.value.rest;
      var qu := innerU.value.rest;
      assert qu == Cursor(q.at - d, q.column);
      var (close, c2) := Next(toks, q);
      var cu2 := Cursor(c2.at - d, c2.column);
      assert Next(u, qu) == (close, cu2);
      if close.Op? && close.code == RParen {
        assert ExprBp(alg, toks, c, minBp) == Loop(alg, toks, c2, minBp, inner.value.value);
        assert ExprBp(alg, u, cu, minBp) == Loop(alg, u, cu2, minBp, inner.value.value);
        LoopShift(alg, toks, c2, minBp, inner.value.value, d);
      } else {
        assert ExprBp(alg, toks, c, minBp) == Err(Failure(NoParen, c2.column));
        assert ExprBp(alg, u, cu, minBp) == Err(Failure(NoParen, c2.column));
      }
    } else {
      assert ExprBp(alg, toks, c, minBp) == Err(inner.error);
      assert ExprBp(alg, u, cu, minBp) == Err(inner.error);
    }
  }

  lemma {:induction false} PrefixShift<V>(alg: Arith<V>, toks: seq<Token<V>>, c: Cursor, minBp: nat, d: nat)
    requires d <= c.at < |toks| && toks[c.at].Op? && toks[c.at].code != LParen
    ensures ExprBp(alg, toks, c, minBp)
            == ShiftResult(ExprBp(alg, toks[d..], Cursor(c.at - d, c.column), minBp), d)
    decreases Remaining(toks, c), 0, 0
  {
    var u := toks[d..];
    var cu := Cursor(c.at - d, c.column);
    var (lhs, c1) := Next(toks, c);
    var cu1 := Cursor(c1.at - d, c1.column);
    assert Next(u, cu) == (lhs, cu1);
    var op := lhs.code;
    if PrefixBp(op, c1.column).Ok? {
      var rbp := PrefixBp(op, c1.column).value;
      ExprBpShift(alg, toks, c1, rbp, d);
      var operand := ExprBp(alg, toks, c1, rbp);
      var operandU := ExprBp(alg, u, cu1, rbp);
      assert operand == ShiftResult(operandU, d);
      if operand.Ok? {
        var v := if op == Plus then operand.value.value else alg.neg(operand.value.value);
        var q := operand.value.rest;
        assert operandU.value.rest == Cursor(q.at - d, q.column);
        assert ExprBp(alg, toks, c, minBp) == Loop(alg, toks, q, minBp, v);
        assert ExprBp(alg, u, cu, minBp) == Loop(alg, u, operandU.value.rest, minBp, v);
        LoopShift(alg, toks, q, minBp, v, d);
      } else {
        assert ExprBp(alg, toks, c, minBp) == Err(operand.error);
        assert ExprBp(alg, u, cu, minBp) == Err(operand.error);
      }
    }
  }

  lemma {:induction false} LoopShift<V>(alg: Arith<V>, toks: seq<Token<V>>, c: Cursor, minBp: nat, lhs: V, d: nat)
    requires d <= c.at && d <= |toks|
    ensures Loop(alg, toks, c, minBp, lhs)
            == ShiftResult(Loop(alg, toks[d..], Cursor(c.at - d, c.column), minBp, lhs), d)
    decreases Remaining(toks, c), 1
  {
    var u := toks[d..];
    var cu := Cursor(c.at - d, c.column);
    var t := Peek(toks, c);
    assert Peek(u, cu) == t;
    if !t.EOF? {
      var implicit := t.Num? || t.code == LParen;
      var op := if implicit then Mul else t.code;
      if InfixBp(op).Some? && InfixBp(op).value.left >= minBp {
        var bp := InfixBp(op).value;
        var c' := if implicit then c else Next(toks, c).1;
        var cu' := if implicit then cu else Next(u, cu).1;
        assert cu' == Cursor(c'.at - d, c'.column);
        ExprBpShift(alg, toks, c', bp.right, d);
        var rhs := ExprBp(alg, toks, c', bp.right);
        var rhsU := ExprBp(alg, u, cu', bp.right);
        assert rhs == ShiftResult(rhsU, d);
        if rhs.Ok? {
          var v := ArithOf(alg, op, lhs, rhs.value.value);
          var q := rhs.value.rest;
          assert rhsU.value.rest == Cursor(q.at - d, q.column);
          assert Loop(alg, toks, c, minBp, lhs) == Loop(alg, toks, q, minBp, v);
          assert Loop(alg, u, cu, minBp, lhs) == Loop(alg, u, rhsU.value.rest, minBp, v);
          LoopShift(alg, toks, q, minBp, v, d);
        } else {
          assert Loop(alg, toks, c, minBp, lhs) == Err(rhs.error);
          assert Loop(alg, u, cu, minBp, lhs) == Err(rhs.error);
        }
      }
    }
  }

  /** How the loop goes on once it has parsed a right operand `rhs`
      for the operator `op`: combine, then loop again from where the
      operand ended. */
  function Continue<V>(alg: Arith<V>, toks: seq<Token<V>>, rhs: Result<Parsed<V>>, minBp: nat, lhs: V, op: OpCode): Result<Parsed<V>>
    requires InfixBp(op).Some?
  {
    match rhs
    case Err(e) => Err(e)
    case Ok(p) => Loop(alg, toks, p.rest, minBp, ArithOf(alg, op, lhs, p.value))
  }

  /** An explicit binary operator the loop admits is consumed, its right
      operand is parsed with the operator's right power, and the two are
      combined with the operator's arithmetic. */
  lemma ExplicitOperator<V>(alg: Arith<V>, toks: seq<Token<V>>, c: Cursor, minBp: nat, lhs: V)
    requires Peek(toks, c).Op? && InfixBp(Peek(toks, c).code).Some?
    requires InfixBp(Peek(toks, c).code).value.left >= minBp
    ensures var op := Peek(toks, c).code;
            Loop(alg, toks, c, minBp, lhs)
            == Continue(alg, toks, ExprBp(alg, toks, Next(toks, c).1, InfixBp(op).value.right), minBp, lhs, op)
  {
  }

  /** A number or `(` in operator position is a multiplication with the
      powers of `*` whose right operand starts at that very token: no
      token is consumed for the missing operator. */
  lemma ImplicitMultiplication<V>(alg: Arith<V>, toks: seq<Token<V>>, c: Cursor, minBp: nat, lhs: V)
    requires Peek(toks, c).Num? || (Peek(toks, c).Op? && Peek(toks, c).code == LParen)
    requires minBp <= 3
    ensures Loop(alg, toks, c, minBp, lhs) == Continue(alg, toks, ExprBp(alg, toks, c, 4), minBp, lhs, Mul)
  {
  }

  /** Juxtaposition is multiplication: where a number or `(` follows a
      value, inserting an explicit `*` before it changes nothing but the
      position the loop stops at, which moves by the inserted token. When
      the caller's power excludes `*`, neither form absorbs anything. */
  lemma JuxtapositionIsMultiplication<V>(alg: Arith<V>, a: seq<Token<V>>, b: seq<Token<V>>, k: nat, col: nat, minBp: nat, lhs: V)
    requires |b| > 0 && (b[0].Num? || (b[0].Op? && b[0].code == LParen))
    ensures minBp <= 3 ==>
              Loop(alg, a + [Op(Mul, k)] + b, Cursor(|a|, col), minBp, lhs)
              == ShiftResult(Loop(alg, a + b, Cursor(|a|, col), minBp, lhs), 1)
    ensures minBp > 3 ==>
              Loop(alg, a + [Op(Mul, k)] + b, Cursor(|a|, col), minBp, lhs) == Ok(Parsed(lhs, Cursor(|a|, col)))
              && Loop(alg, a + b, Cursor(|a|, col), minBp, lhs) == Ok(Parsed(lhs, Cursor(|a|, col)))
  {
    var x := a + [Op(Mul, k)] + b;
    var y := a + b;
    var c := Cursor(|a|, col);
    assert Peek(x, c) == Op(Mul, k);
    assert Peek(y, c) == b[0];
    if minBp <= 3 {
      JuxtapositionBelowMul(alg, a, b, k, col, minBp, lhs);
    }
  }

  lemma JuxtapositionBelowMul<V>(alg: Arith<V>, a: seq<Token<V>>, b: seq<Token<V>>, k: nat, col: nat, minBp: nat, lhs: V)
    requires |b| > 0 && (b[0].Num? || (b[0].Op? && b[0].code == LParen))
    requires minBp <= 3
    ensures Loop(alg, a + [Op(Mul, k)] + b, Cursor(|a|, col), minBp, lhs)
            == ShiftResult(Loop(alg, a + b, Cursor(|a|, col), minBp, lhs), 1)
  {
    var inner := ExprBp(alg, b, Cursor(0, col), 4);
    var rest := Continue(alg, b, inner, minBp, lhs, Mul);
    ExplicitSide(alg, a, b, k, col, minBp, lhs);
    ImplicitSide(alg, a, b, col, minBp, lhs);
    ShiftTwice(rest, |a|, 1);
  }

  lemma ExplicitSide<V>(alg: Arith<V>, a: seq<Token<V>>, b: seq<Token<V>>, k: nat, col: nat, minBp: nat, lhs: V)
    requires |b| > 0 && minBp <= 3
    ensures Loop(alg, a + [Op(Mul, k)] + b, Cursor(|a|, col), minBp, lhs)
            == ShiftResult(Continue(alg, b, ExprBp(alg, b, Cursor(0, col), 4), minBp, lhs, Mul), |a| + 1)
  {
    var x := a + [Op(Mul, k)] + b;
    var c := Cursor(|a|, col);
    var cx := Cursor(|a| + 1, k);
    var inner := ExprBp(alg, b, Cursor(0, col), 4);
    assert x[|a| + 1..] == b;
    assert Loop(alg, x, c, minBp, lhs) == Continue(alg, x, ExprBp(alg, x, cx, 4), minBp, lhs, Mul) by {
      assert Peek(x, c) == Op(Mul, k);
      assert Next(x, c).1 == cx;
      ExplicitOperator(alg, x, c, minBp, lhs);
    }
    assert ExprBp(alg, x, cx, 4) == ShiftResult(inner, |a| + 1) by {
      ExprBpShift(alg, x, cx, 4, |a| + 1);
      assert Next(b, Cursor(0, k)) == Next(b, Cursor(0, col));
    }
    assert Continue(alg, x, ShiftResult(inner, |a| + 1), minBp, lhs, Mul)
           == ShiftResult(Continue(alg, b, inner, minBp, lhs, Mul), |a| + 1) by {
      ContinueShift(alg, x, inner, minBp, lhs, Mul, |a| + 1);
    }
  }

  lemma ImplicitSide<V>(alg: Arith<V>, a: seq<Token<V>>, b: seq<Token<V>>, col: nat, minBp: nat, lhs: V)
    requires |b| > 0 && (b[0].Num? || (b[0].Op? && b[0].code == LParen))
    requires minBp <= 3
    ensures Loop(alg, a + b, Cursor(|a|, col), minBp, lhs)
            == ShiftResult(Continue(alg, b, ExprBp(alg, b, Cursor(0, col), 4), minBp, lhs, Mul), |a|)
  {
    var y := a + b;
    var c := Cursor(|a|, col);
    assert Peek(y, c) == b[0];
    ImplicitMultiplication(alg, y, c, minBp, lhs);
    assert y[|a|..] == b;
    ExprBpShift(alg, y, c, 4, |a|);
    ContinueShift(alg, y, ExprBp(alg, b, Cursor(0, col), 4), minBp, lhs, Mul, |a|);
  }

  lemma ShiftTwice<V>(r: Result<Parsed<V>>, d: nat, e: nat)
    ensures ShiftResult(ShiftResult(r, d), e) == ShiftResult(r, d + e)
  {
  }

  /** Continuing the loop on a buffer is continuing it on the buffer
      without its first `d` tokens, `d` positions later. */
  lemma ContinueShift<V>(alg: Arith<V>, toks: seq<Token<V>>, r: Result<Parsed<V>>, minBp: nat, lhs: V, op: OpCode, d: nat)
    requires InfixBp(op).Some? && d <= |toks|
    ensures Continue(alg, toks, ShiftResult(r, d), minBp, lhs, op)
            == ShiftResult(Continue(alg, toks[d..], r, minBp, lhs, op), d)
  {
    if r.Ok? {
      var q := r.value.rest;
      LoopShift(alg, toks, Cursor(q.at + d, q.column), minBp, ArithOf(alg, op, lhs, r.value.value), d);
      assert Cursor(q.at + d - d, q.column) == q;
    }
  }

  /** Tokens after the point where the evaluator stops are never read:
      appending any tokens to the buffer leaves a successful result that
      stopped inside the buffer unchanged. The top level does not check
      that the whole line was consumed, so `2)3` is just `2`. */
  lemma {:induction false} ExprBpIgnoresLeftover<V>(alg: Arith<V>, toks: seq<Token<V>>, extra: seq<Token<V>>, c: Cursor, minBp: nat)
    requires ExprBp(alg, toks, c, minBp).Ok? && ExprBp(alg, toks, c, minBp).value.rest.at < |toks|
    ensures ExprBp(alg, toks + extra, c, minBp) == ExprBp(alg, toks, c, minBp)
    decreases Remaining(toks, c), 0
  {
    var w := toks + extra;
    var (lhs, c1) := Next(toks, c);
    assert Next(w, c) == (lhs, c1);
    match lhs
    case Num(v, _) =>
      LoopIgnoresLeftover(alg, toks, extra, c1, minBp, v);
    case Op(op, _) =>
      if op == LParen {
        var inner := ExprBp(alg, toks, c1, 0);
        ExprBpIgnoresLeftover(alg, toks, extra, c1, 0);
        var (close, c2) := Next(toks, inner.value.rest);
        assert Next(w, inner.value.rest) == (close, c2);
        LoopIgnoresLeftover(alg, toks, extra, c2, minBp, inner.value.value);
      } else {
        var rbp := PrefixBp(op, c1.column).value;
        var operand := ExprBp(alg, toks, c1, rbp);
        ExprBpIgnoresLeftover(alg, toks, extra, c1, rbp);
        var v := if op == Plus then operand.value.value else alg.neg(operand.value.value);
        LoopIgnoresLeftover(alg, toks, extra, operand.value.rest, minBp, v);
      }
  }

  lemma {:induction false} LoopIgnoresLeftover<V>(alg: Arith<V>, toks: seq<Token<V>>, extra: seq<Token<V>>, c: Cursor, minBp: nat, lhs: V)
    requires Loop(alg, toks, c, minBp, lhs).Ok? && Loop(alg, toks, c, minBp, lhs).value.rest.at < |toks|
    ensures Loop(alg, toks + extra, c, minBp, lhs) == Loop(alg, toks, c, minBp, lhs)
    decreases Remaining(toks, c), 1
  {
    var w := toks + extra;
    var t := Peek(toks, c);
    assert Peek(w, c) == t;
    if !t.EOF? {
      var implicit := t.Num? || t.code == LParen;
      var op := if implicit then Mul else t.code;
      if InfixBp(op).Some? && InfixBp(op).value.left >= minBp {
        var bp := InfixBp(op).value;
        var c' := if implicit then c else Next(toks, c).1;
        assert c' == if implicit then c else Next(w, c).1;
        var rhs := ExprBp(alg, toks, c', bp.right);
        ExprBpIgnoresLeftover(alg, toks, extra, c', bp.right);
        var v := ArithOf(alg, op, lhs, rhs.value.value);
        LoopIgnoresLeftover(alg, toks, extra, rhs.value.rest, minBp, v);
      }
    }
  }
}
