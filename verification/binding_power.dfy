/** The binding-power tables `prefix_binding_power` and
    `infix_binding_power` of `src/main.c`. */
module BindingPower {
  import opened Errors
  import opened Tokens

  /** Left and right infix binding powers of an operator. */
  datatype Powers = Powers(left: nat, right: nat)

  /** `infix_binding_power`: `+ -` share the powers (1, 2), `* /` share
      (3, 4); every other code has no infix role. Each level is
      left-associative (its right power is its left power plus one), every
      infix operator is admitted at the outermost level (`min_bp = 0`), and
      `* /` bind tighter than `+ -` on both sides. */
  function InfixBp(op: OpCode): (r: Option<Powers>)
    ensures r.Some? <==> op == Plus || op == Minus || op == Mul || op == Div
    ensures (op == Plus || op == Minus) ==> r == Some(Powers(1, 2))
    ensures (op == Mul || op == Div) ==> r == Some(Powers(3, 4))
    ensures r.Some? ==> r.value.right == r.value.left + 1
    ensures r.Some? ==> r.value.left >= 1
    ensures (op == Mul || op == Div) ==> r.value.left > 2
    ensures (op == Plus || op == Minus) ==> r.value.right < 3
  {
    match op
    case Plus => Some(Powers(1, 2))
    case Minus => Some(Powers(1, 2))
    case Mul => Some(Powers(3, 4))
    case Div => Some(Powers(3, 4))
    case _ => None
  }

  /** `prefix_binding_power`: unary `+` and `-` bind with a power above
      every infix power, so a sign applies to the operand next to it
      before any binary operator; any other operator in prefix position
      is `BadOp` at the given column. */
  function PrefixBp(op: OpCode, column: nat): (r: Result<nat>)
    ensures r.Ok? <==> op == Plus || op == Minus
    ensures r.Ok? ==> forall o :: InfixBp(o).Some? ==> r.value > InfixBp(o).value.right
    ensures r.Err? ==> r.error == Failure(BadOp, column)
  {
    match op
    case Plus => Ok(5)
    case Minus => Ok(5)
    case _ => Err(Failure(BadOp, column))
  }
}
