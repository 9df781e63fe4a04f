/** The evaluator's error channel.

    The C program reports every error through one `longjmp` back to the
    line driver; here an error is an ordinary value carried by `Result`,
    made of the error kind and the column the diagnostic caret points at.
 */
module Errors {

  /** The four error kinds of `enum ErrType`. */
  datatype ErrKind = BadChar | BadToken | BadOp | NoParen

  /** What the diagnostic reports: which error, and at which column. */
  datatype Failure = Failure(kind: ErrKind, column: nat)

  /** A value, or the failure that aborted the current line. */
  datatype Result<+T> = Ok(value: T) | Err(error: Failure) {

    predicate IsFailure() {
      Err?
    }

    function PropagateFailure<U>(): Result<U>
      requires Err?
    {
      Err(error)
    }

    function Extract(): T
      requires Ok?
    {
      value
    }
  }

  datatype Option<+T> = None | Some(value: T)
}
