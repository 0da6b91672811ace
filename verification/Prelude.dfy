/** Failure-compatible results shared by every module, and the errors the engine reports. */
module Prelude {

  datatype Option<+T> = None | Some(value: T)

  datatype Result<+T, +E> = Ok(value: T) | Err(error: E) {
    predicate IsFailure() { Err? }
    function PropagateFailure<U>(): Result<U, E>
      requires Err?
    {
      Err(error)
    }
    function Extract(): T
      requires Ok?
    {
      value
    }
  }

  /** A check that yields nothing but may refuse. */
  datatype Check<+E> = Pass | Fail(error: E) {
    predicate IsFailure() { Fail? }
    function PropagateFailure<U>(): Result<U, E>
      requires Fail?
    {
      Err(error)
    }
  }

  /** The sentinel errors a caller can distinguish. */
  datatype Error =
    | InvalidTransition
    | AppealsExhausted
    | UnknownRegime
    | InvalidLiability
    | InvalidSettlement
    | MalformedRequest
    | InvalidAnswers
    | RiskHold
    | CoreDeclined
    | Unavailable
    | Conflict
    | NotFound
    | Forbidden
    | UnknownTeam
    | IdempotencyReuse
    | Internal
}
