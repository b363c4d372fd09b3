// How a message ends: it takes effect, it fails, or it aborts.
module Outcomes {

  /** Neither an `Error` nor a `Panic` leaves a trace. */
  datatype Outcome<+T> = Ok(value: T) | Error | Panic {
    predicate IsFailure() {
      !Ok?
    }

    function PropagateFailure<U>(): Outcome<U>
      requires IsFailure()
    {
      if Error? then Error else Panic
    }

    function Extract(): T
      requires !IsFailure()
    {
      value
    }
  }

  /** What a method that writes as it goes reports at the end. */
  datatype Verdict = Done | Failed | Panicked

  /** A verdict and the state it left, against the outcome they should be. After a failure
      the state is half-written; the enclosing transaction drops it. */
  ghost predicate Agrees<S>(v: Verdict, after: S, o: Outcome<S>) {
    match o
    case Ok(st) => v == Done && after == st
    case Error => v == Failed
    case Panic => v == Panicked
  }
}
