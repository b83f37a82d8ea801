/** Result types shared by the modules of the model. */
module Basics {

  datatype Option<+T> = None | Some(value: T)

  /** How one call into the outside world goes wrong, if it does.
      A call that dies takes the whole process with it: nothing after it happens.
      `Late` faults strike after the effect of the call, `Torn` ones in the middle of it, a write
      after its first `kept` bytes. */
  datatype Fault =
    | Quiet | Raise | RaiseLate | RaiseTorn(kept: nat) | Die | DieLate | DieTorn(kept: nat)
  {
    /** The effect of the call took place in full. */
    predicate Effective() { Quiet? || RaiseLate? || DieLate? }

    /** The effect of the call was cut off half way. */
    predicate Partial() { RaiseTorn? || DieTorn? }

    predicate Deadly() { Die? || DieLate? || DieTorn? }

    /** What the caller sees when the call would have returned `value`. */
    function Report<T>(value: T): (o: Outcome<T>)
      ensures o.Done? <==> Quiet?
      ensures o.Dead? <==> Deadly()
    {
      if Quiet? then Done(value) else if Deadly() then Dead else Error
    }
  }

  /** None of the calls at ticks `from` to `to` fails. */
  ghost predicate Smooth(faults: nat -> Fault, from: nat, to: nat) { forall t :: from <= t < to ==> faults(t).Quiet? }

  /** One of them kills the process. */
  ghost predicate Killed(faults: nat -> Fault, from: nat, to: nat) { exists t :: from <= t < to && faults(t).Deadly() }

  /** An operation made these calls. If it returned none of them failed, and it died exactly if one killed the
      process. */
  ghost predicate Went<T>(faults: nat -> Fault, from: nat, to: nat, o: Outcome<T>) {
    from <= to && (o.Done? ==> Smooth(faults, from, to)) && (o.Dead? <==> Killed(faults, from, to))
  }

  /** What a caller sees: a value, an exception, or nothing because the process is gone. */
  datatype Outcome<+T> = Done(value: T) | Error | Dead
  {
    predicate IsFailure() { !Done? }

    function PropagateFailure<U>(): Outcome<U>
      requires IsFailure()
    {
      if Dead? then Dead else Error
    }

    function Extract(): T
      requires Done?
    {
      value
    }
  }
}
