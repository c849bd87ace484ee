/**
  Go `error` values as they flow through the vehicle service: the sentinel
  errors of the repository and service packages, errors wrapped around another
  one with `%w`, and any other error. `Is` is `errors.Is`: it compares the error
  and then everything it wraps with the target.
 */
module Errors {

  datatype Error =
    // repository sentinels
    | RepositoryVehicleInternal
    | RepositoryVehicleNotFound
    | RepositoryIdInUse
    // service sentinels
    | ServiceVehicleInternal
    | ServiceVehicleNotFound
    | ServiceVIdInUse
    // an error that wraps another one (fmt.Errorf with %w)
    | Wrapped(context: string, inner: Error)
    // any error that is neither a sentinel nor a wrapper
    | Other(message: string)

  /** A sentinel is an error created once with errors.New and compared by identity. */
  predicate IsSentinel(e: Error) {
    !e.Wrapped? && !e.Other?
  }

  predicate IsRepositoryError(e: Error) {
    e == RepositoryVehicleInternal || e == RepositoryVehicleNotFound || e == RepositoryIdInUse
  }

  predicate IsServiceError(e: Error) {
    e == ServiceVehicleInternal || e == ServiceVehicleNotFound || e == ServiceVIdInUse
  }

  /** errors.Is: the error itself or any error on its unwrap chain equals the target. */
  predicate Is(err: Error, target: Error) {
    err == target || (err.Wrapped? && Is(err.inner, target))
  }

  /** The innermost error of the unwrap chain. */
  function Root(err: Error): Error {
    if err.Wrapped? then Root(err.inner) else err
  }

  /** `n` layers of wrapping around `err`. */
  function WrapN(err: Error, n: nat): (w: Error)
    ensures n > 0 ==> w.Wrapped?
  {
    if n == 0 then err else Wrapped("", WrapN(err, n - 1))
  }

  /** For a sentinel target, errors.Is looks only at the root of the chain. */
  lemma {:induction false} IsMeansRoot(err: Error, target: Error)
    requires IsSentinel(target)
    ensures Is(err, target) <==> Root(err) == target
  {
    if err.Wrapped? {
      IsMeansRoot(err.inner, target);
    }
  }

  /** Wrapping never hides an error from errors.Is, however deep it is. */
  lemma {:induction false} WrapKeepsRoot(err: Error, n: nat)
    ensures Root(WrapN(err, n)) == Root(err)
    ensures Is(WrapN(err, n), err)
  {
    if n > 0 {
      WrapKeepsRoot(err, n - 1);
    }
  }

  /** The result of an operation returning (value, error). */
  datatype Result<T> = Ok(value: T) | Err(error: Error)

  /** The result of an operation returning only an error: nil or a failure. */
  datatype Outcome = Pass | Fail(error: Error)
}
