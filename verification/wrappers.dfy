/** Failure-carrying result types shared by the loan model. */
module Wrappers {

  /** A value that may be absent (Python's `Optional`). */
  datatype Option<+T> = None | Some(value: T)

  /** Either a computed value or the error the source raises instead. */
  datatype Result<+T, +E> = Ok(value: T) | Err(error: E)

  /** The outcome of a check that either passes or raises an error. */
  datatype Outcome<+E> = Pass | Fail(error: E)

  /** Runs two checks in order: the first failure is reported, and `b` only counts when `a` passes. */
  function AndThen<E>(a: Outcome<E>, b: Outcome<E>): (r: Outcome<E>)
    ensures r.Pass? <==> a.Pass? && b.Pass?
    ensures a.Fail? ==> r == a
    ensures a.Pass? ==> r == b
  {
    if a.Fail? then a else b
  }
}
