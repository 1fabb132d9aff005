/**
 * Option and Result, the nullable values and the thrown errors of the loan simulator, and the string
 * prefix test that both the cookie reader and the sidebar's URL rewrite use.
 */
module Wrappers {

  /** A value that may be missing: `number | null` in the source. */
  datatype Option<+T> = None | Some(value: T)

  /** The outcome of an operation that may throw. */
  datatype Result<+T, +E> = Success(value: T) | Failure(error: E) {

    predicate IsFailure() {
      Failure?
    }

    function PropagateFailure<U>(): Result<U, E>
      requires Failure?
    {
      Failure(error)
    }

    function Extract(): T
      requires Success?
    {
      value
    }
  }

  /** Whether `s` begins with `prefix`: `s.indexOf(prefix) === 0`, or a regex anchored with `^`. */
  predicate StartsWith(s: string, prefix: string) {
    |prefix| <= |s| && s[..|prefix|] == prefix
  }
}
