/** Option, Result and Outcome: the error returns that stand for the
    exceptions the Python code raises, and for missing dictionary keys. */
module Wrappers {

  /** A value that may be absent: a missing dictionary key, or Python's None. */
  datatype Option<+T> = None | Some(value: T)

  /** Python's `d.get(key, default)`. */
  function GetOr<T>(o: Option<T>, default: T): (r: T)
    ensures o.Some? ==> r == o.value
    ensures o.None? ==> r == default
  {
    match o
    case Some(v) => v
    case None => default
  }

  /** A computation that returns a value or raises an error. */
  datatype Result<+T, +E> = Ok(value: T) | Err(error: E)

  /** A check that passes or raises an error (a Python function returning None or raising). */
  datatype Outcome<+E> = Pass | Fail(error: E)
}
