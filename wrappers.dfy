/** Failure-carrying results shared by the record store. */
module Wrappers {

  /** A value that may be missing: the outcome of parsing one mark field. */
  datatype Option<+T> = None | Some(value: T)

  /** An operation that either succeeds or reports why it did nothing. */
  datatype Outcome<+E> = Pass | Fail(error: E)
}
