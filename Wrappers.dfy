/** Small failure-carrying datatypes shared by the PIREP model. */
module Wrappers {

  /** A value that may be absent; Python's `None` where the source stores an optional field. */
  datatype Option<+T> = None | Some(value: T) {
    predicate IsFailure() { None? }

    function PropagateFailure<U>(): (r: Option<U>)
      requires None?
    {
      None
    }

    function Extract(): (r: T)
      requires Some?
    {
      value
    }
  }

  /** The outcome of an operation that returns nothing on success and an error otherwise. */
  datatype Outcome<+E> = Pass | Fail(error: E)
}
