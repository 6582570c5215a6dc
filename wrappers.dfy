// Option and Result, the two Rust standard types the modelled code returns.
module Wrappers {

  /** Option, usable with `:-` for the `?` of a decoder that gives up. */
  datatype Option<T> = None | Some(value: T) {
    predicate IsFailure() {
      None?
    }

    function PropagateFailure<U>(): Option<U>
      requires None?
    {
      None
    }

    function Extract(): T
      requires Some?
    {
      value
    }
  }

  datatype Result<T, E> = Ok(value: T) | Err(error: E)
}
