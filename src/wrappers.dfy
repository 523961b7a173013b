/** Option and Result, the two failure-carrying wrappers the model uses
    for Rust's `Option` and for operations whose source panics. */
module Wrappers {

  datatype Option<+T> = None | Some(value: T) {
    function GetOr(default: T): T {
      match this
      case Some(v) => v
      case None => default
    }
  }

  /** `Panic` stands for a `panic!`, `unwrap` on `None`, `todo!` or an
      out-of-range index in the source: the whole unit aborts. */
  datatype Result<+T> = Ok(value: T) | Panic(reason: string) {
    predicate IsFailure() { Panic? }
    function PropagateFailure<U>(): Result<U>
      requires Panic?
    {
      Panic(reason)
    }
    function Extract(): T
      requires Ok?
    {
      value
    }
  }
}
