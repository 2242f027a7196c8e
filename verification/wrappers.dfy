/** Failure-carrying results shared by the model.
    - Option<T> stands for `boost::optional<T>` and for lookups that may miss.
    - Result<T> stands for an operation that either yields a value or throws
      (`std::out_of_range` from `at`, `daw_throw_on_false`, a domain exception);
      the message names the failure.
 */
module Wrappers {

  datatype Option<+T> = None | Some(value: T) {

    /** The value, or `default` when absent. */
    function GetOr(default: T): T {
      match this
      case Some(v) => v
      case None => default
    }
  }

  datatype Result<+T> = Ok(value: T) | Err(msg: string) {

    predicate IsFailure() {
      Err?
    }

    function PropagateFailure<U>(): Result<U>
      requires Err?
    {
      Err(msg)
    }

    function Extract(): T
      requires Ok?
    {
      value
    }
  }
}
