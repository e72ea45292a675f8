/** Failure-carrying values shared by every module of the model.

    The source distinguishes two kinds of failure:
    - a routine rejection, returned as `(None, err)` and counted by the caller;
    - an uncaught exception or a failed `assert`, which stops the whole run.
    `Result` keeps the two apart: `Err` is the first kind, `Fatal` the second.
 */
module Wrappers {

  datatype Option<+T> = None | Some(value: T)

  datatype Result<+T> = Ok(value: T) | Err(error: string) | Fatal(assertion: string) {

    /** True for both kinds of failure, so that `:-` stops at either. */
    predicate IsFailure() {
      !Ok?
    }

    function PropagateFailure<U>(): (r: Result<U>)
      requires !Ok?
      ensures r.Err? == Err? && r.Fatal? == Fatal?
    {
      match this
      case Err(e) => Err(e)
      case Fatal(a) => Fatal(a)
    }

    function Extract(): T
      requires Ok?
    {
      value
    }
  }
}
