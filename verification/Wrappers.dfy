/** The failure-carrying results shared by every module of the project. */
module Wrappers {

  datatype Option<+T> = None | Some(value: T)

  /** A Python call that either returns or raises. */
  datatype Result<+T> = Ok(value: T) | Err {
    predicate IsFailure() {
      Err?
    }

    function PropagateFailure<U>(): Result<U>
      requires Err?
    {
      Err
    }

    function Extract(): T
      requires Ok?
    {
      value
    }
  }

  lemma AnyOf<T>(xs: set<T>) returns (x: T)
    requires xs != {}
    ensures x in xs
  {
    x :| x in xs;
  }
}
