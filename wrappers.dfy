/** The optional-value datatype used for every decoder result and every optional field. */
module Wrappers {

  datatype Option<+T> = None | Some(value: T) {

    /** None is the failure case, so `:-` propagates it. */
    predicate IsFailure() {
      None?
    }

    function PropagateFailure<U>(): Option<U>
      requires None?
    {
      None
    }

    function Extract(): T
      requires Some?
    {
      value
    }
  }
}
