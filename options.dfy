/** The optional value a regular-expression search or a single pattern step
    produces. It is failure-compatible, so a matcher reads as a chain of
    `:-` steps that stops at the first step that does not match. */
module Options {

  datatype Option<+T> = None | Some(value: T) {

    predicate IsFailure() {
      None?
    }

    function PropagateFailure<U>(): Option<U>
      requires None?
    {
      None
    }

    function Extract(): T
      requires Some?
    {
      value
    }
  }
}
