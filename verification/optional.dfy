/** Swift's optionals (`T?`), with the `:-` protocol so that an `if let`
    chain of optional bindings reads as a chain of `:-` bindings. */
module Optional {

  datatype Option<+T> = None | Some(value: T) {

    predicate IsFailure() {
      None?
    }

    function PropagateFailure<U>(): Option<U>
      requires None?
    {
      None
    }

    function Extract(): T
      requires Some?
    {
      value
    }
  }
}
