/** Failure-compatible result types shared by the model.

    The pool's operations in the source return `Result<_, ()>`: an error
    carries no information, so `Err` here has no payload either. */
module Results {

  datatype Option<+T> = None | Some(value: T)

  datatype Result<+T> = Ok(value: T) | Err {

    predicate IsFailure() {
      Err?
    }

    function PropagateFailure<U>(): Result<U>
      requires Err?
    {
      Err
    }

    function Extract(): T
      requires Ok?
    {
      value
    }
  }
}
