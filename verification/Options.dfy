/** The two wrapper types the model uses, for absent values and for thrown errors. */
module Options {
  datatype Option<+T> = None | Some(value: T)

  datatype LoadError = MissingKey | WrongType

  datatype Result<+T> = Ok(value: T) | Err(error: LoadError) {
    predicate IsFailure() { Err? }

    function PropagateFailure<U>(): Result<U>
      requires Err?
    {
      Err(error)
    }

    function Extract(): T
      requires Ok?
    {
      value
    }
  }
}
