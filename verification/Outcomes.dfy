/** Optional values, fallible results and the exception codes of the virtual machine. */
module Outcomes {

  datatype Option<+T> = None | Some(value: T)

  datatype ExceptionCode =
    | StackUnderflow
    | StackOverflow
    | IntegerOverflow
    | RangeCheckError
    | InvalidOpcode
    | TypeCheckError
    | CellOverflow
    | CellUnderflow
    | DictionaryError
    | UnknownError
    | FatalError
    | OutOfGas
    | Panic  // an `unwrap`, `panic!`, index or division fault of the host language

  datatype Result<+T> = Ok(value: T) | Err(code: ExceptionCode) {
    predicate IsFailure() {
      Err?
    }

    function PropagateFailure<U>(): Result<U>
      requires Err?
    {
      Err(code)
    }

    function Extract(): T
      requires Ok?
    {
      value
    }
  }
}
