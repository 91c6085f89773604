/** Option and Result values for the model: C# null references and thrown exceptions
    become explicit values here. */
module Wrappers {

  datatype Option<T> = None | Some(value: T)

  /** The exceptions the modelled C# code can raise on its error paths. */
  datatype Error =
    | KeyNotFound       // Dictionary indexer with a missing key
    | IndexOutOfRange   // array indexer outside the array
    | NullReference     // member access on a null reference

  datatype Result<T> = Success(value: T) | Failure(error: Error)
}
