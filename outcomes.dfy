/** Success/failure values that stand for the source's callback pairs
    (`onSuccess`, `onError`) and for its storage result types. */
module Outcomes {

  /** A `java.lang.Exception`, carried as data. */
  datatype Exception = Exception(message: string)

  datatype Option<+T> = None | Some(value: T)

  /** Exactly one of the two callbacks of an operation is invoked:
      `Success` stands for `onSuccess(value)`, `Failure` for `onError(error)`. */
  datatype Result<+T> = Success(value: T) | Failure(error: Exception)
}
