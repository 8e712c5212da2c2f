/** Option and Result, the two failure-carrying shapes the model uses. */
module Wrappers {

  datatype Option<+T> = None | Some(value: T)

  /**
   * The JavaScript exceptions the modelled code can raise: a bad typed-array
   * view or code point, and a property read on `undefined`.
   */
  datatype JsError = RangeError | TypeError

  /** Either a value or the exception JavaScript would throw instead. */
  datatype Result<+T> = Success(value: T) | Failure(error: JsError)
}
