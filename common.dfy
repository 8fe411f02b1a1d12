/** Option and Result wrappers shared by every module of the model. */
module Common {

  /** A value that may be absent (Python `None`, JavaScript `null`). */
  datatype Option<T> = None | Some(value: T)

  /** The outcome of an operation that can raise: a value, or the exception it raises. */
  datatype Result<T, E> = Success(value: T) | Failure(error: E)

  /** The Python exceptions the backend code can raise and does not catch. */
  datatype PyError =
    | ValueError         // int() of a malformed string, or a split that unpacks the wrong count
    | ZeroDivisionError  // a division by a zero duration or a zero float
    | OverflowError      // a timedelta outside +-999999999 days
    | KeyError           // a dictionary read of a missing key
    | DoesNotExist       // a Django `objects.get` that matches no row
    | ValidationError    // a Django field that refuses a lookup value, such as a UUID field given a non-UUID text
}
