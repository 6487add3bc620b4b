/**
 * The few Java runtime notions the model needs: an optional value standing for a
 * reference that may be null, a result that is either a value or a thrown exception,
 * the exceptions the modelled code throws or lets escape, and the completion of a
 * `void` method.
 */
module Java {

  /** A reference that may be null: `None` is Java's `null`. */
  datatype Option<+T> = None | Some(value: T)

  /** Either the value a Java call returns or the exception it throws. */
  datatype Result<+T, +E> = Success(value: T) | Failure(error: E)

  /** The exceptions that escape from the modelled operations. */
  datatype Exception =
    | IllegalArgumentException(message: string)
    | NullPointerException
    | ClassCastException
    | ArrayIndexOutOfBoundsException
    | RuntimeCamelException(message: string)
    | QueryParseException

  /** How a `void` method ends: it returns, or it throws. */
  datatype Completion = Normal | Thrown(exception: Exception)
}
