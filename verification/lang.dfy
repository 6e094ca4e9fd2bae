/**
 * The pieces of the Java runtime that the two value types lean on: a nullable
 * reference, the exceptions their operations throw, and a result type that
 * carries either a value or the exception that would have been thrown.
 */
module Lang {

  /** A nullable reference: `None` stands for Java's `null`. */
  datatype Option<+T> = None | Some(value: T)

  /** The exceptions thrown by the modelled operations. The detail string is
      Java's message where the model states one (`Vectors.NullAxis`,
      `BannerPatterns.UnknownPatternType`); elsewhere it only names the
      offending key or value. */
  datatype Exception =
    | IllegalArgument(detail: string)
    | NoSuchElement(detail: string)
    | ClassCast(detail: string)
    | NullPointer(detail: string)

  /** Either the value a call returns or the exception it throws. */
  datatype Result<+T> = Ok(value: T) | Err(error: Exception) {

    predicate IsFailure() {
      Err?
    }

    function PropagateFailure<U>(): Result<U>
      requires Err?
    {
      Err(error)
    }

    function Extract(): T
      requires Ok?
    {
      value
    }
  }

  /** The argument of an `equals(Object)` call, as far as equality can see it:
      `null`, an instance of the receiver's type (or a subclass of it) with its
      runtime class name, or an object of an unrelated type. */
  datatype Ref<+T> = Null | Instance(runtimeClass: string, value: T) | Unrelated
}
