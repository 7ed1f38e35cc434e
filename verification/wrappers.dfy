/**
  Java's null and its one runtime fault, as values: `None` is a null reference, and an
  operation that would throw returns `Failure` with the fault it raises.
 */
module Wrappers {

  /** An optional value. In this model `None` stands for Java's `null`. */
  datatype Option<+T> = None | Some(value: T)

  /** Either a successful value or the fault an operation raised. */
  datatype Result<+T, +E> = Success(value: T) | Failure(error: E)

  /** The one runtime fault the store layer can raise: dereferencing a null reference. */
  datatype Fault = NullPointerException
}
