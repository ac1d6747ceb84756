/** A value or the error that replaced it: how the model renders an operation
    that throws in the Java program. */
module Results {

  datatype Result<+T, +E> = Success(value: T) | Failure(error: E)
}
