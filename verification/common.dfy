/** Optional values and results with an error, used wherever the connector
    either has no value (Java's null) or raises an exception. */
module Common {

  datatype Option<+T> = None | Some(value: T)

  datatype Result<+T, +E> = Success(value: T) | Failure(error: E)
}
