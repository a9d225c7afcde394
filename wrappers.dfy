/** The outcome of an operation that the source can abort with an
    exception: a value, or the reason it failed. */
module Wrappers {

  datatype Result<T> = Success(value: T) | Failure(error: string)
}
