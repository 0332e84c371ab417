/** Success-or-failure results, standing in for the exceptions the source throws. */
module Wrappers {

  datatype Result<+T, +E> = Success(value: T) | Failure(error: E)
}
