/** Optional values and results with an error, used where the modelled code
    either has no value yet or rejects its input. */
module Wrappers {

  datatype Option<+T> = None | Some(value: T)

  datatype Result<+R, +E> = Success(value: R) | Failure(error: E)
}
