/** Optional values and results with an error, used for absent cells, failed
    parses and error returns throughout the model. */
module Wrappers {

  datatype Option<+T> = None | Some(value: T)

  datatype Result<+R, +E> = Success(value: R) | Failure(error: E)
}
