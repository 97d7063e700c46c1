/** Optional values and results with an error message, standing in for
    JavaScript's `undefined` and for a thrown `TypeError`. */
module Wrappers {

  datatype Option<T> = None | Some(value: T)

  datatype Result<T> = Ok(value: T) | Err(error: string)
}
