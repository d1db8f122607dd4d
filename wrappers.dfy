/** Optional values: the model's stand-in for C#'s nullable values and for Unity's
    "null or destroyed" object references. */
module Wrappers {

  datatype Option<+T> = None | Some(value: T)
}
