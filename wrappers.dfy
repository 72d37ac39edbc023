/** Optional values. In this model `None` also stands for JavaScript's NaN where a
    number may fail to parse, and for a stored value that is not an array. */
module Wrappers {

  datatype Option<+T> = None | Some(value: T)
}
