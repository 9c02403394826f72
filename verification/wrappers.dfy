/** Optional values: the model's stand-in for the nullable fields and
    arguments of the client (`null` becomes `None`). */
module Wrappers {

  datatype Option<+T> = None | Some(value: T)
}
