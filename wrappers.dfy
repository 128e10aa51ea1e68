/** Optional values: an unset calendar field, a character that is not found. */
module Wrappers {

  datatype Option<+T> = None | Some(value: T)

}
