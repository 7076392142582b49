/** The absent value that the adapter returns instead of raising. */
module Wrappers {

  /** PHP's `null` result of a lookup that found nothing. */
  datatype Option<+T> = None | Some(value: T)
}
