/** Optional values, standing in for PHP's `false`/`null` "no result" returns. */
module Wrappers {

  datatype Option<+T> = None | Some(value: T)
}
