/** Optional values, used wherever the source returns `null` or starts from an
    "unset" sentinel such as -Infinity. */
module Wrappers {

  datatype Option<+T> = None | Some(value: T)
}
