/** Optional values, used for the table's slots (a NULL pointer or a record)
    and for the outcome of a scan. */
module Wrappers {
  datatype Option<+T> = None | Some(value: T)
}
