/** Optional values, used for Swift optionals (`Date?`, `String?`) and for
    lookups that may find nothing. */
module Wrappers {

  datatype Option<+T> = None | Some(value: T)
}
