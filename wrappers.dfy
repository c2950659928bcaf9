/** Optional values: JSON `null` (or an absent key) on one side, a value on the other. */
module Wrappers {

  datatype Option<+T> = None | Some(value: T)
}
