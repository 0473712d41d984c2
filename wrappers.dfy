/** Optional values, used by the name parsers and by the fleet's summary. */
module Wrappers {

  datatype Option<+T> = None | Some(value: T)
}
