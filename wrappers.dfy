/** The optional value used for a lookup that may miss and for a
    geolocation answer that may be absent. */
module Wrappers {

  datatype Option<+T> = None | Some(value: T)
}
