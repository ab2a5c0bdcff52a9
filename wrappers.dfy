/** The optional value used for lookups and for file reads that may fail. */
module Wrappers {

  datatype Option<+T> = None | Some(value: T)

}
