/** The optional value used for lookups, decoders and reads that can fail. */
module Wrappers {
  datatype Option<+T> = None | Some(value: T)
}
