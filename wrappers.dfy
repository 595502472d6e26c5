/** The optional value used for null pointers, failed lookups and
    uninitialised results of the loader. */
module Wrappers {

  datatype Option<+T> = None | Some(value: T)
}
