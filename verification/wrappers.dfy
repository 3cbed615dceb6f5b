/** Python's `None`-or-value, used for optional device metadata and SNR values. */
module Wrappers {

  datatype Option<+T> = None | Some(value: T)
}
