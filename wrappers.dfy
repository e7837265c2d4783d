/** A value that may be absent: stands for JavaScript's null/undefined (and other falsy values) wherever
    the managers test an argument or a list entry for truthiness. */
module Wrappers {

  datatype Option<+T> = None | Some(value: T)
}
