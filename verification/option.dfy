/** A value that may be absent; a cycle counter that the simulator sets to its maximum is `None`. */
module Options {
  datatype Option<+T> = None | Some(value: T)
}
