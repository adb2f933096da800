/** The small option type used for parsing and for the timer handle. */
module Options {
  datatype Option<T> = None | Some(value: T)
}
