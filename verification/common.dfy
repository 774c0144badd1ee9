/** Shared result types. */
module Common {

  datatype Option<+T> = None | Some(value: T)
}
