/** The one stock datatype the other modules share. */
module Options {

  datatype Option<+T> = None | Some(value: T)
}
