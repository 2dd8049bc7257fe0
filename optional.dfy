/** A value that may be absent: JavaScript's nil results and indexOf's -1. */
module Optional {

  datatype Option<+T> = None | Some(value: T)
}
