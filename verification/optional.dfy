/** The optional value shared by every module: a result that may be absent. */
module Optional {

  datatype Option<T> = None | Some(value: T)
}
