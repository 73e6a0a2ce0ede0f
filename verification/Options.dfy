module Options {

  datatype Option<+A> = None | Some(value: A)
}
