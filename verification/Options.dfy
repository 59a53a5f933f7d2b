// The one result shape every component shares.
module Options {
  datatype Option<+T> = None | Some(value: T)
}
