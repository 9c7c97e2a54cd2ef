/** The `None`-or-value type used wherever the source stores a JSON null. */
module Optional {

  datatype Option<T> = None | Some(value: T)
}
