/** The optional value Swift writes as `T?`: absent (`nil`) or present. */
module Optional {
  datatype Option<T> = None | Some(value: T)
}
