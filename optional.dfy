/** Python's `None`-or-value, used for every nullable column and every optional signal. */
module Optional {

  datatype Option<+T> = None | Some(value: T)

}
