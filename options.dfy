/** An optional value, used where the source has `undefined`, `null` or a
    lookup that may find nothing. */
module Options {

  datatype Option<+T> = None | Some(value: T)
}
