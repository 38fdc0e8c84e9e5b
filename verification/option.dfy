/** An optional value: a JavaScript `undefined`/`null` or a Python `None` is `None`. */
module Options {
  datatype Option<T> = None | Some(value: T)
}
