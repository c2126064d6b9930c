/** An optional value: a setting that the host either returns or leaves unset (null). */
module Options {

  datatype Option<T> = None | Some(value: T)

}
