// Values that may be absent: null, undefined and -Infinity in the source.
module Options {

  datatype Option<T> = None | Some(value: T)
}
