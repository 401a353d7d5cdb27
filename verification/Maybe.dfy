/** A value that may be missing: null, undefined, or a lookup without a result. */
module Maybe {

  datatype Option<+T> = None | Some(value: T)
}
