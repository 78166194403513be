/** A value that may be missing: the result of a GL call sequence, or of a
    matrix-stack sequence, that can fail. */
module Optional {
  datatype Option<T> = None | Some(value: T)
}
