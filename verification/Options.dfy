/** A value that may be missing: a null pointer, an error return, or a search that found nothing. */
module Options {
  datatype Option<+T> = None | Some(value: T)
}
