/** A value that may be missing: a lookup that found nothing, a number that did not parse. */
module Options {
  datatype Option<+T> = None | Some(value: T)
}
