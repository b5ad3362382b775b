/** An optional value: SQL's NULL, JavaScript's `undefined`, a lookup that found nothing. */
module Optional {
  datatype Option<+T> = None | Some(value: T)
}
