/** The value-or-absence type used where Python would use None. */
module Optional {

  datatype Option<+T> = None | Some(value: T)
}
