/** The option type shared by the modules below. */
module Common {
  datatype Option<+T> = None | Some(value: T)

  /** A row identifier (a database primary key). */
  type Id = nat
}
