/** What every module speaks of. */
module Common {
  /** Identifiers are opaque; only their equality and their collation order matter. */
  type Id = int

  type Instant = int

  datatype Option<+T> = None | Some(value: T)
}
