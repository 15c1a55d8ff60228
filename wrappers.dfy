/** Absence markers used by the TypeScript shapes of the reminder API.
    Option<T> models a `T | null` field; Optional<T> models an optional
    property `name?: T`, which may be missing from the object altogether. */
module Wrappers {

  /** A value that may be `null`. */
  datatype Option<+T> = None | Some(value: T)

  /** A property that may be absent from a record (`undefined` when read). */
  datatype Optional<+T> = Absent | Present(value: T)
}
