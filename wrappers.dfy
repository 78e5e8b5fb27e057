/** The optional values of the TypeScript sources (`T | undefined`, `T | null`). */
module Wrappers {

  datatype Option<+T> = None | Some(value: T)

  /** JavaScript truthiness of an optional string: present and not empty. */
  predicate Present(o: Option<string>) {
    o.Some? && o.value != ""
  }
}
