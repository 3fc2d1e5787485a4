/** Small shared datatypes. */
module Common {

  /** A value that may be absent (TypeScript's `T | null` / optional property). */
  datatype Option<+T> = None | Some(value: T)

  /** JavaScript truthiness of an optional string: present and non-empty. */
  predicate Truthy(o: Option<string>) {
    o.Some? && o.value != ""
  }
}
