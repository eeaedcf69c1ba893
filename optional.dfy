/** The absent-or-present value that stands for JavaScript's `undefined`/`null`
    alongside a real value (an optional JSON field, a store miss, a failed match). */
module Optional {

  datatype Option<+T> = None | Some(value: T)

  /** JavaScript truthiness of a `string | null | undefined`: present and not empty. */
  predicate Truthy(o: Option<string>) {
    o.Some? && o.value != ""
  }
}
