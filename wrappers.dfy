/** Optional values, and opaque handles for the Python objects the model
    passes around without looking inside them (callables, widgets, data). */
module Wrappers {

  datatype Option<+T> = None | Some(value: T)

  /** Python truthiness of an optional string: present and non-empty. */
  predicate Truthy(s: Option<string>) {
    s.Some? && s.value != ""
  }

  /** An opaque reference to a Python object: two handles are the same object
      exactly when they are equal. */
  type Handle = nat
}
