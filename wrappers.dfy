/** Optional values: a JSON field that may be missing, an element that may be absent. */
module Wrappers {

  datatype Option<+T> = None | Some(value: T)

  /** JavaScript truthiness of an optional string field: missing and "" are both falsy. */
  predicate Truthy(o: Option<string>) {
    o.Some? && o.value != ""
  }
}
