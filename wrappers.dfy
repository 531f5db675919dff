/** Optional values and the JavaScript truthiness of an optional string field. */
module Wrappers {

  /** A field that may be missing (`undefined` or `null` in the dashboards). */
  datatype Option<+T> = None | Some(value: T)

  /** JavaScript truthiness of a string field: a missing field and the empty
      string are both falsy, every other string is truthy. */
  predicate Truthy(v: Option<string>) {
    v.Some? && v.value != ""
  }

  /** The expression `v || dflt` on a possibly missing string field. */
  function OrDefault(v: Option<string>, dflt: string): (s: string)
    ensures Truthy(v) ==> s == v.value
    ensures !Truthy(v) ==> s == dflt
    ensures dflt != "" ==> s != ""
  {
    if Truthy(v) then v.value else dflt
  }
}
