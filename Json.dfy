/** The JSON-like values that requests, dialog states and replies are made of. */
module Json {

  /** Ruby `nil` is `Null`; hashes are `Obj` (key order is not modelled). */
  datatype Value =
    | Null
    | Bool(b: bool)
    | Num(n: int)
    | Str(s: string)
    | Arr(items: seq<Value>)
    | Obj(fields: map<string, Value>)

  /** Ruby truthiness: everything except `nil` and `false` counts as true. */
  predicate Truthy(v: Value) {
    !v.Null? && v != Bool(false)
  }
}
