/** Decoded JSON values as PHP's `json_decode($text, true)` hands them to the
    plugin, and the few pieces of PHP truthiness the request handler relies on. */
module Json {

  /** `Some(v)` is a decoded value; `None` is the `null` that `json_decode`
      returns for text that does not parse (or for the literal `null`). */
  datatype Option<+T> = None | Some(value: T)

  /** A JSON value. Numbers are integers; objects are string-keyed maps. */
  datatype Value =
    | Null
    | Bool(b: bool)
    | Num(n: int)
    | Str(s: string)
    | List(items: seq<Value>)
    | Object(fields: map<string, Value>)

  /** A node record of the chart: one JSON object decoded into an
      associative array (`id`, `pid`, `EmployeeName`, `Title`, ...). */
  type Node = map<string, Value>

  /** PHP truthiness of a decoded object payload: `null` is falsy and an
      array is falsy exactly when it is empty. */
  predicate PayloadTruthy(p: Option<Node>)
  {
    p.Some? && |p.value| > 0
  }

  /** `isset($m[k])`: the key is present and its value is not `null`. */
  predicate IsSet(m: Node, k: string)
  {
    k in m && m[k] != Null
  }

  /** PHP truthiness of a string: only "" and "0" are falsy. */
  predicate StringTruthy(s: string)
  {
    s != "" && s != "0"
  }
}
