/** Ruby values as the strategy sees them: JSON-parsed provider payloads,
    request parameters and the authorization parameter map. Hash keys are
    strings throughout (the parameter map does not distinguish a symbol key
    from the string of the same name). */
module RubyValues {

  datatype Value =
    | Nil
    | Bool(b: bool)
    | Int(i: int)
    | Str(s: string)
    | Arr(elems: seq<Value>)
    | Hash(entries: map<string, Value>)

  datatype Option<+T> = None | Some(value: T)

  datatype Result<+T, +E> = Success(value: T) | Failure(error: E)

  /** Ruby truthiness: every value except nil and false. */
  predicate Truthy(v: Value)
  {
    !(v.Nil? || v == Bool(false))
  }

  /** Hash#[]: a missing key reads as nil. */
  function Get(m: map<string, Value>, k: string): Value
  {
    if k in m then m[k] else Nil
  }

  /** Key k is present in both maps with equal values, or absent from both. */
  predicate Agree(a: map<string, Value>, b: map<string, Value>, k: string)
  {
    (k in a <==> k in b) && (k in a ==> a[k] == b[k])
  }
}
