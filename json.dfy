/** The JSON request bodies the handlers read their fields from. */
module Json {
  import opened Wrappers

  /** The JSON values a body field can carry in this model. */
  datatype Value = Null | Str(s: string) | Num(n: int)

  /** A parsed JSON object; a key that is absent reads as `undefined`. */
  type Body = map<string, Value>

  function Lookup(body: Body, key: string): (r: Option<Value>)
    ensures r.Some? <==> key in body
  {
    if key in body then Some(body[key]) else None
  }
}
