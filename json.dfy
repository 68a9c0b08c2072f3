/** What the services make of a JSON document once Go's `encoding/json` has decoded it
    into a `map[string]interface{}`. The decoder itself is not modelled: callers receive
    its answer as `Option<Object>`, `None` standing for a decode error. */
module Json {
  import opened Wrappers

  /** A member value, as far as a `.(string)` type assertion can tell them apart. */
  datatype Value = String(s: string) | Null | Other

  type Object = map<string, Value>

  /** The string held by member `key` of a decoded object: the Go idiom
      `if v, ok := m[key].(string); ok { ... }`. Missing members, `null` members,
      non-string members and undecodable documents all give `None`. */
  function StringMember(decoded: Option<Object>, key: string): (r: Option<string>)
    ensures r.Some? <==> decoded.Some? && key in decoded.value && decoded.value[key].String?
    ensures r.Some? ==> r.value == decoded.value[key].s
  {
    if decoded.Some? && key in decoded.value && decoded.value[key].String?
    then Some(decoded.value[key].s)
    else None
  }
}
