/** JSON values as the issue records carry them, shared by the client and the server. */
module Json {

  datatype Option<T> = None | Some(value: T)

  /** The scalar JSON values an issue record holds: null, integers (the id) and strings. */
  datatype Value = VNull | VInt(n: int) | VStr(s: string)

  /** An issue record as it is stored and sent: a JSON object, so a key may be absent. */
  type Object = map<string, Value>

  /**
   * Truthiness of a value, which Python (`if x`, `x or ""`) and JavaScript
   * (`filter(Boolean)`, `x || undefined`) agree on for these values:
   * null, 0 and the empty string are false, everything else is true.
   */
  predicate Truthy(v: Value) {
    match v
    case VNull => false
    case VInt(n) => n != 0
    case VStr(s) => s != ""
  }

  /** `o.get(k)` in Python, `o[k]` in JavaScript: None / undefined when the key is absent. */
  function Get(o: Object, k: string): Option<Value> {
    if k in o then Some(o[k]) else None
  }

  /** Truthiness of a lookup result: an absent key is falsy. */
  predicate TruthyGet(r: Option<Value>) {
    r.Some? && Truthy(r.value)
  }
}
