/** The parsed request body: the JSON values `json.loads` produces, with
    Python's truthiness, `in` and subscription on them. */
module Json {
  import opened Errors
  import Text

  /** A parsed JSON value. Objects map each key to the value it was last given. */
  datatype Json =
    | JNull
    | JBool(b: bool)
    | JNumber(n: real)
    | JString(s: string)
    | JArray(items: seq<Json>)
    | JObject(fields: map<string, Json>)

  /** Python's `bool(v)`: `None`, `False`, zero and empty containers are false. */
  predicate Truthy(v: Json) {
    match v
    case JNull => false
    case JBool(b) => b
    case JNumber(n) => n != 0.0
    case JString(s) => |s| > 0
    case JArray(items) => |items| > 0
    case JObject(fields) => |fields| > 0
  }

  /** Python's `key in v` for a string `key`: a key test on a dict, an element
      test on a list, a substring test on a string, and a `TypeError` on
      anything else. */
  function HasKey(v: Json, key: string): (r: Result<bool>)
    ensures r.Raised? <==> v.JNull? || v.JBool? || v.JNumber?
    ensures r.Raised? ==> r.error == TypeError
    ensures v.JObject? ==> r == Ok(key in v.fields)
    ensures v.JString? ==> r == Ok(Text.IsSubstring(key, v.s))
    ensures v.JArray? ==> r == Ok(JString(key) in v.items)
  {
    match v
    case JObject(fields) => Ok(key in fields)
    case JArray(items) => Ok(JString(key) in items)
    case JString(s) => Ok(Text.Contains(s, key))
    case _ => Raised(TypeError)
  }

  /** Python's `v[key]` for a string `key`: only a dict holding `key` yields a
      value; a dict without it raises `KeyError`, any other value `TypeError`. */
  function GetItem(v: Json, key: string): Result<Json> {
    match v
    case JObject(fields) => if key in fields then Ok(fields[key]) else Raised(KeyError(key))
    case _ => Raised(TypeError)
  }

  /** Once `key in v` holds, `v[key]` succeeds exactly for a dict: a string
      holding `key` as a substring, or a list holding it as an element, passes
      the membership test and then raises `TypeError` on subscription. */
  lemma SubscriptAfterIn(v: Json, key: string)
    requires HasKey(v, key) == Ok(true)
    ensures GetItem(v, key).Ok? <==> v.JObject?
    ensures !v.JObject? ==> GetItem(v, key) == Raised(TypeError)
  {
  }

  /** On a dict, subscription and `in` agree: `v[key]` yields the stored value
      exactly when `key in v` is true, and otherwise raises `KeyError` naming
      the key. */
  lemma SubscriptOnDict(v: Json, key: string)
    requires v.JObject?
    ensures GetItem(v, key).Ok? <==> HasKey(v, key) == Ok(true)
    ensures GetItem(v, key).Ok? ==> GetItem(v, key).value == v.fields[key]
    ensures GetItem(v, key).Raised? ==> GetItem(v, key).error == KeyError(key)
  {
  }
}
