/**
 * Parsed JSON values and the JavaScript property reads the core performs on them.
 * Numbers are mathematical reals: there is no NaN, infinity or rounding.
 */
module Json {
  import opened Wrappers
  import Text

  datatype Json =
    | JNull
    | JBool(b: bool)
    | JNumber(n: real)
    | JString(s: string)
    | JArray(items: seq<Json>)
    | JObject(fields: map<string, Json>)

  /** A dataset as the upload endpoint returns it and the map view renders it. */
  datatype Dataset = Dataset(id: string, data: Json)

  /** JavaScript's `TypeError`, raised by reading a property of `null` or `undefined`. */
  datatype TypeError = TypeError

  /** JavaScript truthiness (`ToBoolean`) of a JSON value. */
  predicate Truthy(j: Json)
  {
    match j
    case JNull => false
    case JBool(b) => b
    case JNumber(n) => n != 0.0
    case JString(s) => s != ""
    case JArray(_) => true
    case JObject(_) => true
  }

  /**
   * `j[key]` for a value that is not `null`: an own data property of an object, an
   * element of an array or a one-character string at a canonical index; `None` is
   * `undefined`. Inherited members such as `length` are not modelled.
   */
  function Property(j: Json, key: string): (r: Option<Json>)
    ensures r.Some? ==> j.JObject? || j.JArray? || j.JString?
    ensures j.JObject? ==> r == (if key in j.fields then Some(j.fields[key]) else None)
    ensures !Text.AllDigits(key) ==> (r.Some? <==> j.JObject? && key in j.fields)
  {
    match j
    case JObject(fields) => if key in fields then Some(fields[key]) else None
    case JArray(items) =>
      (match Text.CanonicalIndex(key)
       case Some(i) => if i < |items| then Some(items[i]) else None
       case None => None)
    case JString(s) =>
      (match Text.CanonicalIndex(key)
       case Some(i) => if i < |s| then Some(JString([s[i]])) else None
       case None => None)
    case _ => None
  }

  /**
   * The member access `v.key` on a value that may be `undefined` (`None`): a
   * `TypeError` on `undefined` and on `null`, the property read otherwise.
   */
  function Member(v: Option<Json>, key: string): (r: Result<Option<Json>, TypeError>)
    ensures r.Failure? <==> v.None? || v == Some(JNull)
    ensures r.Success? ==> r.value == Property(v.value, key)
  {
    match v
    case None => Failure(TypeError)
    case Some(JNull) => Failure(TypeError)
    case Some(j) => Success(Property(j, key))
  }
}
