/** An abstract JSON document, standing in for `QJsonDocument` /
    `QJsonObject` / `QJsonArray` / `QJsonValue`, together with the lenient
    conversions of `QJsonValue` that the loader relies on. JSON text is not
    modelled: a tree that is written is the tree that is read back, which
    holds for the finite numbers this tree carries. A non-finite double
    would be written as `null` and read back as 0.0; the tree has none. */
module JsonTree {
  import opened Ints

  datatype Json =
    | JNull
    | JBool(b: bool)
    | JNumber(n: real)
    | JString(s: string)
    | JArray(items: seq<Json>)
    | JObject(fields: map<string, Json>)

  /** `QJsonObject::operator[]`: a missing key yields an undefined value,
      which every conversion below treats exactly like `null`. */
  function Field(o: map<string, Json>, key: string): Json {
    if key in o then o[key] else JNull
  }

  /** `QJsonValue::toInt()`: a number that is whole and fits in an `int`,
      and 0 for anything else. */
  function ToInt(v: Json): (r: Int32)
    ensures v.JNumber? && v.n == v.n.Floor as real && INT_MIN <= v.n.Floor <= INT_MAX ==> r as real == v.n
    ensures v.JNumber? && !(v.n == v.n.Floor as real && INT_MIN <= v.n.Floor <= INT_MAX) ==> r == 0
    ensures !v.JNumber? ==> r == 0
  {
    match v
    case JNumber(n) =>
      if n == n.Floor as real && INT_MIN <= n.Floor <= INT_MAX then n.Floor else 0
    case _ => 0
  }

  /** `QJsonValue::toDouble()`: the number, or 0.0 for a non-number. */
  function ToDouble(v: Json): real {
    if v.JNumber? then v.n else 0.0
  }

  /** `QJsonValue::toString()`: the string, or "" for a non-string. */
  function ToStr(v: Json): string {
    if v.JString? then v.s else ""
  }

  /** `QJsonValue::toArray()`: the elements, or an empty array for a non-array. */
  function ToArray(v: Json): seq<Json> {
    if v.JArray? then v.items else []
  }

  /** `QJsonValue::toObject()`: the members, or an empty object for a non-object. */
  function ToObject(v: Json): map<string, Json> {
    if v.JObject? then v.fields else map[]
  }

  /** An `int` written into a JSON number reads back unchanged. */
  lemma {:induction false} IntRoundTrip(x: Int32)
    ensures ToInt(JNumber(x as real)) == x
  {
  }
}
