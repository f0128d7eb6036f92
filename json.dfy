/** The JavaScript values a request carries after JSON or query-string
    parsing: what the validators receive and what they hand back. */
module Json {
  import opened Wrappers

  datatype Json =
    | JNull
    | JBool(b: bool)
    | JNum(n: real)
    | JStr(s: string)
    | JArr(items: seq<Json>)
    | JObj(fields: map<string, Json>)

  /** `obj[key]`: the property, or None when it is undefined (a missing key,
      or a value that is not an object at all). */
  function Get(obj: Json, key: string): (r: Option<Json>)
    ensures r.Some? <==> obj.JObj? && key in obj.fields
    ensures r.Some? ==> r.value == obj.fields[key]
  {
    if obj.JObj? && key in obj.fields then Some(obj.fields[key]) else None
  }

  /** The type name zod reports for a received value (its `ZodParsedType`);
      `None` stands for `undefined`. */
  function TypeName(v: Option<Json>): string {
    match v
    case None => "undefined"
    case Some(JNull) => "null"
    case Some(JBool(_)) => "boolean"
    case Some(JNum(_)) => "number"
    case Some(JStr(_)) => "string"
    case Some(JArr(_)) => "array"
    case Some(JObj(_)) => "object"
  }

  /** A nullable column rendered as JSON. */
  function FromNullableStr(v: Nullable<string>): Json {
    match v
    case Null => JNull
    case NonNull(s) => JStr(s)
  }

  function FromNullableNum(v: Nullable<real>): Json {
    match v
    case Null => JNull
    case NonNull(x) => JNum(x)
  }
}
