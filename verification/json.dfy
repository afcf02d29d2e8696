/**
 * Parsed JSON request bodies and stored JSON columns (`unknown` in the
 * source). Numbers are reals: a JSON text cannot hold NaN or an infinity.
 */
module Json {
  import opened Wrappers

  datatype Json =
    | JNull
    | JBool(b: bool)
    | JNum(n: real)
    | JStr(s: string)
    | JArr(items: seq<Json>)
    | JObj(fields: map<string, Json>)

  /** `record[key]` on an object; None for a missing key or a non-object. */
  function Field(j: Json, key: string): (r: Option<Json>)
    ensures r.Some? <==> j.JObj? && key in j.fields
  {
    if j.JObj? && key in j.fields then Some(j.fields[key]) else None
  }

  /** JavaScript's `Number(s)` on a string: the finite number it denotes, or None for NaN and the infinities. */
  type NumberParser = string -> Option<real>
}
