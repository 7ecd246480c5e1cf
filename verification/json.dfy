/** The JSON values the converter reads (column defaults) and writes (cells, row objects). */
module JsonValue {

  /** An IEEE 754 double, kept as its bit pattern. */
  datatype F64 = F64(bits: bv64) {

    /** Neither an infinity nor a NaN: the exponent field is not all ones. */
    predicate IsFinite()
    {
      (bits >> 52) & 0x7FF != 0x7FF
    }
  }

  /** A JSON value. Numbers are split by the Rust type they came from: integers (`i32`, `i64`)
      become `Int`, doubles `Float`. Object key order is not modelled. */
  datatype Json =
    | Null
    | Bool(b: bool)
    | Int(i: int)
    | Float(f: F64)
    | Str(s: string)
    | Array(items: seq<Json>)
    | Object(fields: map<string, Json>)

  /** `json!(x)` for an `f64`: a JSON number when finite, `null` otherwise (JSON has no
      infinities or NaN). */
  function FromF64(f: F64): (j: Json)
    ensures j.Float? <==> f.IsFinite()
    ensures j.Float? ==> j.f == f
    ensures !j.Float? ==> j.Null?
  {
    if f.IsFinite() then Float(f) else Null
  }
}
