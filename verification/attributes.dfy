/**
 Span attributes as the OpenTelemetry attribute package represents them: a key
 and a typed value. Only the value kinds this layer produces are modelled.
 */
module Attributes {

  const MinInt64: int := -0x8000_0000_0000_0000
  const MaxInt64: int := 0x7fff_ffff_ffff_ffff

  /** Go's `int64`, and Go's `int` on the 64-bit platforms the library targets. */
  type Int64 = x: int | MinInt64 <= x <= MaxInt64

  /** The attribute value kinds: STRING, INT64 (also used by `attribute.Int`)
      and INT64SLICE (also used by `attribute.IntSlice`). */
  datatype Value =
    | StringValue(s: string)
    | Int64Value(i: Int64)
    | Int64SliceValue(xs: seq<Int64>)

  datatype KeyValue = KeyValue(key: string, value: Value)

  /** `attribute.String(k, v)`. */
  function String(key: string, v: string): KeyValue {
    KeyValue(key, StringValue(v))
  }
}
