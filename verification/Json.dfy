/** JSON values, with numbers as the library keeps them: 64-bit integers or doubles. */
module Json {
  import opened Outcomes

  /** Signed or unsigned 64-bit. */
  type JsonInt = n: int | -0x8000_0000_0000_0000 <= n <= 0xFFFF_FFFF_FFFF_FFFF

  /** A double: rounding is not modelled, infinities and NaN are one value. */
  datatype Double = Finite(value: real) | NonFinite

  datatype Json =
    | Null
    | Boolean(b: bool)
    | Integer(n: JsonInt)
    | Number(d: Double)
    | String(s: string)
    | Array(elements: seq<Json>)
    | Object(fields: map<string, Json>)

  /** `get<double>`: both kinds of number convert, nothing else does. */
  function GetDouble(v: Json): (r: Option<Double>)
    ensures r.Some? <==> v.Integer? || v.Number?
  {
    match v
    case Integer(n) => Some(Finite(n as real))
    case Number(d) => Some(d)
    case _ => None
  }

  /** `get<int64_t>` of an integer: an unsigned value beyond the range wraps to a negative one. */
  function ToInt64(n: JsonInt): (r: int)
    ensures -0x8000_0000_0000_0000 <= r <= 0x7FFF_FFFF_FFFF_FFFF
    ensures n <= 0x7FFF_FFFF_FFFF_FFFF ==> r == n
    ensures n > 0x7FFF_FFFF_FFFF_FFFF ==> r < 0
  {
    if n > 0x7FFF_FFFF_FFFF_FFFF then n - 0x1_0000_0000_0000_0000 else n
  }
}
