/** The value types the importer exchanges with the ingest API (`modality_api`):
    attribute values, attribute keys, timeline ids and interned key handles, with the
    integer ranges the Rust types have. */
module Api {
  import opened Wrappers

  const I64_MIN: int := -0x8000_0000_0000_0000
  const I64_MAX: int := 0x7FFF_FFFF_FFFF_FFFF
  const U64_MAX: int := 0xFFFF_FFFF_FFFF_FFFF
  const I128_MIN: int := -0x8000_0000_0000_0000_0000_0000_0000_0000
  const I128_MAX: int := 0x7FFF_FFFF_FFFF_FFFF_FFFF_FFFF_FFFF_FFFF

  function Pow10(n: nat): (r: nat)
    ensures r >= 1
  {
    if n == 0 then 1 else 10 * Pow10(n - 1)
  }

  /** A number written in decimal, `mantissa * 10^exponent`. */
  datatype Decimal = Decimal(mantissa: int, exponent: int)

  /** The exact value a `Decimal` denotes. */
  function DecimalValue(d: Decimal): real {
    if d.exponent >= 0 then (d.mantissa * Pow10(d.exponent)) as real
    else d.mantissa as real / Pow10(-d.exponent) as real
  }

  /** `AttrVal`, restricted to the variants this importer produces or inspects. */
  datatype AttrVal =
    | Bool(b: bool)
    | Integer(i: int)   // i64
    | BigInt(n: int)    // i128
    | Float(f: real)    // f64, as the exact value it was written as
    | String(s: string)

  type AttrKey = string

  /** `TimelineId` is a UUID; the model keeps an opaque natural number. */
  datatype TimelineId = TimelineId(uuid: nat)

  /** The handle `declare_attr_key` hands back for a declared key. */
  datatype InternedKey = InternedKey(handle: nat)

  /** `BigInt::new_attr_val`, which builds the attribute value for an `i128`. It is
      defined in the ingest API, outside this repository, and which variant it
      picks is not part of this model: every function that calls it takes it as a
      parameter. */
  type NewAttrVal = int -> AttrVal

  /** The number a numeric attribute value denotes; `None` for the other variants. */
  function NumericValue(v: AttrVal): Option<real> {
    match v
    case Integer(i) => Some(i as real)
    case BigInt(n) => Some(n as real)
    case Float(x) => Some(x)
    case _ => None
  }

  /** The one thing assumed of `new_attr_val` where a fact depends on the number it
      stores: the value it builds denotes the integer it was given. */
  ghost predicate KeepsValue(newAttrVal: NewAttrVal) {
    forall i :: NumericValue(newAttrVal(i)) == Some(i as real)
  }

  /** The assumption is met whether `new_attr_val` always builds a `BigInt` or
      builds an `Integer` when the value fits `i64`. */
  lemma KeepsValueMet()
    ensures KeepsValue(i => BigInt(i))
    ensures KeepsValue(i => if I64_MIN <= i <= I64_MAX then Integer(i) else BigInt(i))
  {
  }
}
