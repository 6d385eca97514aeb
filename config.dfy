/** The configuration records of src/config.rs and the timestamp unit logic:
    `TimestampUnit` with its nanosecond factors, its case-insensitive `FromStr`, its
    `Deserialize`, and `attr_val_to_ns`, which turns a numeric attribute into a
    nanosecond count. */
module Config {
  import opened Wrappers
  import opened Strings
  import opened Api

  /** One `original,new` rename of an attribute key (`AttrKeyRename`). */
  datatype AttrKeyRename = AttrKeyRename(original: string, newKey: string)

  datatype TimestampUnit = Seconds | Milliseconds | Microseconds | Nanoseconds

  /** The import-related part of `PluginConfig`. */
  datatype PluginConfig = PluginConfig(
    eventNames: seq<string>,
    eventNamePrefix: Option<string>,
    timelineNames: seq<string>,
    timelineNamePrefix: Option<string>,
    timelineAttrs: seq<string>,
    renameTimelineAttrs: seq<AttrKeyRename>,
    renameEventAttrs: seq<AttrKeyRename>,
    timestampAttr: Option<string>,
    timestampAttrUnits: Option<TimestampUnit>,
    nonJsonRegex: Option<string>,
    nonJsonAttrs: seq<string>)

  // ---------------------------------------------------------------------------
  // Units
  // ---------------------------------------------------------------------------

  /** `to_ns_factor`: how many nanoseconds one unit is. */
  function ToNsFactor(u: TimestampUnit): nat {
    match u
    case Seconds => 1_000_000_000
    case Milliseconds => 1_000_000
    case Microseconds => 1_000
    case Nanoseconds => 1
  }

  /** `Default`. */
  function DefaultUnit(): TimestampUnit {
    Nanoseconds
  }

  /** Each unit is a thousand of the next finer one, and the default unit leaves a
      value unscaled. */
  lemma UnitFactors()
    ensures ToNsFactor(Seconds) == 1000 * ToNsFactor(Milliseconds)
    ensures ToNsFactor(Milliseconds) == 1000 * ToNsFactor(Microseconds)
    ensures ToNsFactor(Microseconds) == 1000 * ToNsFactor(Nanoseconds)
    ensures ToNsFactor(DefaultUnit()) == 1
  {
  }

  /** The spellings `FromStr` accepts for a unit, after lower-casing. */
  function Aliases(u: TimestampUnit): seq<string> {
    match u
    case Seconds => ["s", "secs", "seconds"]
    case Milliseconds => ["ms", "millis", "milliseconds"]
    case Microseconds => ["us", "micros", "microseconds"]
    case Nanoseconds => ["ns", "nanos", "nanoseconds"]
  }

  /** The twelve accepted spellings. */
  function AllAliases(): seq<string> {
    Aliases(Seconds) + Aliases(Milliseconds) + Aliases(Microseconds) + Aliases(Nanoseconds)
  }

  datatype UnitError = UnknownTimeUnit(text: string)

  /** The match arms of `FromStr`, on an already lower-cased text. */
  function UnitOfLower(l: string): Option<TimestampUnit> {
    if l == "s" || l == "secs" || l == "seconds" then Some(Seconds)
    else if l == "ms" || l == "millis" || l == "milliseconds" then Some(Milliseconds)
    else if l == "us" || l == "micros" || l == "microseconds" then Some(Microseconds)
    else if l == "ns" || l == "nanos" || l == "nanoseconds" then Some(Nanoseconds)
    else None
  }

  /** `FromStr`: lower-case the text, then match it against the aliases. */
  function UnitFromStr(s: string): Result<TimestampUnit, UnitError> {
    match UnitOfLower(ToLower(s))
    case Some(u) => Ok(u)
    case None => Err(UnknownTimeUnit(s))
  }

  /** `FromStr` yields a unit exactly when the lower-cased text is one of its aliases;
      anything else is an error that quotes the text. */
  lemma UnitFromStrSpec(s: string, u: TimestampUnit)
    ensures UnitFromStr(s) == Ok(u) <==> ToLower(s) in Aliases(u)
    ensures UnitFromStr(s).Err? <==> ToLower(s) !in AllAliases()
    ensures UnitFromStr(s).Err? ==> UnitFromStr(s) == Err(UnknownTimeUnit(s))
  {
    var l := ToLower(s);
    if l in Aliases(u) {
      AliasUnit(l, u);
    }
    UnitOfLowerAlias(l);
    if l in AllAliases() {
      var v :| l in Aliases(v) by {
        assert l in Aliases(Seconds) || l in Aliases(Milliseconds) || l in Aliases(Microseconds)
          || l in Aliases(Nanoseconds);
      }
      AliasUnit(l, v);
    }
  }

  /** Every alias of a unit is matched to that unit. */
  lemma AliasUnit(l: string, u: TimestampUnit)
    requires l in Aliases(u)
    ensures UnitOfLower(l) == Some(u)
  {
    var a := Aliases(u);
    assert l == a[0] || l == a[1] || l == a[2];
  }

  /** A unit found by the match arms was found by one of its aliases. */
  lemma UnitOfLowerAlias(l: string)
    ensures UnitOfLower(l).Some? ==> l in Aliases(UnitOfLower(l).value)
  {
  }

  lemma {:induction false} ToLowerIdempotent(s: string)
    ensures ToLower(ToLower(s)) == ToLower(s)
  {
    var l := ToLower(s);
    assert forall i :: 0 <= i < |l| ==> ToLower(l)[i] == l[i];
  }

  /** Parsing ignores case: a text and its lower-cased form parse to the same unit. */
  lemma UnitFromStrIgnoresCase(s: string)
    ensures UnitFromStr(s).Ok? <==> UnitFromStr(ToLower(s)).Ok?
    ensures UnitFromStr(s).Ok? ==> UnitFromStr(s) == UnitFromStr(ToLower(s))
  {
    ToLowerIdempotent(s);
  }

  /** A value handed to `Deserialize`: a string, or anything else. */
  datatype ConfigValue = StringValue(s: string) | NonStringValue

  datatype DeError = InvalidType | Custom(e: UnitError)

  /** `Deserialize`: read a string, then `FromStr` it. */
  function UnitDeserialize(v: ConfigValue): Result<TimestampUnit, DeError> {
    match v
    case NonStringValue => Err(InvalidType)
    case StringValue(s) =>
      match UnitFromStr(s)
      case Ok(u) => Ok(u)
      case Err(e) => Err(Custom(e))
  }

  /** `Deserialize` accepts exactly the strings `FromStr` accepts, with the same unit. */
  lemma UnitDeserializeAgrees(v: ConfigValue, u: TimestampUnit)
    ensures UnitDeserialize(v) == Ok(u) <==> v.StringValue? && UnitFromStr(v.s) == Ok(u)
    ensures v.StringValue? && UnitFromStr(v.s).Err? ==> UnitDeserialize(v) == Err(Custom(UnitFromStr(v.s).error))
  {
  }

  // ---------------------------------------------------------------------------
  // Conversion to nanoseconds
  // ---------------------------------------------------------------------------

  /** Truncation toward zero, as Rust's float-to-integer `as` performs it. */
  function Trunc(x: real): int {
    if x >= 0.0 then x.Floor else -((-x).Floor)
  }

  /** `Trunc` drops the fractional part: the result is the integer nearest to `x`
      on the side of zero. */
  lemma TruncTowardZero(x: real)
    ensures x >= 0.0 ==> 0 <= Trunc(x) && Trunc(x) as real <= x < Trunc(x) as real + 1.0
    ensures x < 0.0 ==> Trunc(x) <= 0 && Trunc(x) as real - 1.0 < x <= Trunc(x) as real
  {
  }

  /** `as i128` from a float saturates at the bounds of `i128`. */
  function SaturateI128(x: int): (r: int)
    ensures I128_MIN <= r <= I128_MAX
    ensures I128_MIN <= x <= I128_MAX ==> r == x
  {
    if x < I128_MIN then I128_MIN else if x > I128_MAX then I128_MAX else x
  }

  datatype NsError = NonNumericTimestamp(v: AttrVal)

  /** `attr_val_to_ns`: read a numeric value as a float, scale it by the unit's
      factor, truncate it to an `i128` and build the value with `new_attr_val`; any
      other value is an error that carries the value. */
  function AttrValToNs(u: TimestampUnit, v: AttrVal, newAttrVal: NewAttrVal): (r: Result<AttrVal, NsError>)
    ensures r.Err? <==> NumericValue(v).None?
    ensures r.Err? ==> r.error == NonNumericTimestamp(v)
    ensures r.Ok? && KeepsValue(newAttrVal) ==>
      var n := NumericValue(r.value);
      n.Some? && n.value == n.value.Floor as real && I128_MIN as real <= n.value <= I128_MAX as real
  {
    match NumericValue(v)
    case None => Err(NonNumericTimestamp(v))
    case Some(x) => Ok(newAttrVal(ScaledNs(u, x)))
  }

  /** `(x * factor) as i128`: scale, truncate toward zero, saturate. */
  function ScaledNs(u: TimestampUnit, x: real): int {
    SaturateI128(Trunc(x * ToNsFactor(u) as real))
  }

  lemma CastMul(a: int, b: int)
    ensures (a * b) as real == a as real * b as real
  {
  }

  lemma TruncOfInt(n: int)
    ensures Trunc(n as real) == n
  {
  }

  /** An integral value is scaled exactly: the result is value times factor,
      saturated to `i128`. */
  lemma {:induction false} AttrValToNsOfIntegral(u: TimestampUnit, v: AttrVal, newAttrVal: NewAttrVal)
    requires v.Integer? || v.BigInt?
    ensures AttrValToNs(u, v, newAttrVal) ==
      Ok(newAttrVal(SaturateI128((if v.Integer? then v.i else v.n) * ToNsFactor(u))))
  {
    var n := if v.Integer? then v.i else v.n;
    assert NumericValue(v) == Some(n as real);
    AttrValToNsUnfold(u, v, n as real, newAttrVal);
    ScaledNsOfInt(u, n);
  }

  /** Scaling an integer loses nothing before saturation. */
  lemma ScaledNsOfInt(u: TimestampUnit, n: int)
    ensures ScaledNs(u, n as real) == SaturateI128(n * ToNsFactor(u))
  {
    var f := ToNsFactor(u);
    CastMul(n, f);
    TruncOfInt(n * f);
  }

  /** `AttrValToNs` on a value that denotes `x`. */
  lemma AttrValToNsUnfold(u: TimestampUnit, v: AttrVal, x: real, newAttrVal: NewAttrVal)
    requires NumericValue(v) == Some(x)
    ensures AttrValToNs(u, v, newAttrVal) == Ok(newAttrVal(ScaledNs(u, x)))
  {
  }

  /** Within the range of `i128`, saturated truncation is truncation. */
  lemma SaturatedTrunc(y: real)
    requires I128_MIN as real <= y <= I128_MAX as real
    ensures var r := SaturateI128(Trunc(y)) as real;
      (y >= 0.0 ==> r <= y < r + 1.0) && (y < 0.0 ==> r - 1.0 < y <= r)
  {
    TruncTowardZero(y);
    assert I128_MIN <= Trunc(y) <= I128_MAX;
  }

  /** An `i64` value never saturates: it is scaled exactly. */
  lemma AttrValToNsOfInteger(u: TimestampUnit, i: int, newAttrVal: NewAttrVal)
    requires I64_MIN <= i <= I64_MAX
    ensures AttrValToNs(u, Integer(i), newAttrVal) == Ok(newAttrVal(i * ToNsFactor(u)))
  {
    AttrValToNsOfIntegral(u, Integer(i), newAttrVal);
  }

  /** A float is scaled and then truncated toward zero: short of saturation, the
      result lies within one of the scaled value, on the side of zero. */
  lemma {:induction false} AttrValToNsOfFloat(u: TimestampUnit, x: real, newAttrVal: NewAttrVal)
    requires I128_MIN as real <= x * ToNsFactor(u) as real <= I128_MAX as real
    ensures AttrValToNs(u, Float(x), newAttrVal) == Ok(newAttrVal(ScaledNs(u, x)))
    ensures var r := ScaledNs(u, x) as real;
      var y := x * ToNsFactor(u) as real;
      (y >= 0.0 ==> r <= y < r + 1.0) && (y < 0.0 ==> r - 1.0 < y <= r)
  {
    AttrValToNsUnfold(u, Float(x), x, newAttrVal);
    SaturatedTrunc(x * ToNsFactor(u) as real);
    assert ScaledNs(u, x) == SaturateI128(Trunc(x * ToNsFactor(u) as real));
  }

  /** 1500 ms is 1.5e9 ns; 1.5 s is 1.5e9 ns; -2.5 ns truncates toward zero to -2. */
  lemma AttrValToNsExamples(newAttrVal: NewAttrVal)
    ensures AttrValToNs(Milliseconds, Integer(1500), newAttrVal) == Ok(newAttrVal(1_500_000_000))
    ensures AttrValToNs(Seconds, Float(1.5), newAttrVal) == Ok(newAttrVal(1_500_000_000))
    ensures AttrValToNs(Nanoseconds, Float(-2.5), newAttrVal) == Ok(newAttrVal(-2))
    ensures AttrValToNs(Seconds, String("1500"), newAttrVal) == Err(NonNumericTimestamp(String("1500")))
  {
    AttrValToNsOfInteger(Milliseconds, 1500, newAttrVal);
    AttrValToNsUnfold(Seconds, Float(1.5), 1.5, newAttrVal);
    assert Trunc(1.5 * ToNsFactor(Seconds) as real) == 1_500_000_000;
    AttrValToNsUnfold(Nanoseconds, Float(-2.5), -2.5, newAttrVal);
    assert Trunc(-2.5 * ToNsFactor(Nanoseconds) as real) == -2;
  }
}
