/** serde_json's `Value` and `Number`, as far as the importer inspects them. An
    object is the sequence of its entries in iteration order. */
module JsonValue {
  import opened Wrappers
  import opened Api

  /** serde_json's `Number`: a non-negative integer (held as `u64`), a negative
      integer (held as `i64`) or a finite float. */
  datatype Number = PosInt(u: nat) | NegInt(i: int) | FloatNum(f: real)

  /** The ranges serde_json keeps each variant in. */
  predicate ValidNumber(n: Number) {
    match n
    case PosInt(u) => u <= U64_MAX
    case NegInt(i) => I64_MIN <= i < 0
    case FloatNum(_) => true
  }

  datatype Json =
    | JNull
    | JBool(b: bool)
    | JNumber(n: Number)
    | JString(s: string)
    | JArray(items: seq<Json>)
    | JObject(members: seq<Member>)

  /** One entry of a JSON object. */
  datatype Member = Member(key: string, value: Json)

  /** A value `walk_obj` descends into rather than reporting as a leaf. */
  predicate IsContainer(v: Json) {
    v.JArray? || v.JObject?
  }

  /** `Number::as_f64`, which never fails: the number a `Number` denotes (the
      rounding of a large integer to the nearest `f64` is not modelled). */
  function AsF64(n: Number): real {
    match n
    case PosInt(u) => u as real
    case NegInt(i) => i as real
    case FloatNum(f) => f
  }

  /** `Number::as_i64`. */
  function AsI64(n: Number): (r: Option<int>)
    ensures r.Some? <==> (n.PosInt? && n.u <= I64_MAX) || n.NegInt?
    ensures r.Some? ==> r.value as real == AsF64(n)
    ensures ValidNumber(n) && r.Some? ==> I64_MIN <= r.value <= I64_MAX
  {
    match n
    case PosInt(u) => if u <= I64_MAX then Some(u) else None
    case NegInt(i) => Some(i)
    case FloatNum(_) => None
  }

  /** `Number::as_u64`. */
  function AsU64(n: Number): (r: Option<int>)
    ensures r.Some? <==> n.PosInt?
    ensures r.Some? ==> r.value as real == AsF64(n)
    ensures ValidNumber(n) && r.Some? ==> 0 <= r.value <= U64_MAX
  {
    match n
    case PosInt(u) => Some(u)
    case _ => None
  }

  /** `Map::get`: the value of the first entry with key `k`. */
  function Get(m: seq<Member>, k: string): (r: Option<Json>)
    ensures r.None? <==> forall i :: 0 <= i < |m| ==> m[i].key != k
    ensures r.Some? ==> exists i :: 0 <= i < |m| && m[i] == Member(k, r.value)
  {
    if m == [] then None
    else if m[0].key == k then Some(m[0].value)
    else
      var r := Get(m[1..], k);
      assert forall i :: 1 <= i < |m| ==> m[i] == m[1..][i - 1];
      r
  }

  /** `Value::as_object`. */
  function AsObject(v: Json): (r: Option<seq<Member>>)
    ensures r.Some? <==> v.JObject?
    ensures r.Some? ==> r.value == v.members
  {
    match v
    case JObject(m) => Some(m)
    case _ => None
  }
}
