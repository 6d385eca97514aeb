/** The coercions of src/bin/importer.rs: a JSON leaf to an attribute value
    (`json_leaf_to_attr_val`), a regex capture to an attribute value
    (`string_to_attr_val`, with the decimal grammar of `f64::from_str` it relies
    on), and the `original,new` command-line rename (`parse_attr_key_rename`). */
module Coerce {
  import opened Wrappers
  import opened Strings
  import opened Api
  import opened JsonValue
  import opened Config

  // ---------------------------------------------------------------------------
  // JSON leaves
  // ---------------------------------------------------------------------------

  /** `json_leaf_to_attr_val`: containers and `null` have no attribute value; a
      number is an `Integer` when it fits `i64`, else goes through `new_attr_val`
      when it fits `u64`, else is a `Float`. */
  function JsonLeafToAttrVal(v: Json, newAttrVal: NewAttrVal): (r: Option<AttrVal>)
    ensures r.None? <==> v.JNull? || IsContainer(v)
  {
    match v
    case JArray(_) => None
    case JObject(_) => None
    case JNull => None
    case JBool(b) => Some(Bool(b))
    case JNumber(n) =>
      (match AsI64(n)
       case Some(i) => Some(Integer(i))
       case None =>
         match AsU64(n)
         case Some(u) => Some(newAttrVal(u))
         case None => Some(Float(AsF64(n))))
    case JString(s) => Some(String(s))
  }

  /** Booleans and strings are carried over unchanged. A number that fits `i64`
      becomes the `Integer` of its value, a larger one (which serde_json keeps within
      `u64`) is handed to `new_attr_val`, and a float stays a `Float`; so a number
      keeps its value whenever `new_attr_val` keeps the value it is given. */
  lemma LeafCoercion(v: Json, newAttrVal: NewAttrVal)
    ensures v.JBool? ==> JsonLeafToAttrVal(v, newAttrVal) == Some(Bool(v.b))
    ensures v.JString? ==> JsonLeafToAttrVal(v, newAttrVal) == Some(String(v.s))
    ensures v.JNumber? && !v.n.FloatNum? && I64_MIN as real <= AsF64(v.n) <= I64_MAX as real ==>
      JsonLeafToAttrVal(v, newAttrVal) == Some(Integer(AsF64(v.n).Floor))
    ensures v.JNumber? && ValidNumber(v.n) && !v.n.FloatNum? && AsF64(v.n) > I64_MAX as real ==>
      v.n.PosInt? && v.n.u <= U64_MAX && JsonLeafToAttrVal(v, newAttrVal) == Some(newAttrVal(v.n.u))
    ensures v.JNumber? && v.n.FloatNum? ==> JsonLeafToAttrVal(v, newAttrVal) == Some(Float(v.n.f))
    ensures v.JNumber? && KeepsValue(newAttrVal) ==>
      NumericValue(JsonLeafToAttrVal(v, newAttrVal).value) == Some(AsF64(v.n))
  {
  }

  /** The boundary between `Integer` and `BigInt`: `2^63 - 1` is still an `i64`,
      `2^63` is not. */
  lemma LeafCoercionBoundary(newAttrVal: NewAttrVal)
    ensures JsonLeafToAttrVal(JNumber(PosInt(I64_MAX)), newAttrVal) == Some(Integer(I64_MAX))
    ensures JsonLeafToAttrVal(JNumber(PosInt(I64_MAX + 1)), newAttrVal) == Some(newAttrVal(I64_MAX + 1))
    ensures JsonLeafToAttrVal(JNumber(NegInt(I64_MIN)), newAttrVal) == Some(Integer(I64_MIN))
  {
  }

  // ---------------------------------------------------------------------------
  // Decimal float literals (`f64::from_str`)
  // ---------------------------------------------------------------------------

  /** A decimal float literal taken apart: its sign, the digits before and after
      the `.`, and the exponent. */
  datatype FloatLiteral = FloatLiteral(negative: bool, intDigits: string, fracDigits: string, exp: int)

  predicate ValidFloatLiteral(f: FloatLiteral) {
    AllDigits(f.intDigits) && AllDigits(f.fracDigits) && |f.intDigits| + |f.fracDigits| >= 1
  }

  /** The exact value a literal denotes: its digits as an integer, scaled by ten to
      the exponent less the number of fraction digits. */
  function FloatLiteralValue(f: FloatLiteral): real
    requires ValidFloatLiteral(f)
  {
    var m: int := DigitsValue(f.intDigits + f.fracDigits);
    DecimalValue(Decimal(if f.negative then -m else m, f.exp - |f.fracDigits|))
  }

  /** An optional leading sign, and the text after it. */
  function SplitSign(s: string): (r: (bool, string))
    ensures s != [] && (s[0] == '-' || s[0] == '+') ==> r.1 == s[1..]
    ensures !(s != [] && (s[0] == '-' || s[0] == '+')) ==> r.1 == s
    ensures r.0 <==> s != [] && s[0] == '-'
  {
    if s != [] && s[0] == '-' then (true, s[1..])
    else if s != [] && s[0] == '+' then (false, s[1..])
    else (false, s)
  }

  /** The index of the first exponent marker `e` or `E`, if any. */
  function FindExponentMarker(s: string): (r: Option<nat>)
    ensures r.None? <==> 'e' !in s && 'E' !in s
    ensures r.Some? ==> r.value < |s| && (s[r.value] == 'e' || s[r.value] == 'E')
    decreases |s|
  {
    if s == [] then None
    else if s[0] == 'e' || s[0] == 'E' then Some(0)
    else
      match FindExponentMarker(s[1..])
      case None => None
      case Some(i) => Some(i + 1)
  }

  /** The exponent after the marker: an optional sign and at least one digit. */
  function ParseExponent(e: string): (r: Option<int>)
    ensures e == [] ==> r.None?
  {
    var (negative, ds) := SplitSign(e);
    if ds != [] && AllDigits(ds) then
      var v: int := DigitsValue(ds);
      Some(if negative then -v else v)
    else None
  }

  /** The mantissa before the first exponent marker and the exponent after it:
      zero when there is no marker, nothing when what follows is not an exponent. */
  function SplitExponent(body: string): (r: (string, Option<int>))
    ensures r.0 <= body
    ensures 'e' !in body && 'E' !in body ==> r == (body, Some(0))
  {
    match FindExponentMarker(body)
    case None => (body, Some(0))
    case Some(i) => (body[..i], ParseExponent(body[i + 1..]))
  }

  /** The text before and after the first `.`; all of it and nothing without one. */
  function SplitPoint(mantissa: string): (r: (string, string))
    ensures '.' !in mantissa ==> r == (mantissa, "")
    ensures '.' in mantissa ==> mantissa == r.0 + "." + r.1 && '.' !in r.0
  {
    match Find(mantissa, '.')
    case None => (mantissa, "")
    case Some(d) =>
      assert mantissa == mantissa[..d] + "." + mantissa[d + 1..];
      (mantissa[..d], mantissa[d + 1..])
  }

  /** The grammar of a decimal `f64` literal: `[+-]digits[.digits][(e|E)[+-]digits]`,
      where either side of the `.` may be empty but not both. The spellings `inf`,
      `infinity` and `nan` have no `.` and are not needed by the importer. */
  function ParseFloatLiteral(s: string): (r: Option<FloatLiteral>)
    ensures r.Some? ==> ValidFloatLiteral(r.value)
  {
    var (negative, body) := SplitSign(s);
    var (mantissa, exp) := SplitExponent(body);
    var (intDigits, fracDigits) := SplitPoint(mantissa);
    if exp.Some? && ValidFloatLiteral(FloatLiteral(negative, intDigits, fracDigits, 0)) then
      Some(FloatLiteral(negative, intDigits, fracDigits, exp.value))
    else None
  }

  /** `s.parse::<f64>()` on decimal notation, giving the exact value written (the
      rounding to the nearest `f64` is not modelled). */
  function ParseF64(s: string): Option<real> {
    match ParseFloatLiteral(s)
    case None => None
    case Some(f) => Some(FloatLiteralValue(f))
  }

  lemma DigitsHaveNoMarkers(ds: string)
    requires AllDigits(ds)
    ensures '.' !in ds && 'e' !in ds && 'E' !in ds && '-' !in ds && '+' !in ds
  {
    forall i | 0 <= i < |ds|
      ensures ds[i] != '.' && ds[i] != 'e' && ds[i] != 'E' && ds[i] != '-' && ds[i] != '+'
    {
      assert IsDigit(ds[i]);
    }
  }

  /** The optional sign in front of a mantissa or an exponent. */
  datatype Sign = Unsigned | Plus | Minus

  function SignText(sg: Sign): string {
    match sg
    case Unsigned => ""
    case Plus => "+"
    case Minus => "-"
  }

  function Signed(sg: Sign, v: int): int {
    if sg == Minus then -v else v
  }

  /** A sign in front of a text that does not itself start with a sign is split
      off again. */
  lemma SplitSignOfText(sg: Sign, t: string)
    requires t == [] || (t[0] != '-' && t[0] != '+')
    ensures SplitSign(SignText(sg) + t) == (sg == Minus, t)
  {
    if sg == Unsigned {
      assert SignText(sg) + t == t;
    } else {
      assert (SignText(sg) + t)[0] == SignText(sg)[0] && (SignText(sg) + t)[1..] == t;
    }
  }

  /** `a.b` has no exponent marker and splits at its `.` into `a` and `b`, and
      it does not start with a sign. */
  lemma SplitPointOfDecimal(a: string, b: string)
    requires AllDigits(a) && AllDigits(b)
    ensures 'e' !in a + "." + b && 'E' !in a + "." + b
    ensures SplitPoint(a + "." + b) == (a, b)
    ensures (a + "." + b)[0] != '-' && (a + "." + b)[0] != '+'
  {
    var body := a + "." + b;
    DigitsHaveNoMarkers(a);
    DigitsHaveNoMarkers(b);
    assert body == a + ("." + b);
    assert Find(body, '.') == Some(|a|) by {
      assert body[..|a|] == a && body[|a|] == '.';
    }
    assert body[..|a|] == a && body[|a| + 1..] == b;
    if a != [] { assert body[0] == a[0] && IsDigit(a[0]); }
  }

  /** Plain decimal notation `[+-]a.b` is taken apart into its sign, `a` and `b`,
      with a zero exponent. */
  lemma ParseFloatLiteralOfDecimal(sg: Sign, a: string, b: string)
    requires AllDigits(a) && AllDigits(b) && |a| + |b| >= 1
    ensures ParseFloatLiteral(SignText(sg) + (a + "." + b)) == Some(FloatLiteral(sg == Minus, a, b, 0))
  {
    var body := a + "." + b;
    SplitPointOfDecimal(a, b);
    SplitSignOfText(sg, body);
  }

  /** Plain decimal notation `[+-]a.b` parses to the exact value of its digits,
      shifted by the number of fraction digits. */
  lemma ParseF64OfDecimal(sg: Sign, a: string, b: string)
    requires AllDigits(a) && AllDigits(b) && |a| + |b| >= 1
    ensures ParseF64(SignText(sg) + (a + "." + b))
      == Some(DecimalValue(Decimal(Signed(sg, DigitsValue(a + b)), -|b|)))
  {
    ParseFloatLiteralOfDecimal(sg, a, b);
    ParseF64OfLiteral(SignText(sg) + (a + "." + b), FloatLiteral(sg == Minus, a, b, 0));
    FloatLiteralValueOf(sg, a, b, 0);
  }

  /** The first exponent marker of `x + [m] + y` is `m` when `x` has none. */
  lemma {:induction false} ExponentMarkerAt(x: string, m: char, y: string)
    requires 'e' !in x && 'E' !in x
    requires m == 'e' || m == 'E'
    ensures FindExponentMarker(x + [m] + y) == Some(|x|)
    decreases |x|
  {
    var s := x + [m] + y;
    if x == [] {
      assert s[0] == m;
    } else {
      assert s[0] == x[0] && s[1..] == x[1..] + [m] + y;
      assert x == [x[0]] + x[1..];
      ExponentMarkerAt(x[1..], m, y);
    }
  }

  /** `mantissa (e|E) esign ds` splits into the mantissa and the exponent `ds`,
      negated for a `-`, when the mantissa has no marker of its own. */
  lemma SplitExponentOf(mantissa: string, m: char, esg: Sign, ds: string)
    requires 'e' !in mantissa && 'E' !in mantissa
    requires m == 'e' || m == 'E'
    requires AllDigits(ds) && ds != []
    ensures SplitExponent(mantissa + [m] + (SignText(esg) + ds)) == (mantissa, Some(Signed(esg, DigitsValue(ds))))
  {
    var body := mantissa + [m] + (SignText(esg) + ds);
    ExponentMarkerAt(mantissa, m, SignText(esg) + ds);
    assert body[..|mantissa|] == mantissa && body[|mantissa| + 1..] == SignText(esg) + ds;
    assert IsDigit(ds[0]);
    SplitSignOfText(esg, ds);
  }

  /** The full grammar round trip: `[+-]a.b(e|E)[+-]ds` is taken apart into its
      sign, `a`, `b` and the signed exponent `ds`. */
  lemma ParseFloatLiteralWithExponent(sg: Sign, a: string, b: string, m: char, esg: Sign, ds: string)
    requires AllDigits(a) && AllDigits(b) && |a| + |b| >= 1
    requires m == 'e' || m == 'E'
    requires AllDigits(ds) && ds != []
    ensures ParseFloatLiteral(SignText(sg) + ((a + "." + b) + [m] + (SignText(esg) + ds)))
      == Some(FloatLiteral(sg == Minus, a, b, Signed(esg, DigitsValue(ds))))
  {
    var mantissa := a + "." + b;
    var body := mantissa + [m] + (SignText(esg) + ds);
    var text := SignText(sg) + body;
    SplitPointOfDecimal(a, b);
    assert body[0] == mantissa[0];
    SplitSignOfText(sg, body);
    SplitExponentOf(mantissa, m, esg, ds);
    ParseFloatLiteralOfParts(text, sg == Minus, body, mantissa, Signed(esg, DigitsValue(ds)), a, b);
  }

  /** A literal is put together from its sign, its exponent and its `.` split. */
  lemma ParseFloatLiteralOfParts(s: string, negative: bool, body: string, mantissa: string, e: int, a: string, b: string)
    requires SplitSign(s) == (negative, body)
    requires SplitExponent(body) == (mantissa, Some(e)) && SplitPoint(mantissa) == (a, b)
    requires AllDigits(a) && AllDigits(b) && |a| + |b| >= 1
    ensures ParseFloatLiteral(s) == Some(FloatLiteral(negative, a, b, e))
  {
  }

  /** With an exponent, the value is the digits of `a` and `b` shifted by the
      exponent less the number of fraction digits. */
  lemma ParseF64WithExponent(sg: Sign, a: string, b: string, m: char, esg: Sign, ds: string)
    requires AllDigits(a) && AllDigits(b) && |a| + |b| >= 1
    requires m == 'e' || m == 'E'
    requires AllDigits(ds) && ds != []
    ensures ParseF64(SignText(sg) + ((a + "." + b) + [m] + (SignText(esg) + ds)))
      == Some(DecimalValue(Decimal(Signed(sg, DigitsValue(a + b)), Signed(esg, DigitsValue(ds)) - |b|)))
  {
    var f := FloatLiteral(sg == Minus, a, b, Signed(esg, DigitsValue(ds)));
    ParseFloatLiteralWithExponent(sg, a, b, m, esg, ds);
    ParseF64OfLiteral(SignText(sg) + ((a + "." + b) + [m] + (SignText(esg) + ds)), f);
    FloatLiteralValueOf(sg, a, b, Signed(esg, DigitsValue(ds)));
  }

  /** The value of a text that parses to the literal `f` is that literal's value. */
  lemma ParseF64OfLiteral(s: string, f: FloatLiteral)
    requires ParseFloatLiteral(s) == Some(f)
    ensures ValidFloatLiteral(f) && ParseF64(s) == Some(FloatLiteralValue(f))
  {
  }

  /** The value of a literal with sign `sg`, digits `a.b` and exponent `e`. */
  lemma FloatLiteralValueOf(sg: Sign, a: string, b: string, e: int)
    requires AllDigits(a) && AllDigits(b) && |a| + |b| >= 1
    ensures FloatLiteralValue(FloatLiteral(sg == Minus, a, b, e))
      == DecimalValue(Decimal(Signed(sg, DigitsValue(a + b)), e - |b|))
  {
  }

  // ---------------------------------------------------------------------------
  // Capture strings
  // ---------------------------------------------------------------------------

  /** `string_to_attr_val`: a text with a `.` that parses as a float is a `Float`;
      otherwise a text that parses as an `i128` goes through `new_attr_val`; anything
      else is kept as a `String`. */
  function StringToAttrVal(s: string, newAttrVal: NewAttrVal): (r: AttrVal)
    ensures || ('.' in s && r.Float? && ParseF64(s) == Some(r.f))
            || (IsIntLiteral(s, true) && I128_MIN <= LiteralValue(s, true) <= I128_MAX
                && r == newAttrVal(LiteralValue(s, true)))
            || r == String(s)
  {
    if '.' in s && ParseF64(s).Some? then Float(ParseF64(s).value)
    else
      ParseIntSpec(s, true, I128_MIN, I128_MAX);
      match ParseInt(s, true, I128_MIN, I128_MAX)
      case Ok(i) => newAttrVal(i)
      case Err(_) => String(s)
  }

  lemma IntLiteralHasNoDot(s: string)
    requires IsIntLiteral(s, true)
    ensures '.' !in s
  {
    if |s| >= 2 && (s[0] == '+' || s[0] == '-') {
      DigitsHaveNoMarkers(s[1..]);
      assert s == [s[0]] + s[1..];
    } else {
      DigitsHaveNoMarkers(s);
    }
  }

  /** Which reading wins: a float with a `.` first; then an `i128` literal (which
      never has a `.`), handed to `new_attr_val` with the integer it denotes; and a
      text that is neither is kept unchanged as a `String`. */
  lemma StringToAttrValSpec(s: string, newAttrVal: NewAttrVal)
    ensures '.' in s && ParseF64(s).Some? ==> StringToAttrVal(s, newAttrVal) == Float(ParseF64(s).value)
    ensures IsIntLiteral(s, true) && I128_MIN <= LiteralValue(s, true) <= I128_MAX ==>
      StringToAttrVal(s, newAttrVal) == newAttrVal(LiteralValue(s, true))
    ensures && ('.' !in s || ParseF64(s).None?)
            && !(IsIntLiteral(s, true) && I128_MIN <= LiteralValue(s, true) <= I128_MAX)
            ==> StringToAttrVal(s, newAttrVal) == String(s)
  {
    ParseIntSpec(s, true, I128_MIN, I128_MAX);
    if IsIntLiteral(s, true) {
      IntLiteralHasNoDot(s);
    }
  }

  /** Plain decimal notation with a `.` becomes the `Float` of its exact value. */
  lemma StringToAttrValOfDecimal(sg: Sign, a: string, b: string, newAttrVal: NewAttrVal)
    requires AllDigits(a) && AllDigits(b) && |a| + |b| >= 1
    ensures StringToAttrVal(SignText(sg) + (a + "." + b), newAttrVal)
      == Float(DecimalValue(Decimal(Signed(sg, DigitsValue(a + b)), -|b|)))
  {
    var s := SignText(sg) + (a + "." + b);
    ParseF64OfDecimal(sg, a, b);
    assert s[|s| - |b| - 1] == '.';
  }

  /** `-42` is handed to `new_attr_val` as the integer -42. */
  lemma StringToAttrValOfIntegerExample(newAttrVal: NewAttrVal)
    ensures StringToAttrVal("-42", newAttrVal) == newAttrVal(-42)
  {
    StringToAttrValSpec("-42", newAttrVal);
    assert IsIntLiteral("-42", true);
    assert "-42"[1..] == "42";
    assert DigitsValue("42") == 42;
  }

  /** `1.2.3` is neither a float nor an integer, and stays text. */
  lemma StringToAttrValOfTextExample(newAttrVal: NewAttrVal)
    ensures StringToAttrVal("1.2.3", newAttrVal) == String("1.2.3")
  {
    var s := "1.2.3";
    assert ParseFloatLiteral(s).None? by {
      assert 'e' !in s && 'E' !in s;
      assert Find(s, '.') == Some(1);
      assert s[2..] == "2.3";
      assert !IsDigit(s[2..][1]);
    }
    assert !IsIntLiteral(s, true) by {
      assert !IsDigit(s[1]);
    }
    StringToAttrValSpec(s, newAttrVal);
  }

  /** `1.5e3` parses with its exponent to 1500. */
  lemma ParseF64OfExponentExample()
    ensures ParseF64("1.5e3") == Some(1500.0)
  {
    ExponentExampleParts();
    ParseF64WithExponent(Unsigned, "1", "5", 'e', Unsigned, "3");
    assert DecimalValue(Decimal(15, 2)) == 1500.0 by { assert Pow10(2) == 100; }
  }

  lemma ExponentExampleParts()
    ensures SignText(Unsigned) + (("1" + "." + "5") + ['e'] + (SignText(Unsigned) + "3")) == "1.5e3"
    ensures AllDigits("1") && AllDigits("5") && AllDigits("3")
    ensures DigitsValue("1" + "5") == 15 && DigitsValue("3") == 3
  {
    assert "1" + "5" == "15" && "15"[1..] == "5" && "5"[1..] == [] && "3"[1..] == [];
  }

  /** `1.5e3` has a `.` and parses as a float, so it is the float 1500. */
  lemma StringToAttrValOfExponentExample(newAttrVal: NewAttrVal)
    ensures StringToAttrVal("1.5e3", newAttrVal) == Float(1500.0)
  {
    ParseF64OfExponentExample();
    assert "1.5e3"[1] == '.';
    StringToAttrValSpec("1.5e3", newAttrVal);
  }

  // ---------------------------------------------------------------------------
  // `original,new` renames
  // ---------------------------------------------------------------------------

  datatype RenameError = NoComma(text: string)

  /** `parse_attr_key_rename`: split at the first `,`; both sides are kept as they
      are (either may be empty), and a text without `,` is an error. */
  function ParseAttrKeyRename(s: string): (r: Result<AttrKeyRename, RenameError>)
    ensures r.Err? <==> ',' !in s
    ensures r.Err? ==> r.error == NoComma(s)
    ensures r.Ok? ==> r.value.original + "," + r.value.newKey == s && ',' !in r.value.original
  {
    match Find(s, ',')
    case None => Err(NoComma(s))
    case Some(pos) =>
      assert s == s[..pos] + "," + s[pos + 1..];
      Ok(AttrKeyRename(s[..pos], s[pos + 1..]))
  }

  /** Joining an original without `,` to any new key with `,` parses back to the
      same rename. */
  lemma {:induction false} ParseAttrKeyRenameRoundTrip(original: string, newKey: string)
    requires ',' !in original
    ensures ParseAttrKeyRename(original + "," + newKey) == Ok(AttrKeyRename(original, newKey))
  {
    var s := original + "," + newKey;
    assert s[|original|] == ',';
    assert s[..|original|] == original;
    var pos := Find(s, ',').value;
    assert s[pos + 1..] == newKey;
  }
}
