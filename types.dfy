/** `RetryDurationUs` (src/types.rs): a retry delay in microseconds, wrapping a `u64`. */
module Types {
  import opened Wrappers
  import opened Strings
  import opened Api

  datatype RetryDurationUs = RetryDurationUs(us: nat)

  predicate ValidRetry(d: RetryDurationUs) {
    d.us <= U64_MAX
  }

  /** `Default`: 100 ms. */
  function DefaultRetry(): RetryDurationUs {
    RetryDurationUs(100000)
  }

  /** `FromStr`: trim surrounding whitespace, then parse a `u64`. */
  function RetryFromStr(s: string): Result<RetryDurationUs, IntErrorKind> {
    match ParseInt(Trim(s), false, 0, U64_MAX)
    case Ok(n) => Ok(RetryDurationUs(n))
    case Err(e) => Err(e)
  }

  /** The derived `Display`: the wrapped number in decimal. */
  function RetryDisplay(d: RetryDurationUs): string {
    NatToDecimal(d.us)
  }

  /** `FromStr` accepts exactly the trimmed texts that are `u64` literals no greater
      than `u64::MAX`, and wraps their value. */
  lemma RetryFromStrSpec(s: string)
    ensures RetryFromStr(s).Ok? <==>
      IsIntLiteral(Trim(s), false) && LiteralValue(Trim(s), false) <= U64_MAX
    ensures RetryFromStr(s).Ok? ==>
      RetryFromStr(s).value == RetryDurationUs(LiteralValue(Trim(s), false))
      && ValidRetry(RetryFromStr(s).value)
  {
    ParseIntSpec(Trim(s), false, 0, U64_MAX);
  }

  /** Whitespace around the displayed value is ignored: parsing gives the value back. */
  lemma RetryRoundTrip(d: RetryDurationUs, w1: string, w2: string)
    requires ValidRetry(d)
    requires AllWhitespace(w1) && AllWhitespace(w2)
    ensures RetryFromStr(w1 + RetryDisplay(d) + w2) == Ok(d)
  {
    var t := RetryDisplay(d);
    assert !IsWhitespace(t[0]) && !IsWhitespace(t[|t| - 1]);
    TrimOfPadded(w1, t, w2);
    assert IntToDecimal(d.us) == t;
    ParseIntOfDecimal(d.us, false, 0, U64_MAX);
  }

  /** A number above `u64::MAX` is refused with a positive-overflow error. */
  lemma RetryRejectsAboveMax(n: nat)
    requires n > U64_MAX
    ensures RetryFromStr(NatToDecimal(n)) == Err(PosOverflow)
  {
    var t := NatToDecimal(n);
    TrimOfPadded("", t, "");
    assert "" + t + "" == t;
    NatToDecimalValue(n);
    ScanPositive(t, 0, 0, U64_MAX);
  }

  /** The default is 100 milliseconds, and parses back from its own display. */
  lemma DefaultRetryIs100Ms()
    ensures DefaultRetry().us == 100 * 1000
    ensures RetryFromStr(RetryDisplay(DefaultRetry())) == Ok(DefaultRetry())
  {
    RetryRoundTrip(DefaultRetry(), "", "");
    assert "" + RetryDisplay(DefaultRetry()) + "" == RetryDisplay(DefaultRetry());
  }
}
