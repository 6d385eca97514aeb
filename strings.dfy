/** The pieces of Rust's `str` and integer parsing that the importer relies on:
    `char::is_whitespace`, `trim`/`trim_start`, ASCII lower-casing, `split`/`join`
    on a separator, decimal formatting of integers and `str::parse` for integer types
    (`i128`, `u64`), including the order in which it reports its error kinds. */
module Strings {
  import opened Wrappers

  // ---------------------------------------------------------------------------
  // Whitespace and trimming
  // ---------------------------------------------------------------------------

  /** Rust's `char::is_whitespace`: the Unicode White_Space property. */
  predicate IsWhitespace(c: char) {
    || ('\t' <= c <= '\r')
    || c == ' '
    || c == '\U{85}'
    || c == '\U{A0}'
    || c == '\U{1680}'
    || ('\U{2000}' <= c <= '\U{200A}')
    || c == '\U{2028}'
    || c == '\U{2029}'
    || c == '\U{202F}'
    || c == '\U{205F}'
    || c == '\U{3000}'
  }

  predicate AllWhitespace(s: string) {
    forall i :: 0 <= i < |s| ==> IsWhitespace(s[i])
  }

  /** `str::trim_start`: drops the longest all-whitespace prefix. */
  function TrimStart(s: string): (r: string)
    ensures |r| <= |s| && r == s[|s| - |r|..]
    ensures AllWhitespace(s[..|s| - |r|])
    ensures r == [] || !IsWhitespace(r[0])
    decreases |s|
  {
    if s != [] && IsWhitespace(s[0]) then TrimStart(s[1..]) else s
  }

  /** `str::trim_end`: drops the longest all-whitespace suffix. */
  function TrimEnd(s: string): (r: string)
    ensures |r| <= |s| && r == s[..|r|]
    ensures AllWhitespace(s[|r|..])
    ensures r == [] || !IsWhitespace(r[|r| - 1])
    decreases |s|
  {
    if s != [] && IsWhitespace(s[|s| - 1]) then
      var p := s[..|s| - 1];
      var r := TrimEnd(p);
      assert s[..|r|] == p[..|r|];
      assert s[|r|..] == p[|r|..] + [s[|s| - 1]];
      r
    else s
  }

  /** `str::trim`. */
  function Trim(s: string): string {
    TrimEnd(TrimStart(s))
  }

  lemma {:induction false} TrimStartOfPadded(w: string, t: string)
    requires AllWhitespace(w)
    requires t == [] || !IsWhitespace(t[0])
    ensures TrimStart(w + t) == t
    decreases |w|
  {
    if w != [] {
      assert (w + t)[1..] == w[1..] + t;
      TrimStartOfPadded(w[1..], t);
    } else {
      assert w + t == t;
    }
  }

  lemma {:induction false} TrimEndOfPadded(t: string, w: string)
    requires AllWhitespace(w)
    requires t == [] || !IsWhitespace(t[|t| - 1])
    ensures TrimEnd(t + w) == t
    decreases |w|
  {
    if w != [] {
      assert (t + w)[..|t + w| - 1] == t + w[..|w| - 1];
      TrimEndOfPadded(t, w[..|w| - 1]);
    } else {
      assert t + w == t;
    }
  }

  /** Whitespace around a text whose first and last characters are not whitespace is
      exactly what `trim` removes. */
  lemma TrimOfPadded(w1: string, t: string, w2: string)
    requires AllWhitespace(w1) && AllWhitespace(w2)
    requires t != [] && !IsWhitespace(t[0]) && !IsWhitespace(t[|t| - 1])
    ensures Trim(w1 + t + w2) == t
  {
    assert w1 + t + w2 == w1 + (t + w2);
    TrimStartOfPadded(w1, t + w2);
    TrimEndOfPadded(t, w2);
  }

  // ---------------------------------------------------------------------------
  // Case
  // ---------------------------------------------------------------------------

  function ToLowerChar(c: char): char {
    if 'A' <= c <= 'Z' then (c as int + 32) as char else c
  }

  /** `str::to_lowercase`, restricted to ASCII letters (see README). */
  function ToLower(s: string): (r: string)
    ensures |r| == |s|
    ensures forall i :: 0 <= i < |s| ==> r[i] == ToLowerChar(s[i])
  {
    if s == [] then [] else [ToLowerChar(s[0])] + ToLower(s[1..])
  }

  // ---------------------------------------------------------------------------
  // Splitting and joining on a separator
  // ---------------------------------------------------------------------------

  /** `str::split(sep)`: always at least one part; `Split("", sep) == [""]`. */
  function Split(s: string, sep: char): (r: seq<string>)
    ensures |r| >= 1
    decreases |s|
  {
    if s == [] then [""]
    else
      var rest := Split(s[1..], sep);
      if s[0] == sep then [""] + rest else [[s[0]] + rest[0]] + rest[1..]
  }

  /** `[String]::join(sep)`. */
  function Join(parts: seq<string>, sep: char): string
    decreases |parts|
  {
    if parts == [] then ""
    else if |parts| == 1 then parts[0]
    else parts[0] + [sep] + Join(parts[1..], sep)
  }

  lemma {:induction false} SplitNoSep(p: string, sep: char)
    requires sep !in p
    ensures Split(p, sep) == [p]
    decreases |p|
  {
    if p != [] {
      SplitNoSep(p[1..], sep);
      assert [p[0]] + p[1..] == p;
    }
  }

  lemma {:induction false} SplitPrefix(p: string, sep: char, rest: string)
    requires sep !in p
    ensures Split(p + [sep] + rest, sep) == [p] + Split(rest, sep)
    decreases |p|
  {
    var s := p + [sep] + rest;
    if p == [] {
      assert s == [sep] + rest;
      assert s[1..] == rest;
    } else {
      assert s[1..] == p[1..] + [sep] + rest;
      SplitPrefix(p[1..], sep, rest);
      assert [p[0]] + p[1..] == p;
    }
  }

  /** Joining parts that do not contain the separator and splitting the result gives
      the parts back. */
  lemma {:induction false} SplitJoin(parts: seq<string>, sep: char)
    requires |parts| >= 1
    requires forall i :: 0 <= i < |parts| ==> sep !in parts[i]
    ensures Split(Join(parts, sep), sep) == parts
    decreases |parts|
  {
    if |parts| == 1 {
      SplitNoSep(parts[0], sep);
    } else {
      SplitJoin(parts[1..], sep);
      SplitPrefix(parts[0], sep, Join(parts[1..], sep));
      assert [parts[0]] + parts[1..] == parts;
    }
  }

  /** Splitting and joining again gives the text back. */
  lemma {:induction false} JoinSplit(s: string, sep: char)
    ensures Join(Split(s, sep), sep) == s
    decreases |s|
  {
    if s != [] {
      JoinSplit(s[1..], sep);
      var rest := Split(s[1..], sep);
      if s[0] == sep {
        assert ([""] + rest)[1..] == rest;
        assert s == [sep] + s[1..];
      } else {
        var r := [[s[0]] + rest[0]] + rest[1..];
        assert r[1..] == rest[1..];
        if |rest| == 1 {
          assert s == [s[0]] + rest[0];
        } else {
          assert Join(rest, sep) == rest[0] + [sep] + Join(rest[1..], sep);
          assert s == [s[0]] + s[1..];
        }
      }
    }
  }

  /** `str::find` for a character: the index of its first occurrence, if any. */
  function Find(s: string, c: char): (r: Option<nat>)
    ensures r.None? <==> c !in s
    ensures r.Some? ==> r.value < |s| && s[r.value] == c && c !in s[..r.value]
    decreases |s|
  {
    if s == [] then None
    else if s[0] == c then Some(0)
    else
      match Find(s[1..], c)
      case None => None
      case Some(i) =>
        assert s[..i + 1] == [s[0]] + s[1..][..i];
        Some(i + 1)
  }

  // ---------------------------------------------------------------------------
  // Decimal digits
  // ---------------------------------------------------------------------------

  predicate IsDigit(c: char) {
    '0' <= c <= '9'
  }

  predicate AllDigits(s: string) {
    forall i :: 0 <= i < |s| ==> IsDigit(s[i])
  }

  function DigitValue(c: char): nat
    requires IsDigit(c)
  {
    c as int - '0' as int
  }

  function DigitChar(d: nat): (c: char)
    requires d < 10
    ensures IsDigit(c) && DigitValue(c) == d
  {
    ('0' as int + d) as char
  }

  /** Value of the digits `ds` read after an accumulated value `acc` (Horner's rule). */
  function Horner(ds: string, acc: int): int
    requires AllDigits(ds)
    decreases |ds|
  {
    if ds == [] then acc else Horner(ds[1..], acc * 10 + DigitValue(ds[0]))
  }

  /** The number a string of decimal digits denotes. */
  function DigitsValue(ds: string): nat
    requires AllDigits(ds)
  {
    HornerAtLeast(ds, 0);
    Horner(ds, 0)
  }

  lemma {:induction false} HornerAtLeast(ds: string, acc: int)
    requires AllDigits(ds) && acc >= 0
    ensures Horner(ds, acc) >= acc
    decreases |ds|
  {
    if ds != [] {
      HornerAtLeast(ds[1..], acc * 10 + DigitValue(ds[0]));
    }
  }

  lemma {:induction false} HornerSnoc(ds: string, d: char, acc: int)
    requires AllDigits(ds) && IsDigit(d)
    ensures AllDigits(ds + [d])
    ensures Horner(ds + [d], acc) == Horner(ds, acc) * 10 + DigitValue(d)
    decreases |ds|
  {
    if ds == [] {
      assert [] + [d] == [d];
    } else {
      assert (ds + [d])[1..] == ds[1..] + [d];
      HornerSnoc(ds[1..], d, acc * 10 + DigitValue(ds[0]));
    }
  }

  /** `format!("{n}")` for a natural number. */
  function NatToDecimal(n: nat): (r: string)
    ensures r != [] && AllDigits(r)
  {
    if n < 10 then [DigitChar(n)] else NatToDecimal(n / 10) + [DigitChar(n % 10)]
  }

  /** Reading back the decimal text of `n` gives `n`. */
  lemma {:induction false} NatToDecimalValue(n: nat)
    ensures DigitsValue(NatToDecimal(n)) == n
  {
    if n >= 10 {
      var ds, d := NatToDecimal(n / 10), DigitChar(n % 10);
      NatToDecimalValue(n / 10);
      HornerSnoc(ds, d, 0);
      assert NatToDecimal(n) == ds + [d];
      assert DigitsValue(ds) == n / 10;
      assert Horner(ds + [d], 0) == (n / 10) * 10 + n % 10;
      assert (n / 10) * 10 + n % 10 == n;
    } else {
      var ds := NatToDecimal(n);
      assert Horner(ds, 0) == Horner(ds[1..], DigitValue(ds[0]));
    }
  }

  /** `format!("{i}")` for an integer. */
  function IntToDecimal(i: int): string {
    if i < 0 then "-" + NatToDecimal(-i) else NatToDecimal(i)
  }

  // ---------------------------------------------------------------------------
  // Integer parsing (`str::parse::<iN>()` / `::<uN>()`)
  // ---------------------------------------------------------------------------

  /** The kinds of Rust's `ParseIntError`. */
  datatype IntErrorKind = Empty | InvalidDigit | PosOverflow | NegOverflow

  /** The digit loop of Rust's `from_str_radix` for radix 10: a non-digit is reported
      before the overflow the same position would cause; a positive number overflows
      above `max`, a negative one below `min`. */
  function ScanDigits(ds: string, acc: int, negative: bool, min: int, max: int): (r: Result<int, IntErrorKind>)
    ensures ds != [] && r.Ok? ==> min <= r.value <= max
    decreases |ds|
  {
    if ds == [] then Ok(acc)
    else if !IsDigit(ds[0]) then Err(InvalidDigit)
    else
      var next := if negative then acc * 10 - DigitValue(ds[0]) else acc * 10 + DigitValue(ds[0]);
      if next > max then Err(PosOverflow)
      else if next < min then Err(NegOverflow)
      else ScanDigits(ds[1..], next, negative, min, max)
  }

  /** `str::parse` for an integer type whose range is `min..=max`; `signed` says
      whether a leading `-` is allowed. */
  function ParseInt(s: string, signed: bool, min: int, max: int): (r: Result<int, IntErrorKind>)
    ensures r.Ok? ==> min <= r.value <= max
  {
    if s == [] then Err(Empty)
    else if |s| == 1 && (s[0] == '+' || s[0] == '-') then Err(InvalidDigit)
    else if s[0] == '+' then ScanDigits(s[1..], 0, false, min, max)
    else if s[0] == '-' && signed then ScanDigits(s[1..], 0, true, min, max)
    else ScanDigits(s, 0, false, min, max)
  }

  /** An integer literal Rust accepts: an optional `+` (or `-` when signed) followed by
      at least one decimal digit. */
  predicate IsIntLiteral(s: string, signed: bool) {
    if |s| >= 2 && (s[0] == '+' || (signed && s[0] == '-')) then AllDigits(s[1..])
    else s != [] && AllDigits(s)
  }

  function LiteralValue(s: string, signed: bool): int
    requires IsIntLiteral(s, signed)
  {
    if |s| >= 2 && s[0] == '+' then DigitsValue(s[1..])
    else if |s| >= 2 && signed && s[0] == '-' then 0 - DigitsValue(s[1..])
    else DigitsValue(s)
  }

  lemma {:induction false} ScanPositive(ds: string, acc: int, min: int, max: int)
    requires AllDigits(ds) && min <= 0 <= acc <= max
    ensures var v := Horner(ds, acc);
      ScanDigits(ds, acc, false, min, max) == if v <= max then Ok(v) else Err(PosOverflow)
    decreases |ds|
  {
    if ds != [] {
      var next := acc * 10 + DigitValue(ds[0]);
      HornerAtLeast(ds[1..], next);
      if next <= max {
        ScanPositive(ds[1..], next, min, max);
      }
    }
  }

  lemma {:induction false} ScanNegative(ds: string, acc: int, min: int, max: int)
    requires AllDigits(ds) && min <= acc <= 0 <= max
    ensures var v := -Horner(ds, -acc);
      ScanDigits(ds, acc, true, min, max) == if v >= min then Ok(v) else Err(NegOverflow)
    decreases |ds|
  {
    if ds != [] {
      var next := acc * 10 - DigitValue(ds[0]);
      assert -next == -acc * 10 + DigitValue(ds[0]);
      HornerAtLeast(ds[1..], -next);
      if next >= min {
        ScanNegative(ds[1..], next, min, max);
      }
    }
  }

  lemma {:induction false} ScanRejectsNonDigits(ds: string, acc: int, negative: bool, min: int, max: int)
    requires !AllDigits(ds)
    ensures ScanDigits(ds, acc, negative, min, max).Err?
    decreases |ds|
  {
    if IsDigit(ds[0]) {
      var i :| 0 <= i < |ds| && !IsDigit(ds[i]);
      assert !IsDigit(ds[1..][i - 1]);
      var next := if negative then acc * 10 - DigitValue(ds[0]) else acc * 10 + DigitValue(ds[0]);
      if min <= next <= max {
        ScanRejectsNonDigits(ds[1..], next, negative, min, max);
      }
    }
  }

  /** `ParseInt` succeeds exactly on the integer literals whose value lies in
      `min..=max`, and then returns that value. */
  lemma ParseIntSpec(s: string, signed: bool, min: int, max: int)
    requires min <= 0 <= max
    ensures ParseInt(s, signed, min, max).Ok? <==>
      IsIntLiteral(s, signed) && min <= LiteralValue(s, signed) <= max
    ensures ParseInt(s, signed, min, max).Ok? ==>
      ParseInt(s, signed, min, max).value == LiteralValue(s, signed)
  {
    if s == [] || (|s| == 1 && (s[0] == '+' || s[0] == '-')) {
    } else if s[0] == '+' {
      if AllDigits(s[1..]) { ScanPositive(s[1..], 0, min, max); }
      else { ScanRejectsNonDigits(s[1..], 0, false, min, max); }
    } else if s[0] == '-' && signed {
      if AllDigits(s[1..]) { ScanNegative(s[1..], 0, min, max); }
      else { ScanRejectsNonDigits(s[1..], 0, true, min, max); }
    } else {
      if AllDigits(s) { ScanPositive(s, 0, min, max); }
      else { ScanRejectsNonDigits(s, 0, false, min, max); }
    }
  }

  /** Formatting an in-range integer and parsing it back gives the integer. */
  lemma ParseIntOfDecimal(i: int, signed: bool, min: int, max: int)
    requires min <= 0 <= max && min <= i <= max
    requires i < 0 ==> signed
    ensures ParseInt(IntToDecimal(i), signed, min, max) == Ok(i)
  {
    var s := IntToDecimal(i);
    if i < 0 {
      NatToDecimalValue(-i);
      assert s[1..] == NatToDecimal(-i);
    } else {
      NatToDecimalValue(i);
    }
    ParseIntSpec(s, signed, min, max);
  }
}
