/** `parse_regex_line` (src/bin/importer.rs): the first line of a non-JSON input is
    matched against the configured regex, and the capture groups are paired, by
    position, with the configured attribute names under the rules of
    `zip_longest`. The regex engine itself is not modelled: a `Regex` is given by what
    its first match on a line captures. */
module RegexLine {
  import opened Wrappers
  import opened Strings
  import opened Api
  import opened Coerce

  /** A compiled regex, seen through `captures_iter(line).next()`: the groups 1.. of
      the first match (`None` for a group that did not take part), or `None` when the
      line does not match. */
  datatype Regex = Regex(firstMatch: string -> Option<seq<Option<string>>>)

  datatype RegexLineError =
    | NoRegex                              // no `--non-json-regex` configured
    | NoLine                               // `lines().next()` found nothing
    | NoMatch(text: string)                // the first line does not match
    | CaptureMissing                       // a named group did not take part in the match
    | AttrWithoutCapture(attr: AttrKey)    // more names than groups
    | CaptureWithoutAttr(capture: string)  // more groups than names
    | ExtraCaptureMissing                  // more groups than names, and the extra one is empty

  /** `str::lines().next()`: the text before the first `\n`, less a `\r` right before
      it; nothing for the empty text. */
  function FirstLine(s: string): (r: Option<string>)
    ensures r.None? <==> s == []
    ensures r.Some? ==> r.value <= s && '\n' !in r.value
    ensures r.Some? ==> var t := s[|r.value|..];
      t == [] || t[0] == '\n' || (|t| >= 2 && t[0] == '\r' && t[1] == '\n')
    ensures r.Some? && |r.value| < |s| && s[|r.value|] == '\n' ==>
      r.value == [] || r.value[|r.value| - 1] != '\r'
  {
    if s == [] then None
    else
      match Find(s, '\n')
      case None => Some(s)
      case Some(p) =>
        if p > 0 && s[p - 1] == '\r' then
          assert s[..p - 1] == s[..p][..p - 1];
          Some(s[..p - 1])
        else Some(s[..p])
  }

  /** A text that starts with a non-whitespace character has a non-empty first line,
      so the tail after it is strictly shorter. */
  lemma FirstLineNonEmpty(s: string)
    requires s != [] && !IsWhitespace(s[0])
    ensures FirstLine(s).Some? && FirstLine(s).value != []
  {
  }

  /** The `zip_longest` loop over names and groups, from the front: a pair for each
      name with a group that took part, and the first mismatch ends it with an error. */
  function ZipCaptures(attrs: seq<AttrKey>, caps: seq<Option<string>>, newAttrVal: NewAttrVal): (r: Result<seq<(AttrKey, AttrVal)>, RegexLineError>)
    ensures r.Ok? <==> |attrs| == |caps| && forall j :: 0 <= j < |caps| ==> caps[j].Some?
    ensures r.Ok? ==>
      (|r.value| == |attrs| &&
       forall j :: 0 <= j < |attrs| ==> r.value[j] == (attrs[j], StringToAttrVal(caps[j].value, newAttrVal)))
    decreases |attrs|
  {
    if attrs == [] && caps == [] then Ok([])
    else if attrs == [] then
      Err(if caps[0].Some? then CaptureWithoutAttr(caps[0].value) else ExtraCaptureMissing)
    else if caps == [] then Err(AttrWithoutCapture(attrs[0]))
    else if caps[0].None? then Err(CaptureMissing)
    else
      match ZipCaptures(attrs[1..], caps[1..], newAttrVal)
      case Err(e) => Err(e)
      case Ok(rest) =>
        assert forall j :: 1 <= j < |caps| ==> caps[j] == caps[1..][j - 1];
        Ok([(attrs[0], StringToAttrVal(caps[0].value, newAttrVal))] + rest)
  }

  /** The result of the loop after `out` has been produced for the first pairs. */
  function Prefixed(out: seq<(AttrKey, AttrVal)>, r: Result<seq<(AttrKey, AttrVal)>, RegexLineError>): Result<seq<(AttrKey, AttrVal)>, RegexLineError> {
    match r
    case Ok(rest) => Ok(out + rest)
    case Err(e) => Err(e)
  }

  /** A name with a group that took part gives the first pair, and the loop goes on
      with the rest. */
  lemma ZipCapturesCons(attrs: seq<AttrKey>, caps: seq<Option<string>>, newAttrVal: NewAttrVal)
    requires attrs != [] && caps != [] && caps[0].Some?
    ensures ZipCaptures(attrs, caps, newAttrVal) ==
      Prefixed([(attrs[0], StringToAttrVal(caps[0].value, newAttrVal))], ZipCaptures(attrs[1..], caps[1..], newAttrVal))
  {
  }

  /** Pairs produced in two runs are produced in one. */
  lemma PrefixedPrefixed(a: seq<(AttrKey, AttrVal)>, b: seq<(AttrKey, AttrVal)>,
                         r: Result<seq<(AttrKey, AttrVal)>, RegexLineError>)
    ensures Prefixed(a, Prefixed(b, r)) == Prefixed(a + b, r)
  {
    match r
    case Ok(rest) => assert a + (b + rest) == a + b + rest;
    case Err(_) =>
  }

  /** Past a run of pairs whose groups took part, the loop goes on from there. */
  lemma {:induction false} ZipCapturesSkip(attrs: seq<AttrKey>, caps: seq<Option<string>>, k: nat, newAttrVal: NewAttrVal)
    requires k <= |attrs| && k <= |caps|
    requires forall j :: 0 <= j < k ==> caps[j].Some?
    ensures ZipCaptures(attrs[..k], caps[..k], newAttrVal).Ok?
    ensures ZipCaptures(attrs, caps, newAttrVal) ==
      Prefixed(ZipCaptures(attrs[..k], caps[..k], newAttrVal).value, ZipCaptures(attrs[k..], caps[k..], newAttrVal))
    decreases k
  {
    if k == 0 {
      assert attrs[0..] == attrs && caps[0..] == caps;
      assert attrs[..0] == [] && caps[..0] == [];
      match ZipCaptures(attrs, caps, newAttrVal)
      case Ok(rest) => assert [] + rest == rest;
      case Err(_) =>
    } else {
      var a1, c1 := attrs[1..], caps[1..];
      ZipCapturesSkip(a1, c1, k - 1, newAttrVal);
      assert a1[k - 1..] == attrs[k..] && c1[k - 1..] == caps[k..];
      var mid := ZipCaptures(a1[..k - 1], c1[..k - 1], newAttrVal).value;
      var p0 := (attrs[0], StringToAttrVal(caps[0].value, newAttrVal));
      ZipCapturesCons(attrs, caps, newAttrVal);
      ZipCapturesCons(attrs[..k], caps[..k], newAttrVal);
      assert attrs[..k][1..] == a1[..k - 1] && caps[..k][1..] == c1[..k - 1];
      assert ZipCaptures(attrs[..k], caps[..k], newAttrVal) == Ok([p0] + mid);
      PrefixedPrefixed([p0], mid, ZipCaptures(attrs[k..], caps[k..], newAttrVal));
    }
  }

  /** The error `zip_longest` stops at: after the groups that took part, a group that
      did not is `CaptureMissing`; a name left over is `AttrWithoutCapture`; a group
      left over is `CaptureWithoutAttr` (or `ExtraCaptureMissing` if it is empty). */
  lemma ZipCapturesErrors(attrs: seq<AttrKey>, caps: seq<Option<string>>, k: nat, newAttrVal: NewAttrVal)
    requires k <= |attrs| && k <= |caps|
    requires forall j :: 0 <= j < k ==> caps[j].Some?
    ensures k < |attrs| && k < |caps| && caps[k].None? ==>
      ZipCaptures(attrs, caps, newAttrVal) == Err(CaptureMissing)
    ensures k == |caps| < |attrs| ==>
      ZipCaptures(attrs, caps, newAttrVal) == Err(AttrWithoutCapture(attrs[k]))
    ensures k == |attrs| < |caps| ==>
      ZipCaptures(attrs, caps, newAttrVal) ==
        Err(if caps[k].Some? then CaptureWithoutAttr(caps[k].value) else ExtraCaptureMissing)
  {
    ZipCapturesSkip(attrs, caps, k, newAttrVal);
    assert k < |attrs| ==> attrs[k..][0] == attrs[k];
    assert k < |caps| ==> caps[k..][0] == caps[k];
  }

  /** `parse_regex_line` as a function of its inputs: the tail returned is the
      input from the end of the first line on. */
  function RegexLineSpec(s: string, re: Option<Regex>, attrs: seq<AttrKey>, newAttrVal: NewAttrVal): Result<(string, seq<(AttrKey, AttrVal)>), RegexLineError> {
    if re.None? then Err(NoRegex)
    else
      match FirstLine(s)
      case None => Err(NoLine)
      case Some(line) =>
        match re.value.firstMatch(line)
        case None => Err(NoMatch(s))
        case Some(caps) =>
          match ZipCaptures(attrs, caps, newAttrVal)
          case Err(e) => Err(e)
          case Ok(kvs) => Ok((s[|line|..], kvs))
  }

  /** `parse_regex_line`: find the first line, match it, and pair the names with
      the groups. */
  method ParseRegexLine(s: string, re: Option<Regex>, attrs: seq<AttrKey>, newAttrVal: NewAttrVal)
    returns (r: Result<(string, seq<(AttrKey, AttrVal)>), RegexLineError>)
    ensures r == RegexLineSpec(s, re, attrs, newAttrVal)
  {
    if re.None? {
      return Err(NoRegex);
    }
    var line := FirstLine(s);
    if line.None? {
      return Err(NoLine);
    }
    var tail := s[|line.value|..];
    var caps := re.value.firstMatch(line.value);
    if caps.None? {
      return Err(NoMatch(s));
    }
    var cs := caps.value;
    var zipped := ZipCaptureLoop(attrs, cs, newAttrVal);
    r := match zipped
      case Err(e) => Err(e)
      case Ok(kvs) => Ok((tail, kvs));
  }

  /** The `zip_longest` loop of `parse_regex_line`: push one attribute per name and
      group while walking both in step. */
  method ZipCaptureLoop(attrs: seq<AttrKey>, cs: seq<Option<string>>, newAttrVal: NewAttrVal)
    returns (r: Result<seq<(AttrKey, AttrVal)>, RegexLineError>)
    ensures r == ZipCaptures(attrs, cs, newAttrVal)
  {
    var out := [];
    var i := 0;
    while i < |attrs| || i < |cs|
      invariant i <= |attrs| && i <= |cs|
      invariant forall j :: 0 <= j < i ==> cs[j].Some?
      invariant |out| == i
      invariant forall j :: 0 <= j < i ==> out[j] == (attrs[j], StringToAttrVal(cs[j].value, newAttrVal))
      decreases |attrs| + |cs| - 2 * i
    {
      if i == |attrs| {
        ZipCapturesErrors(attrs, cs, i, newAttrVal);
        if cs[i].None? {
          return Err(ExtraCaptureMissing);
        }
        return Err(CaptureWithoutAttr(cs[i].value));
      } else if i == |cs| {
        ZipCapturesErrors(attrs, cs, i, newAttrVal);
        return Err(AttrWithoutCapture(attrs[i]));
      } else if cs[i].None? {
        ZipCapturesErrors(attrs, cs, i, newAttrVal);
        return Err(CaptureMissing);
      }
      out := out + [(attrs[i], StringToAttrVal(cs[i].value, newAttrVal))];
      i := i + 1;
    }
    assert ZipCaptures(attrs, cs, newAttrVal).value == out;
    r := Ok(out);
  }

  /** On success the names are paired in order with what their groups captured; the
      tail starts at the line break that ends the first line; and the input is the
      line followed by the tail. */
  lemma RegexLineOk(s: string, re: Option<Regex>, attrs: seq<AttrKey>, newAttrVal: NewAttrVal)
    requires RegexLineSpec(s, re, attrs, newAttrVal).Ok?
    ensures re.Some? && FirstLine(s).Some?
    ensures var line := FirstLine(s).value;
      var (tail, kvs) := RegexLineSpec(s, re, attrs, newAttrVal).value;
      var caps := re.value.firstMatch(line);
      && caps.Some? && |caps.value| == |attrs| == |kvs|
      && (forall j :: 0 <= j < |attrs| ==>
            caps.value[j].Some? && kvs[j] == (attrs[j], StringToAttrVal(caps.value[j].value, newAttrVal)))
      && s == line + tail
      && (tail == [] || tail[0] == '\n' || tail[..2] == "\r\n")
      && (tail != [] && tail[0] == '\n' ==> line == [] || line[|line| - 1] != '\r')
  {
    var line := FirstLine(s).value;
    assert s == line + s[|line|..];
  }

  /** The errors before the pairing: no regex, and a first line that does not match
      (which quotes the whole remaining input). */
  lemma RegexLineEarlyErrors(s: string, re: Option<Regex>, attrs: seq<AttrKey>, newAttrVal: NewAttrVal)
    ensures re.None? ==> RegexLineSpec(s, re, attrs, newAttrVal) == Err(NoRegex)
    ensures re.Some? && s != [] && re.value.firstMatch(FirstLine(s).value).None? ==>
      RegexLineSpec(s, re, attrs, newAttrVal) == Err(NoMatch(s))
  {
  }

  /** Input that starts with a non-whitespace character always shrinks. */
  lemma RegexLineProgress(s: string, re: Option<Regex>, attrs: seq<AttrKey>, newAttrVal: NewAttrVal)
    requires s != [] && !IsWhitespace(s[0])
    requires RegexLineSpec(s, re, attrs, newAttrVal).Ok?
    ensures |RegexLineSpec(s, re, attrs, newAttrVal).value.0| < |s|
  {
    FirstLineNonEmpty(s);
  }
}
