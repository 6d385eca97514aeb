/** The importer's per-input loop (src/bin/importer.rs, `do_main`): the text of an
    input is consumed item by item. A JSON array or object is parsed and its values
    become pending; any other line is matched by the non-JSON regex and its
    attributes become extra attributes. Whenever values are pending they are
    prepared in turn, all with the same extra attributes, each under the next
    ordering; then the pending values and the extra attributes are cleared. The first
    error ends the import. */
module InputLoop {
  import opened Wrappers
  import opened Strings
  import opened Api
  import opened JsonValue
  import opened Config
  import opened RegexLine
  import opened Assemble

  /** serde_json's deserializer run on the front of a text (`json_from_str`): the
      value and how many characters it consumed, or the parse error. */
  type JsonParser = string -> Result<(Json, nat), string>

  /** A value is never empty text: a successful parse consumes at least one
      character and no more than there are. */
  ghost predicate Progresses(parse: JsonParser) {
    forall t :: parse(t).Ok? ==> 0 < parse(t).value.1 <= |t|
  }

  /** What preparing one value leaves behind: the event or the error, and the
      registry and the allocator's state afterwards. */
  datatype Preparation = Preparation(result: Result<ReadyToSendEvent, PrepareError>,
                                     ids: map<Signature, TimelineId>, next: nat)

  /** `prepare_json_object` as the loop uses it: a value and the batch's extra
      attributes, with the registry and the allocator's state, give the outcome. */
  type Preparer = (Json, seq<Kv>, map<Signature, TimelineId>, nat) -> Preparation

  /** What the loop works with besides the text: the plugin configuration, the
      JSON parser, the compiled non-JSON regex, `AttrVal`'s `Display`,
      `BigInt::new_attr_val`, and the preparation the loop is stated over. */
  datatype Env = Env(cfg: PluginConfig, parse: JsonParser, re: Option<Regex>, display: Display,
                     newAttrVal: NewAttrVal, step: Stepper, prepare: Preparer)

  /** What the top of the loop finds in the remaining text: nothing but whitespace,
      an item it cannot read, or an item with the text after it, the values it makes
      pending and the extra attributes it adds. */
  datatype Turn =
    | End
    | Failed(error: ImportError)
    | Item(rest: string, vals: seq<Json>, kvs: seq<Kv>)

  /** The top of the loop as the loop is stated over it. */
  type Stepper = string -> Turn

  /** The preparation is `prepare_json_object` for this configuration, with the
      allocator's next id as the fresh one; the allocator moves on exactly when a
      timeline was added. */
  ghost predicate PreparesAsSpecified(env: Env) {
    forall v, extra, ids, next {:trigger Prepare(v, extra, env.cfg, ids, TimelineId(next), env.display, env.newAttrVal)} ::
      var p := Prepare(v, extra, env.cfg, ids, TimelineId(next), env.display, env.newAttrVal);
      env.prepare(v, extra, ids, next) == Preparation(p.result, p.ids, NextAfter(ids, p.ids, next))
  }

  datatype ImportError =
    | JsonError(msg: string)            // serde_json rejected the text
    | ExpectedArray                     // text starting with `[` parsed to a non-array
    | RegexError(e: RegexLineError)     // `parse_regex_line` failed
    | PrepareFailed(p: PrepareError)    // `prepare_json_object` failed

  /** An event handed to `send_event_on_timeline`, with its ordering. */
  datatype Sent = Sent(event: ReadyToSendEvent, ordering: nat)

  /** The events handed on, in order, the error that ended the loop (if any), and
      the registry, the allocator and the ordering counter afterwards. */
  datatype Outcome = Outcome(sent: seq<Sent>, error: Option<ImportError>,
                             ids: map<Signature, TimelineId>, next: nat, ordering: nat)

  /** `r` after the events `sent` handed on before it. */
  function After(sent: seq<Sent>, r: Outcome): Outcome {
    Outcome(sent + r.sent, r.error, r.ids, r.next, r.ordering)
  }

  /** Handing on `a` and then `b` before `r` is handing on `a + b` before it. */
  lemma AfterAfter(a: seq<Sent>, b: seq<Sent>, r: Outcome)
    ensures After(a, After(b, r)) == After(a + b, r)
  {
    assert a + (b + r.sent) == (a + b) + r.sent;
  }

  /** `ev` is what preparing `v` with the extra attributes `extra` gives, for some
      state of the registry and the allocator. */
  ghost predicate PreparedFrom(env: Env, v: Json, extra: seq<Kv>, ev: ReadyToSendEvent) {
    exists ids: map<Signature, TimelineId>, next: nat :: env.prepare(v, extra, ids, next).result == Ok(ev)
  }

  // ---------------------------------------------------------------------------
  // One item
  // ---------------------------------------------------------------------------

  /** One item at the front of a text that starts with a non-whitespace character:
      the rest of the text, the values it makes pending and the extra attributes it
      adds. A `[` must parse to an array, whose elements become pending; a `{` makes
      whatever it parses to pending; anything else is a regex line. */
  function ReadItem(env: Env, s: string): (r: Result<(string, seq<Json>, seq<Kv>), ImportError>)
    requires Progresses(env.parse)
    requires s != [] && !IsWhitespace(s[0])
    ensures r.Ok? ==> |r.value.0| < |s| && r.value.0 == s[|s| - |r.value.0|..]
    ensures r.Ok? && (s[0] == '[' || s[0] == '{') ==> r.value.2 == []
    ensures r.Ok? && s[0] != '[' && s[0] != '{' ==> r.value.1 == []
    ensures r.Ok? && s[0] == '{' ==> |r.value.1| == 1
  {
    if s[0] == '[' || s[0] == '{' then
      match env.parse(s)
      case Err(msg) => Err(JsonError(msg))
      case Ok((v, n)) =>
        if s[0] == '{' then Ok((s[n..], [v], []))
        else if v.JArray? then Ok((s[n..], v.items, []))
        else Err(ExpectedArray)
    else
      match RegexLineSpec(s, env.re, env.cfg.nonJsonAttrs, env.newAttrVal)
      case Err(e) => Err(RegexError(e))
      case Ok((rest, kvs)) =>
        RegexLineProgress(s, env.re, env.cfg.nonJsonAttrs, env.newAttrVal);
        assert s == FirstLine(s).value + rest by {
          RegexLineOk(s, env.re, env.cfg.nonJsonAttrs, env.newAttrVal);
        }
        Ok((rest, [], kvs))
  }

  /** The branch of the loop body that reads one item: `parse_array`, `parse_obj`
      or `parse_regex_line`. */
  method NextItem(env: Env, s: string) returns (r: Result<(string, seq<Json>, seq<Kv>), ImportError>)
    requires Progresses(env.parse)
    requires s != [] && !IsWhitespace(s[0])
    ensures r == ReadItem(env, s)
  {
    if s[0] == '[' {
      var parsed := env.parse(s);
      if parsed.Err? {
        return Err(JsonError(parsed.error));
      }
      var (json, n) := parsed.value;
      if !json.JArray? {
        return Err(ExpectedArray);
      }
      return Ok((s[n..], json.items, []));
    } else if s[0] == '{' {
      var parsed := env.parse(s);
      if parsed.Err? {
        return Err(JsonError(parsed.error));
      }
      var (json, n) := parsed.value;
      return Ok((s[n..], [json], []));
    }
    var line := ParseRegexLine(s, env.re, env.cfg.nonJsonAttrs, env.newAttrVal);
    if line.Err? {
      return Err(RegexError(line.error));
    }
    var (rest, kvs) := line.value;
    return Ok((rest, [], kvs));
  }

  /** The top of the loop: `trim_start`, then the end of the text or one item. */
  function NextTurn(env: Env, s: string): (r: Turn)
    requires Progresses(env.parse)
    ensures r.End? <==> AllWhitespace(s)
    ensures r.Item? ==> |r.rest| < |s|
  {
    var t := TrimStart(s);
    if t == [] then
      assert s[..|s|] == s;
      End
    else
      assert s[|s| - |t|] == t[0];
      match ReadItem(env, t)
      case Err(e) => Failed(e)
      case Ok((rest, vals, kvs)) => Item(rest, vals, kvs)
  }

  /** The stepper the loop is stated over is `NextTurn` for this parser, regex and
      configuration, and what it leaves is shorter than what it was given. */
  ghost predicate StepsAsSpecified(env: Env) {
    && Progresses(env.parse)
    && (forall s {:trigger NextTurn(env, s)} :: env.step(s) == NextTurn(env, s))
    && StepShrinks(env)
  }

  /** Every item read takes at least one character. */
  ghost predicate StepShrinks(env: Env) {
    forall s {:trigger env.step(s)} :: env.step(s).Item? ==> |env.step(s).rest| < |s|
  }

  /** The last conjunct of `StepsAsSpecified` follows from the others. */
  lemma NextTurnShrinks(env: Env)
    requires Progresses(env.parse)
    requires forall s {:trigger NextTurn(env, s)} :: env.step(s) == NextTurn(env, s)
    ensures StepShrinks(env)
  {
    forall s | env.step(s).Item?
      ensures |env.step(s).rest| < |s|
    {
      assert env.step(s) == NextTurn(env, s);
    }
  }

  /** The top of the loop body: skip whitespace and, unless the text is used up,
      read one item. */
  method TakeTurn(env: Env, s: string) returns (r: Turn)
    requires StepsAsSpecified(env)
    ensures r == env.step(s)
  {
    var t := TrimStart(s);
    if t == [] {
      r := End;
    } else {
      var item := NextItem(env, t);
      r := if item.Err? then Failed(item.error) else Item(item.value.0, item.value.1, item.value.2);
    }
    assert r == NextTurn(env, s);
  }

  // ---------------------------------------------------------------------------
  // The flush
  // ---------------------------------------------------------------------------

  /** Preparing the pending values from position `from` on, in turn, all with the
      same extra attributes, stopping at the first error; the value at position `i`
      goes out under the ordering `base + i`. */
  function FlushSpec(env: Env, vals: seq<Json>, from: nat, extra: seq<Kv>, base: nat,
                     ids: map<Signature, TimelineId>, next: nat): Outcome
    requires from <= |vals|
    decreases |vals| - from
  {
    if from == |vals| then Outcome([], None, ids, next, base + from)
    else
      var p := env.prepare(vals[from], extra, ids, next);
      match p.result
      case Err(e) => Outcome([], Some(PrepareFailed(e)), p.ids, p.next, base + from)
      case Ok(ev) => After([Sent(ev, base + from)], FlushSpec(env, vals, from + 1, extra, base, p.ids, p.next))
  }

  /** One step of a flush: the value at `from` is prepared, and an error ends the
      flush there. */
  lemma FlushStep(env: Env, vals: seq<Json>, from: nat, extra: seq<Kv>, base: nat,
                  ids: map<Signature, TimelineId>, next: nat)
    requires from < |vals|
    ensures var p := env.prepare(vals[from], extra, ids, next);
      var r := FlushSpec(env, vals, from, extra, base, ids, next);
      && (p.result.Err? ==> r == Outcome([], Some(PrepareFailed(p.result.error)), p.ids, p.next, base + from))
      && (p.result.Ok? ==>
            r == After([Sent(p.result.value, base + from)], FlushSpec(env, vals, from + 1, extra, base, p.ids, p.next)))
  {
  }

  /** `prepare_json_object` on one pending value, seen as the loop's preparation. */
  method PrepareValue(env: Env, v: Json, extra: seq<Kv>, known: KnownTimelines)
    returns (r: Result<ReadyToSendEvent, PrepareError>)
    modifies known
    requires PreparesAsSpecified(env)
    requires known.Valid()
    ensures known.Valid()
    ensures env.prepare(v, extra, old(known.ids), old(known.next)) == Preparation(r, known.ids, known.next)
  {
    r := PrepareJsonObject(v, extra, env.cfg, known, env.display, env.newAttrVal);
  }

  /** One turn of the `for val in pending_json_vals` loop: prepare the value at
      position `i` and, on success, hand it on under `ordering`. */
  method FlushItem(env: Env, vals: seq<Json>, i: nat, extra: seq<Kv>, base: nat, ordering: nat,
                   known: KnownTimelines)
    returns (sent: Sent, err: Option<ImportError>)
    modifies known
    requires PreparesAsSpecified(env)
    requires known.Valid()
    requires i < |vals| && ordering == base + i
    ensures known.Valid()
    ensures FlushSpec(env, vals, i, extra, base, old(known.ids), old(known.next)) ==
      if err.Some? then Outcome([], err, known.ids, known.next, ordering)
      else After([sent], FlushSpec(env, vals, i + 1, extra, base, known.ids, known.next))
  {
    FlushStep(env, vals, i, extra, base, known.ids, known.next);
    var prepared := PrepareValue(env, vals[i], extra, known);
    if prepared.Err? {
      return Sent(ReadyToSendEvent(TimelineId(0), [], []), 0), Some(PrepareFailed(prepared.error));
    }
    sent, err := Sent(prepared.value, ordering), None;
  }

  /** The `for val in pending_json_vals` loop: each prepared event is handed on under
      the current ordering, which then goes up by one. */
  method Flush(env: Env, vals: seq<Json>, extra: seq<Kv>, base: nat, known: KnownTimelines)
    returns (sent: seq<Sent>, err: Option<ImportError>, ordering: nat)
    modifies known
    requires PreparesAsSpecified(env)
    requires known.Valid()
    ensures known.Valid()
    ensures Outcome(sent, err, known.ids, known.next, ordering) ==
      FlushSpec(env, vals, 0, extra, base, old(known.ids), old(known.next))
  {
    ghost var whole := FlushSpec(env, vals, 0, extra, base, known.ids, known.next);
    sent := [];
    ordering := base;
    var i := 0;
    assert [] + whole.sent == whole.sent;
    while i < |vals|
      invariant 0 <= i <= |vals|
      invariant known.Valid()
      invariant ordering == base + i
      invariant whole == After(sent, FlushSpec(env, vals, i, extra, base, known.ids, known.next))
    {
      var one, failed := FlushItem(env, vals, i, extra, base, ordering, known);
      if failed.Some? {
        assert sent + [] == sent;
        return sent, failed, ordering;
      }
      ghost var r' := FlushSpec(env, vals, i + 1, extra, base, known.ids, known.next);
      assert whole == After(sent, After([one], r'));
      AfterAfter(sent, [one], r');
      sent := sent + [one];
      ordering := ordering + 1;
      i := i + 1;
    }
    assert sent + [] == sent;
    err := None;
  }

  // ---------------------------------------------------------------------------
  // The loop over one input
  // ---------------------------------------------------------------------------

  /** The loop over one input's text, from a state with the given extra attributes
      and ordering (and, as at every turn of the loop, nothing pending). */
  function ImportSpec(env: Env, s: string, extra: seq<Kv>, ordering: nat,
                      ids: map<Signature, TimelineId>, next: nat): Outcome
    requires StepShrinks(env)
    decreases |s|
  {
    match env.step(s)
    case End => Outcome([], None, ids, next, ordering)
    case Failed(e) => Outcome([], Some(e), ids, next, ordering)
    case Item(rest, vals, kvs) =>
      if vals == [] then ImportSpec(env, rest, extra + kvs, ordering, ids, next)
      else
        var f := FlushSpec(env, vals, 0, extra + kvs, ordering, ids, next);
        if f.error.Some? then f
        else After(f.sent, ImportSpec(env, rest, [], f.ordering, f.ids, f.next))
  }

  /** One turn of the loop: skip whitespace, read one item, and flush what is
      pending if the item brought JSON values. `done` means the loop ends here, at the
      end of the text or with `err`; otherwise it goes on with `rest`, `extra'` and
      `ordering'`. */
  method ImportItem(env: Env, s: string, extra: seq<Kv>, ordering: nat, known: KnownTimelines)
    returns (rest: string, extra': seq<Kv>, ordering': nat, batch: seq<Sent>,
             done: bool, err: Option<ImportError>)
    modifies known
    requires StepsAsSpecified(env) && PreparesAsSpecified(env)
    requires known.Valid()
    ensures known.Valid()
    ensures !done ==> err.None? && |rest| < |s|
    ensures !done && batch != [] ==> extra' == []
    ensures ImportSpec(env, s, extra, ordering, old(known.ids), old(known.next)) ==
      After(batch, if done then Outcome([], err, known.ids, known.next, ordering')
                   else ImportSpec(env, rest, extra', ordering', known.ids, known.next))
  {
    rest, extra', ordering', batch, done, err := s, extra, ordering, [], true, None;
    var turn := TakeTurn(env, s);
    if turn.End? {
      return;
    } else if turn.Failed? {
      err := Some(turn.error);
      return;
    }
    var pending, kvs;
    rest, pending, kvs := turn.rest, turn.vals, turn.kvs;
    extra' := extra + kvs;
    done := false;
    if pending != [] {
      batch, err, ordering' := Flush(env, pending, extra', ordering, known);
      if err.Some? {
        done := true;
        assert batch + [] == batch;
      }
      extra' := [];
    }
  }

  /** The loop over one input's text, with a fresh ordering counter and no extra
      attributes; `known` is the registry shared by all inputs. */
  method ImportInput(env: Env, text: string, known: KnownTimelines)
    returns (sent: seq<Sent>, err: Option<ImportError>)
    modifies known
    requires StepsAsSpecified(env) && PreparesAsSpecified(env)
    requires known.Valid()
    ensures known.Valid()
    ensures var r := ImportSpec(env, text, [], 0, old(known.ids), old(known.next));
      sent == r.sent && err == r.error && known.ids == r.ids && known.next == r.next
  {
    ghost var whole := ImportSpec(env, text, [], 0, known.ids, known.next);
    var ordering: nat := 0;
    var s := text;
    var extra := [];
    sent := [];
    assert After([], whole) == whole;
    while true
      invariant known.Valid()
      invariant whole == After(sent, ImportSpec(env, s, extra, ordering, known.ids, known.next))
      decreases |s|
    {
      var rest, extra', ordering', batch, done, failed := ImportItem(env, s, extra, ordering, known);
      if done {
        ghost var last := Outcome([], failed, known.ids, known.next, ordering');
        assert whole == After(sent, After(batch, last));
        AfterAfter(sent, batch, last);
        assert sent + batch + [] == sent + batch;
        return sent + batch, failed;
      }
      ghost var later := ImportSpec(env, rest, extra', ordering', known.ids, known.next);
      assert whole == After(sent, After(batch, later));
      AfterAfter(sent, batch, later);
      sent := sent + batch;
      s, extra, ordering := rest, extra', ordering';
    }
  }

  // ---------------------------------------------------------------------------
  // All inputs
  // ---------------------------------------------------------------------------

  /** What importing the inputs from position `from` on hands on, input by input, and
      how it ends. */
  datatype Run = Run(perInput: seq<seq<Sent>>, error: Option<ImportError>,
                     ids: map<Signature, TimelineId>, next: nat)

  /** The inputs from position `from` on, each with its own ordering counter from 0
      and all sharing the registry; the first error ends the import. */
  function ImportAllSpec(env: Env, texts: seq<string>, from: nat, ids: map<Signature, TimelineId>, next: nat): Run
    requires StepShrinks(env)
    requires from <= |texts|
    decreases |texts| - from
  {
    if from == |texts| then Run([], None, ids, next)
    else
      var r := ImportSpec(env, texts[from], [], 0, ids, next);
      if r.error.Some? then Run([r.sent], r.error, r.ids, r.next)
      else
        Prepend(r.sent, ImportAllSpec(env, texts, from + 1, r.ids, r.next))
  }

  /** `run` after the events `sent` of one more input before it. */
  function Prepend(sent: seq<Sent>, run: Run): Run {
    Run([sent] + run.perInput, run.error, run.ids, run.next)
  }

  /** Importing the input at position `i`: its events, and the error if it failed. */
  method ImportNext(env: Env, texts: seq<string>, i: nat, known: KnownTimelines)
    returns (sent: seq<Sent>, err: Option<ImportError>)
    modifies known
    requires StepsAsSpecified(env) && PreparesAsSpecified(env)
    requires known.Valid()
    requires i < |texts|
    ensures known.Valid()
    ensures ImportAllSpec(env, texts, i, old(known.ids), old(known.next)) ==
      if err.Some? then Run([sent], err, known.ids, known.next)
      else Prepend(sent, ImportAllSpec(env, texts, i + 1, known.ids, known.next))
  {
    sent, err := ImportInput(env, texts[i], known);
  }

  /** `for p in cfg.plugin.import.inputs`: every input is imported in turn, with a
      fresh ordering counter, against the one registry of known timelines. */
  method ImportAll(env: Env, texts: seq<string>, known: KnownTimelines)
    returns (perInput: seq<seq<Sent>>, err: Option<ImportError>)
    modifies known
    requires StepsAsSpecified(env) && PreparesAsSpecified(env)
    requires known.Valid()
    ensures known.Valid()
    ensures Run(perInput, err, known.ids, known.next) == ImportAllSpec(env, texts, 0, old(known.ids), old(known.next))
  {
    ghost var whole := ImportAllSpec(env, texts, 0, known.ids, known.next);
    perInput := [];
    var i := 0;
    assert [] + whole.perInput == whole.perInput;
    while i < |texts|
      invariant 0 <= i <= |texts|
      invariant known.Valid()
      invariant whole == PrependAll(perInput, ImportAllSpec(env, texts, i, known.ids, known.next))
    {
      var sent, failed := ImportNext(env, texts, i, known);
      if failed.Some? {
        return perInput + [sent], failed;
      }
      ghost var r' := ImportAllSpec(env, texts, i + 1, known.ids, known.next);
      AppendAssoc(perInput, [sent], r'.perInput);
      perInput := perInput + [sent];
      i := i + 1;
    }
    assert perInput + [] == perInput;
    err := None;
  }

  /** `run` after the inputs `before` imported before it. */
  function PrependAll(before: seq<seq<Sent>>, run: Run): Run {
    Run(before + run.perInput, run.error, run.ids, run.next)
  }

  /** Every input's events went out under the orderings 0, 1, 2, ... */
  ghost predicate EachFromZero(run: Run) {
    forall k, i :: 0 <= k < |run.perInput| && 0 <= i < |run.perInput[k]| ==> run.perInput[k][i].ordering == i
  }

  /** One more input numbered from 0 keeps every input numbered from 0. */
  lemma EachFromZeroPrepend(sent: seq<Sent>, run: Run)
    requires forall i :: 0 <= i < |sent| ==> sent[i].ordering == i
    requires EachFromZero(run)
    ensures EachFromZero(Prepend(sent, run))
  {
    var r := Prepend(sent, run);
    forall k, i | 0 <= k < |r.perInput| && 0 <= i < |r.perInput[k]|
      ensures r.perInput[k][i].ordering == i
    {
      if k > 0 {
        assert r.perInput[k] == run.perInput[k - 1];
      }
    }
  }

  /** One input more: the input at `from` is imported, and its error, if any, ends
      the import there. */
  lemma ImportAllStep(env: Env, texts: seq<string>, from: nat, ids: map<Signature, TimelineId>, next: nat)
    requires StepShrinks(env)
    requires from < |texts|
    ensures var r := ImportSpec(env, texts[from], [], 0, ids, next);
      ImportAllSpec(env, texts, from, ids, next) ==
        if r.error.Some? then Run([r.sent], r.error, r.ids, r.next)
        else Prepend(r.sent, ImportAllSpec(env, texts, from + 1, r.ids, r.next))
  {
  }

  /** There is one run of events per input imported: one per input when nothing
      fails, and none after the input that fails. */
  lemma {:induction false} ImportAllCount(env: Env, texts: seq<string>, from: nat,
                                          ids: map<Signature, TimelineId>, next: nat)
    requires StepShrinks(env)
    requires from <= |texts|
    ensures var run := ImportAllSpec(env, texts, from, ids, next);
      && |run.perInput| <= |texts| - from
      && (from < |texts| ==> 0 < |run.perInput|)
      && (run.error.None? ==> |run.perInput| == |texts| - from)
    decreases |texts| - from
  {
    var run := ImportAllSpec(env, texts, from, ids, next);
    if from == |texts| {
      assert run == Run([], None, ids, next);
    } else {
      ImportAllStep(env, texts, from, ids, next);
      var r := ImportSpec(env, texts[from], [], 0, ids, next);
      if r.error.Some? {
        assert run == Run([r.sent], r.error, r.ids, r.next);
      } else {
        var later := ImportAllSpec(env, texts, from + 1, r.ids, r.next);
        ImportAllCount(env, texts, from + 1, r.ids, r.next);
        assert run == Prepend(r.sent, later);
        assert |run.perInput| == 1 + |later.perInput| && run.error == later.error;
      }
    }
  }

  /** Every input's events go out under the orderings 0, 1, 2, ... in the order they
      are handed on, whatever came before it. */
  lemma {:induction false} ImportAllOrdering(env: Env, texts: seq<string>, from: nat,
                                             ids: map<Signature, TimelineId>, next: nat)
    requires StepShrinks(env)
    requires from <= |texts|
    ensures EachFromZero(ImportAllSpec(env, texts, from, ids, next))
    decreases |texts| - from
  {
    if from < |texts| {
      ImportAllStep(env, texts, from, ids, next);
      var r := ImportSpec(env, texts[from], [], 0, ids, next);
      ImportOrdering(env, texts[from], [], 0, ids, next);
      if r.error.None? {
        ImportAllOrdering(env, texts, from + 1, r.ids, r.next);
        EachFromZeroPrepend(r.sent, ImportAllSpec(env, texts, from + 1, r.ids, r.next));
      }
    }
  }

  // ---------------------------------------------------------------------------
  // Properties of the loop
  // ---------------------------------------------------------------------------

  /** The events of `r` went out under the orderings `ordering`, `ordering + 1`, ...
      and the counter ends one past the last. */
  ghost predicate OrderedFrom(r: Outcome, ordering: nat) {
    && r.ordering == ordering + |r.sent|
    && forall i :: 0 <= i < |r.sent| ==> r.sent[i].ordering == ordering + i
  }

  /** Numbering that goes on where an earlier run stopped numbers both runs as one. */
  lemma OrderedAfter(a: Outcome, b: Outcome, ordering: nat)
    requires OrderedFrom(a, ordering) && OrderedFrom(b, a.ordering)
    ensures OrderedFrom(After(a.sent, b), ordering)
  {
    var r := After(a.sent, b);
    forall i | 0 <= i < |r.sent|
      ensures r.sent[i].ordering == ordering + i
    {
      if i >= |a.sent| {
        assert r.sent[i] == b.sent[i - |a.sent|];
      }
    }
  }

  /** A flush hands on one event per value until the first failure, and one per
      value when nothing fails; the value at position `i` goes out under the ordering
      `base + i`, and the counter ends one past the last ordering used. */
  lemma {:induction false} FlushSpecOrdering(env: Env, vals: seq<Json>, from: nat, extra: seq<Kv>, base: nat,
                                             ids: map<Signature, TimelineId>, next: nat)
    requires from <= |vals|
    ensures var r := FlushSpec(env, vals, from, extra, base, ids, next);
      && |r.sent| <= |vals| - from
      && (r.error.None? <==> |r.sent| == |vals| - from)
      && OrderedFrom(r, base + from)
    decreases |vals| - from
  {
    var r := FlushSpec(env, vals, from, extra, base, ids, next);
    if from == |vals| {
      assert r == Outcome([], None, ids, next, base + from);
    } else {
      var p := env.prepare(vals[from], extra, ids, next);
      FlushStep(env, vals, from, extra, base, ids, next);
      if p.result.Err? {
        assert r.sent == [] && r.ordering == base + from;
      } else {
        FlushSpecOrdering(env, vals, from + 1, extra, base, p.ids, p.next);
        var rest := FlushSpec(env, vals, from + 1, extra, base, p.ids, p.next);
        var first := Outcome([Sent(p.result.value, base + from)], None, p.ids, p.next, base + from + 1);
        assert r == After(first.sent, rest);
        OrderedAfter(first, rest, base + from);
      }
    }
  }

  /** Every event of a flush is what preparing its own value gives, with the batch's
      one set of extra attributes. */
  lemma {:induction false} FlushSpecEvents(env: Env, vals: seq<Json>, from: nat, extra: seq<Kv>, base: nat,
                                           ids: map<Signature, TimelineId>, next: nat)
    requires from <= |vals|
    ensures EventsFrom(env, vals, from, extra, FlushSpec(env, vals, from, extra, base, ids, next).sent)
    decreases |vals| - from
  {
    var r := FlushSpec(env, vals, from, extra, base, ids, next);
    if from == |vals| {
      assert r.sent == [];
    } else {
      var p := env.prepare(vals[from], extra, ids, next);
      FlushStep(env, vals, from, extra, base, ids, next);
      if p.result.Err? {
        assert r.sent == [];
      } else {
        FlushSpecEvents(env, vals, from + 1, extra, base, p.ids, p.next);
        var rest := FlushSpec(env, vals, from + 1, extra, base, p.ids, p.next);
        assert r.sent == [Sent(p.result.value, base + from)] + rest.sent;
        forall i | 0 <= i < |r.sent|
          ensures PreparedFrom(env, vals[from + i], extra, r.sent[i].event)
        {
          if i == 0 {
            assert env.prepare(vals[from], extra, ids, next).result == Ok(r.sent[0].event);
          } else {
            assert r.sent[i] == rest.sent[i - 1];
            assert from + i == (from + 1) + (i - 1);
          }
        }
      }
    }
  }

  /** The events `sent` are, one for one, what preparing the values from position
      `from` on gives with the extra attributes `extra`. */
  ghost predicate EventsFrom(env: Env, vals: seq<Json>, from: nat, extra: seq<Kv>, sent: seq<Sent>) {
    && from + |sent| <= |vals|
    && forall i :: 0 <= i < |sent| ==> PreparedFrom(env, vals[from + i], extra, sent[i].event)
  }

  /** The events of a batch come first, and each is what preparing its own pending
      value gives with one and the same set of extra attributes: those carried so far
      together with the item's own. */
  lemma BatchSharesExtra(env: Env, s: string, extra: seq<Kv>, ordering: nat,
                         ids: map<Signature, TimelineId>, next: nat)
    requires StepShrinks(env)
    requires env.step(s).Item? && env.step(s).vals != []
    ensures var turn := env.step(s);
      var f := FlushSpec(env, turn.vals, 0, extra + turn.kvs, ordering, ids, next);
      && f.sent <= ImportSpec(env, s, extra, ordering, ids, next).sent
      && EventsFrom(env, turn.vals, 0, extra + turn.kvs, f.sent)
  {
    var turn := env.step(s);
    FlushSpecEvents(env, turn.vals, 0, extra + turn.kvs, ordering, ids, next);
  }

  /** Within one input the orderings are `ordering`, `ordering + 1`, ... in the order
      the events are handed on, and the counter ends one past the last. */
  lemma {:induction false} ImportOrdering(env: Env, s: string, extra: seq<Kv>, ordering: nat,
                                          ids: map<Signature, TimelineId>, next: nat)
    requires StepShrinks(env)
    ensures OrderedFrom(ImportSpec(env, s, extra, ordering, ids, next), ordering)
    decreases |s|
  {
    var r := ImportSpec(env, s, extra, ordering, ids, next);
    match env.step(s)
    case End =>
      assert r == Outcome([], None, ids, next, ordering);
    case Failed(e) =>
      assert r == Outcome([], Some(e), ids, next, ordering);
    case Item(rest, vals, kvs) =>
      if vals == [] {
        assert r == ImportSpec(env, rest, extra + kvs, ordering, ids, next);
        ImportOrdering(env, rest, extra + kvs, ordering, ids, next);
      } else {
        var f := FlushSpec(env, vals, 0, extra + kvs, ordering, ids, next);
        FlushSpecOrdering(env, vals, 0, extra + kvs, ordering, ids, next);
        if f.error.Some? {
          assert r == f;
        } else {
          assert r == After(f.sent, ImportSpec(env, rest, [], f.ordering, f.ids, f.next));
          var r' := ImportSpec(env, rest, [], f.ordering, f.ids, f.next);
          ImportOrdering(env, rest, [], f.ordering, f.ids, f.next);
          OrderedAfter(f, r', ordering);
        }
      }
  }

  /** A flush never forgets or changes a known timeline. */
  lemma {:induction false} FlushKeepsKnown(env: Env, vals: seq<Json>, from: nat, extra: seq<Kv>, base: nat,
                                           ids: map<Signature, TimelineId>, next: nat)
    requires PreparesAsSpecified(env)
    requires from <= |vals|
    ensures var r := FlushSpec(env, vals, from, extra, base, ids, next);
      forall sig :: sig in ids ==> sig in r.ids && r.ids[sig] == ids[sig]
    decreases |vals| - from
  {
    if from < |vals| {
      var p := env.prepare(vals[from], extra, ids, next);
      PrepareKeepsKnown(vals[from], extra, env.cfg, ids, TimelineId(next), env.display, env.newAttrVal);
      if p.result.Ok? {
        FlushKeepsKnown(env, vals, from + 1, extra, base, p.ids, p.next);
      }
    }
  }

  /** An input never forgets or changes a known timeline, so a timeline met again,
      in this input or a later one, keeps its id. */
  lemma {:induction false} ImportKeepsKnown(env: Env, s: string, extra: seq<Kv>, ordering: nat,
                                            ids: map<Signature, TimelineId>, next: nat)
    requires StepShrinks(env) && PreparesAsSpecified(env)
    ensures var r := ImportSpec(env, s, extra, ordering, ids, next);
      forall sig :: sig in ids ==> sig in r.ids && r.ids[sig] == ids[sig]
    decreases |s|
  {
    var r := ImportSpec(env, s, extra, ordering, ids, next);
    match env.step(s)
    case End =>
      assert r == Outcome([], None, ids, next, ordering);
    case Failed(e) =>
      assert r == Outcome([], Some(e), ids, next, ordering);
    case Item(rest, vals, kvs) =>
      if vals == [] {
        assert r == ImportSpec(env, rest, extra + kvs, ordering, ids, next);
        ImportKeepsKnown(env, rest, extra + kvs, ordering, ids, next);
      } else {
        var f := FlushSpec(env, vals, 0, extra + kvs, ordering, ids, next);
        FlushKeepsKnown(env, vals, 0, extra + kvs, ordering, ids, next);
        if f.error.Some? {
          assert r == f;
        } else {
          assert r == After(f.sent, ImportSpec(env, rest, [], f.ordering, f.ids, f.next));
          ImportKeepsKnown(env, rest, [], f.ordering, f.ids, f.next);
        }
      }
  }

  /** Text that is only whitespace hands on nothing and changes nothing. */
  lemma ImportBlank(env: Env, s: string, extra: seq<Kv>, ordering: nat, ids: map<Signature, TimelineId>, next: nat)
    requires StepsAsSpecified(env)
    requires AllWhitespace(s)
    ensures ImportSpec(env, s, extra, ordering, ids, next) == Outcome([], None, ids, next, ordering)
  {
    assert env.step(s) == NextTurn(env, s);
  }
}
