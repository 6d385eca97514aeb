# modality-json-plugins importer, modelled in Dafny

This project models the import path of the modality JSON importer. The importer
reads a text that mixes JSON objects, JSON arrays and free-text lines, turns every
JSON object into an event on a timeline, and hands the events to a caching ingest
client. The model follows the Rust sources file by file:

- `strings.dfy` (`Strings`) holds the Rust standard-library string operations the
  importer relies on: `trim`, ASCII `to_lowercase`, `split`/`join` on `.`,
  `find`, and integer `parse` with its error kinds.
- `api.dfy` (`Api`) and `json.dfy` (`JsonValue`) hold the data the program works
  on: `AttrVal`, `TimelineId`, interned keys, and a `serde_json::Value` datatype
  whose object members keep a given order.
- `types.dfy` (`Types`) models `RetryDurationUs`.
- `config.dfy` (`Config`) models `TimestampUnit` and its `FromStr`,
  `Deserialize`, `Default`, `to_ns_factor` and `attr_val_to_ns`, plus the
  `AttrKeyRename` and `PluginConfig` records.
- `coerce.dfy` (`Coerce`) models `json_leaf_to_attr_val`, `string_to_attr_val`
  (with a decimal `f64` literal grammar) and `parse_attr_key_rename`.
- `flatten.dfy` (`Flatten`) models `walk_obj` with `walk_obj_rec` and
  `walk_array_rec`, the key joining in `prepare_json_object`, and
  `get_val_at_path`.
- `regex_line.dfy` (`RegexLine`) models `parse_regex_line`. The regex is a
  parameter that gives the capture groups of the first match.
- `assemble.dfy` (`Assemble`) models `prepare_json_object`. It covers
  classification, timeline signature and name, the `known_timelines` registry
  (a class), the event name and the timestamp.
- `input_loop.dfy` (`InputLoop`) models the per-input loop of `do_main`. The loop
  is a method over a cursor, the extra attributes and the ordering counter. It is
  proved against a recursive specification of the whole loop, plus an outer loop
  over all inputs.
- `client.dfy` (`Client`) models `Client`. `Send` and its helpers are pure
  functions from caches to new caches plus the calls made on the sink. They carry
  the invariants: each key is declared once, every cached key was declared, and
  declared keys carry their scope prefix. The `Client` class runs the same steps
  on mutable fields and a `Sink` object, and is proved to follow those functions.

The imperative parts of the source are Dafny methods with loops. Each is proved
equal to a specification function, and the properties are lemmas about those
functions:

- `Classify`, `FindFirstNamed`, `ParseRegexLine`, `GetValAtPath`, `Flush`,
  `ImportInput` and `ImportAll`;
- the `Client` methods;
- the `KnownTimelines` registry.

The loop takes two things as function fields of `Env`:

- the per-turn reader, `step`, which must equal `NextTurn` (`StepsAsSpecified`);
- the preparation, `prepare`, which must equal `Prepare` with the registry's
  allocator (`PreparesAsSpecified`).

The lemmas about the loop are stated over those fields.

## Model

| member | source | states |
|---|---|---|
| Strings.TrimStart | src/bin/importer.rs:251 | `trim_start` drops exactly a whitespace prefix: the result is a suffix of the input, what was dropped is all whitespace, and the result does not start with whitespace |
| Strings.TrimEnd | src/types.rs:49 | the trailing half of `trim`: the result is a prefix, the dropped part is whitespace, and the result does not end with whitespace |
| Strings.TrimOfPadded | src/types.rs:49 | `trim` of a text padded with whitespace on both sides gives back the text |
| Strings.ToLower | src/config.rs:138 | `to_lowercase` keeps the length and lowers each character |
| Strings.Split | src/bin/importer.rs:506 | `split(".")` always yields at least one part |
| Strings.SplitJoin | src/bin/importer.rs:400 | joining parts that contain no `.` and splitting the result again gives back the parts |
| Strings.JoinSplit | src/bin/importer.rs:506 | splitting on `.` and joining with `.` gives back the text |
| Strings.Find | src/bin/importer.rs:124-126 | `find` returns `None` exactly when the character is absent, otherwise the index of its first occurrence |
| Strings.NatToDecimalValue | src/types.rs:32-36 | the decimal digits written for a number denote that number |
| Strings.ParseIntSpec | src/types.rs:49 | integer `parse` succeeds exactly on an optionally signed digit string whose value is in range, and returns that value |
| Strings.ParseIntOfDecimal | src/bin/importer.rs:371 | parsing the decimal form of an in-range integer gives back the integer |
| JsonValue.AsI64 | src/bin/importer.rs:487 | `as_i64` succeeds exactly for non-negative integers up to `i64::MAX` and negative integers, keeping the value |
| JsonValue.AsU64 | src/bin/importer.rs:489 | `as_u64` succeeds exactly for non-negative integers, keeping the value |
| JsonValue.Get | src/bin/importer.rs:509 | `Map::get` is `None` exactly when no member has the key, otherwise the value of a member with that key |
| JsonValue.AsObject | src/bin/importer.rs:394 | `as_object` succeeds exactly on objects, and gives their entries |
| Types.RetryFromStrSpec | src/types.rs:45-50 | `from_str` succeeds exactly when the trimmed text is an unsigned decimal of at most `u64::MAX`, and returns that value |
| Types.RetryRoundTrip | src/types.rs:45-50 | any valid duration written in decimal, with any surrounding whitespace, parses back to itself |
| Types.RetryRejectsAboveMax | src/types.rs:48-50 | a value above `u64::MAX` is rejected with a positive-overflow error |
| Types.DefaultRetryIs100Ms | src/types.rs:38-43 | the default is 100000 microseconds (100 ms), and it round-trips through its decimal form |
| Config.UnitFactors | src/config.rs:118-132 | each unit is a thousand of the next finer one, down to 1 for nanoseconds, and the default unit is nanoseconds |
| Config.UnitFromStrSpec | src/config.rs:134-146 | `from_str` yields a unit exactly when the lower-cased text is one of that unit's three aliases, and otherwise fails with an error quoting the text |
| Config.AliasUnit | src/config.rs:139-142 | every alias of a unit is matched to that unit |
| Config.UnitOfLowerAlias | src/config.rs:138-144 | any unit the match finds was found through one of its own aliases |
| Config.ToLowerIdempotent | src/config.rs:138 | lower-casing twice is lower-casing once |
| Config.UnitFromStrIgnoresCase | src/config.rs:138 | a text and its lower-cased form parse to the same unit |
| Config.UnitDeserializeAgrees | src/config.rs:148-156 | `Deserialize` accepts exactly the strings `from_str` accepts, with the same unit, and wraps `from_str`'s error |
| Config.TruncTowardZero | src/config.rs:115 | the `as` cast truncates toward zero: the result is within one of the value, on the side of zero |
| Config.SaturateI128 | src/config.rs:115 | the float-to-`i128` cast stays within `i128` and is the identity inside it |
| Config.AttrValToNs | src/config.rs:103-116 | the conversion fails exactly for non-numeric values, with an error carrying the value; on success, when `new_attr_val` keeps the value it is given, the result denotes a whole number within `i128` |
| Config.AttrValToNsOfIntegral | src/config.rs:107-115 | an `Integer` or `BigInt` is scaled exactly by the unit's factor, saturated to `i128` and handed to `new_attr_val` |
| Config.AttrValToNsOfInteger | src/config.rs:107-115 | an `i64` value never saturates: `new_attr_val` gets value times factor |
| Config.AttrValToNsOfFloat | src/config.rs:107-115 | short of saturation, `new_attr_val` gets the scaled float truncated toward zero |
| Config.AttrValToNsExamples | src/config.rs:103-125 | `new_attr_val` gets 1 500 000 000 for 1500 ms and for 1.5 s, and -2 for -2.5 ns (truncated toward zero); a string is rejected |
| Coerce.JsonLeafToAttrVal | src/bin/importer.rs:479-500 | the coercion yields `None` exactly for null, arrays and objects |
| Coerce.LeafCoercion | src/bin/importer.rs:479-500 | a bool and a string keep their value; an integer that fits `i64` becomes that `Integer`, a larger one (within `u64`) is handed to `new_attr_val`, a float stays a `Float`; the number's value is kept whenever `new_attr_val` keeps it |
| Coerce.LeafCoercionBoundary | src/bin/importer.rs:487-490 | `i64::MAX` stays an `Integer`, `i64::MAX + 1` is handed to `new_attr_val`, and `i64::MIN` stays an `Integer` |
| Coerce.SplitSign | src/bin/importer.rs:366 | the sign of an `f64` literal is split off: negative exactly for a leading `-`; after a leading `-` or `+` the body is the rest of the text, otherwise the whole text |
| Coerce.FindExponentMarker | src/bin/importer.rs:366 | the exponent marker is found exactly when the text has an `e` or `E`, at such a character |
| Coerce.ParseFloatLiteral | src/bin/importer.rs:366 | an accepted `f64` literal has digit-only integer and fraction parts, and at least one digit |
| Coerce.SplitExponent | src/bin/importer.rs:366 | the mantissa is a prefix of the literal's body, and a body with no `e` or `E` is all mantissa with exponent zero |
| Coerce.SplitPoint | src/bin/importer.rs:366 | a mantissa without `.` is all integer part; otherwise it is the integer part, the `.` and the fraction part, and the integer part has no `.` |
| Coerce.ParseFloatLiteralWithExponent | src/bin/importer.rs:366 | the grammar round trip: `[+-]a.b`, an `e` or `E`, then `[+-]ds` is taken apart into its sign, `a`, `b` and the exponent `ds`, negated after a `-` |
| Coerce.ParseF64WithExponent | src/bin/importer.rs:366 | such a text parses to the value of the digits of `a` and `b`, scaled by ten to the signed exponent less the number of fraction digits |
| Coerce.ParseFloatLiteralOfDecimal | src/bin/importer.rs:366 | an optionally signed `digits.digits` text is accepted as that literal, with exponent zero |
| Coerce.ParseF64OfDecimal | src/bin/importer.rs:366 | such a text parses to the decimal value its digits denote |
| Coerce.StringToAttrVal | src/bin/importer.rs:364-376 | the result is one of three readings of the text: the `Float` it denotes when it has a `.`, `new_attr_val` of the `i128` it denotes, or the text itself as a `String` |
| Coerce.StringToAttrValSpec | src/bin/importer.rs:364-376 | the float reading wins when the text has a `.` and parses; an `i128` literal goes to `new_attr_val` with its value; when neither parse applies the text is kept as a `String` |
| Coerce.StringToAttrValOfDecimal | src/bin/importer.rs:365-368 | a decimal text with a `.` becomes the `Float` of its value |
| Coerce.StringToAttrValOfIntegerExample | src/bin/importer.rs:371-372 | "-42" is handed to `new_attr_val` as the integer -42 |
| Coerce.StringToAttrValOfTextExample | src/bin/importer.rs:375 | "1.2.3" has a `.` but is not a float, so it stays a string |
| Coerce.ParseF64OfExponentExample | src/bin/importer.rs:366 | "1.5e3" parses to 1500 |
| Coerce.StringToAttrValOfExponentExample | src/bin/importer.rs:365-368 | "1.5e3" has a `.` and becomes the `Float` 1500 |
| Coerce.ParseAttrKeyRename | src/bin/importer.rs:121-130 | parsing fails exactly when there is no `,`, with an error quoting the text; otherwise the original is the text before the first `,` and the new key the rest |
| Coerce.ParseAttrKeyRenameRoundTrip | src/bin/importer.rs:121-130 | `original,new` with a comma-free original parses back to the pair |
| Flatten.WalkValue | src/bin/importer.rs:530-540 | every leaf reached from a value is a scalar, under a path that extends the value's path |
| Flatten.WalkMembers | src/bin/importer.rs:522-542 | every leaf of an object's members is a scalar, under a strictly longer path extending the object's path |
| Flatten.WalkItems | src/bin/importer.rs:544-565 | every leaf of an array's elements is a scalar, under a strictly longer path extending the array's path |
| Flatten.WalkMembersConcat | src/bin/importer.rs:527 | the walk visits members in order: walking two member lists is walking one then the other |
| Flatten.LeafKvs | src/bin/importer.rs:399-404 | at most one pair is pushed per leaf |
| Flatten.LeafKvsConcat | src/bin/importer.rs:399-404 | pairs are pushed in leaf order |
| Flatten.LeafKvsMembership | src/bin/importer.rs:399-404 | a pair is pushed exactly when some leaf's path joined with `.` is its key and the leaf coerces to its value |
| Flatten.FlattenConcat | src/bin/importer.rs:399-404 | flattening is depth-first in member order: flattening two member lists is flattening one then the other |
| Flatten.FlattenEmptyEntry | src/bin/importer.rs:479-484 | a member whose value is null, an empty object or an empty array contributes nothing |
| Flatten.FlattenSkipsEmpty | src/bin/importer.rs:479-484 | inserting such a member anywhere leaves the flattened pairs unchanged |
| Flatten.WalkExampleArray | src/bin/importer.rs:549-551 | array elements get their decimal index as path segment |
| Flatten.WalkExampleInner | src/bin/importer.rs:527-541 | nested members are visited depth-first with their keys as segments |
| Flatten.WalkExample | src/bin/importer.rs:518-568 | on a sample object the walk yields its four leaves in depth-first order |
| Flatten.LeafKvsExample | src/bin/importer.rs:399-404 | on those leaves the pairs are "a.b", "a.c.0" and "d", with the null dropped |
| Flatten.FlattenExample | src/bin/importer.rs:399-404 | the sample object flattens to `a.b = 1`, `a.c.0 = true`, `d = "x"` |
| Flatten.GetValAtPath | src/bin/importer.rs:502-513 | the loop over the path's parts returns what `ValAtParts` gives for `split(".")` of the path |
| Flatten.WalkMembersContains | src/bin/importer.rs:527-541 | every leaf of one member's value is a leaf of the object |
| Flatten.ValAtPartsIsLeaf | src/bin/importer.rs:502-513 | a scalar found by following parts is a leaf of the walk, at the path extended by those parts |
| Flatten.GetValAtPathAgreesWithFlatten | src/bin/importer.rs:502-513 | whatever `get_val_at_path` finds at a dotted path and can coerce appears in the flattened pairs under that path |
| RegexLine.FirstLine | src/bin/importer.rs:325-326 | `lines().next()` is `None` exactly for the empty text; the line is a newline-free prefix, followed by the end, `\n` or `\r\n`, and a `\r` right before the `\n` is never part of the line |
| RegexLine.FirstLineNonEmpty | src/bin/importer.rs:325 | a text starting with a non-whitespace character has a non-empty first line |
| RegexLine.ZipCaptures | src/bin/importer.rs:338-358 | pairing succeeds exactly when there are as many groups as names and every group took part; then pair i is (name i, coerced capture i) |
| RegexLine.ZipCapturesCons | src/bin/importer.rs:340-343 | one paired step pushes (name, coerced capture) before the rest |
| RegexLine.ZipCapturesSkip | src/bin/importer.rs:338-343 | after k successful pairs, the result is those pairs followed by the pairing of the rest |
| RegexLine.ZipCapturesErrors | src/bin/importer.rs:340-356 | a group that took no part fails; more names than groups fails naming the first unpaired name; more groups than names fails quoting the first extra capture, or with the no-match error if it is empty |
| RegexLine.ZipCaptureLoop | src/bin/importer.rs:328-358 | the `zip_longest` loop returns what `ZipCaptures` gives |
| RegexLine.ParseRegexLine | src/bin/importer.rs:317-361 | the function returns `RegexLineSpec`: no regex, no line, no match, then the pairing |
| RegexLine.RegexLineOk | src/bin/importer.rs:317-361 | on success there is a regex and a line, the match has one group per name, pair i is (name i, coerced capture i), and the tail is what follows the line, starting with the end, `\n` or `\r\n`, with no `\r` left at the end of the line before a `\n` |
| RegexLine.RegexLineEarlyErrors | src/bin/importer.rs:322-333 | without a regex it fails with `NoRegex`; when the first line does not match it fails quoting the whole text |
| RegexLine.RegexLineProgress | src/bin/importer.rs:326 | on a text starting with non-whitespace, the tail is strictly shorter |
| Assemble.Bucket | src/bin/importer.rs:406-416 | a bucket has no more pairs than its input |
| Assemble.BucketMembership | src/bin/importer.rs:406-416 | a pair is in the timeline bucket exactly when it is in the input and its key is a timeline name or timeline attribute, and in the event bucket exactly when it is in the input and its key is neither |
| Assemble.BucketConcat | src/bin/importer.rs:408 | classification keeps relative order |
| Assemble.BucketsPartition | src/bin/importer.rs:398-416 | the two buckets together are a permutation of the input: every pair lands in exactly one |
| Assemble.Classify | src/bin/importer.rs:406-416 | the push loop builds exactly the two buckets |
| Assemble.FindKey | src/bin/importer.rs:425 | `find` by key returns `None` exactly when no pair has the key, otherwise the first pair that has it |
| Assemble.FirstNamedIndexSpec | src/bin/importer.rs:424-430 | the loop stops at the earliest configured name that is present, or finds none exactly when no name is present |
| Assemble.FindFirstNamed | src/bin/importer.rs:424-430 | the loop returns `FirstNamed` |
| Assemble.FirstNamedSpec | src/bin/importer.rs:418-435 | there is no signature exactly when no configured name occurs as a key; otherwise the signature is the first pair keyed by the earliest configured name present |
| Assemble.EntrySpec | src/bin/importer.rs:441-443 | `entry().or_insert_with()` returns the existing id for a known signature and leaves the map alone; for an unseen one it inserts the fresh id; other entries never change |
| Assemble.KnownTimelines.constructor | src/bin/importer.rs:223 | the registry starts empty |
| Assemble.KnownTimelines.Allocate | src/bin/importer.rs:443 | `TimelineId::allocate` hands out the counter's id and moves it on, leaving the map alone |
| Assemble.KnownTimelines.ResolveOrCreate | src/bin/importer.rs:441-443 | the registry update is `Entry` with the next fresh id; the counter moves only on insertion, and an inserted id differs from every id already registered |
| Assemble.NameTimeline | src/bin/importer.rs:418-439 | the method finds the signature and appends `("name", prefix ++ display(value))` only when that name is non-empty |
| Assemble.BuildEventName | src/bin/importer.rs:445-454 | the method builds the prefix followed by the display of the first event-name value found |
| Assemble.AppendTimestamp | src/bin/importer.rs:462-468 | the method computes `WithTimestamp` |
| Assemble.RegisterEvent | src/bin/importer.rs:441-476 | registering the signature and finishing the event update the registry and counter as `FinishEvent` says |
| Assemble.PrepareJsonObject | src/bin/importer.rs:384-477 | the method returns what `Prepare` gives and updates the registry as it says; the counter moves exactly when a timeline was added |
| Assemble.LookupInBucket | src/bin/importer.rs:425-450 | looking up a timeline key in the timeline bucket (or an event key in the event bucket) finds what it finds in the whole input |
| Assemble.FirstNamedInBucket | src/bin/importer.rs:424-430 | the signature search in the bucket agrees with the search over all pairs when the names belong to the bucket |
| Assemble.FirstNamedIndexInBucket | src/bin/importer.rs:424-430 | the same, for the index of the name found |
| Assemble.PrepareNoTimeline | src/bin/importer.rs:394-435 | a non-object is rejected and the registry is unchanged; an object fails for lack of a timeline name exactly when no configured timeline name occurs among the extra and flattened pairs, again with the registry unchanged |
| Assemble.FinishEventOutcome | src/bin/importer.rs:441-476 | once a signature is found, the registry is updated by `Entry`; the result fails for lack of an event name exactly when the name is empty; on success the event has the registry's id, the timeline pairs, and the event pairs with `name` and then possibly `timestamp` appended |
| Assemble.PrepareRegisters | src/bin/importer.rs:441-459 | with a signature present, the signature is registered even when the event name then turns out empty, and that failure happens exactly when the event name is empty |
| Assemble.PrepareOk | src/bin/importer.rs:384-477 | a successful preparation came from an object with a signature; its id is the known one or the fresh one; its timeline pairs are the timeline bucket plus the name pair when non-empty; its event name is non-empty; its event pairs are the event bucket plus `name` and the timestamp step |
| Assemble.WithTimestampSpec | src/bin/importer.rs:462-468 | without a configured or present timestamp key the pairs are unchanged; otherwise it fails exactly for a non-numeric value, and on success appends `("timestamp", converted value)` and keeps the original entry |
| Assemble.EventNameWithPrefix | src/bin/importer.rs:445-459 | a non-empty event-name prefix always gives a non-empty event name, even when no name key is present |
| Assemble.EntryKeepsInjective | src/bin/importer.rs:441-443 | with a fresh id not yet in use, distinct signatures keep distinct ids |
| Assemble.SameSignatureSameTimeline | src/bin/importer.rs:441-443 | two events with the same signature land on the same timeline; with fresh ids, different signatures land on different timelines |
| Assemble.PrepareKeepsKnown | src/bin/importer.rs:441-443 | preparing never changes an existing registry entry, and any new entry holds the fresh id |
| InputLoop.ReadItem | src/bin/importer.rs:258-271 | an item leaves a strictly shorter suffix of the text; `[` and `{` add no extra pairs, `{` makes exactly one value pending, and a regex line makes none pending |
| InputLoop.NextItem | src/bin/importer.rs:258-271 | the dispatch on the first character reads the item `ReadItem` describes, rejecting a `[` that is not an array |
| InputLoop.NextTurn | src/bin/importer.rs:251-273 | the loop ends exactly when only whitespace is left, and any item leaves a strictly shorter text |
| InputLoop.NextTurnShrinks | src/bin/importer.rs:250-273 | a stepper that is `NextTurn` always shrinks the cursor |
| InputLoop.TakeTurn | src/bin/importer.rs:251-273 | the top of the loop computes the stepper's turn |
| InputLoop.FlushStep | src/bin/importer.rs:276-280 | a batch prepares the value at `from` under ordering `base + from` and either stops with its error or sends it and goes on |
| InputLoop.PrepareValue | src/bin/importer.rs:277 | preparing one value updates the registry and counter as the preparation says |
| InputLoop.FlushItem | src/bin/importer.rs:276-280 | one iteration of the batch loop is one step of `FlushSpec` |
| InputLoop.Flush | src/bin/importer.rs:275-283 | the batch loop returns what `FlushSpec` gives from index 0: the events, the error, the registry and the next ordering |
| InputLoop.ImportItem | src/bin/importer.rs:250-284 | one turn either ends the loop or continues with a strictly shorter text and no error; after a non-empty batch the extra pairs are cleared; the whole import from here is the batch followed by the import of the rest |
| InputLoop.ImportInput | src/bin/importer.rs:242-285 | the loop over one input, with ordering 0 and no extra pairs, returns exactly what `ImportSpec` gives: the events, the error, and the registry |
| InputLoop.ImportNext | src/bin/importer.rs:238-285 | one input's import either stops the run with its error or continues with the next input |
| InputLoop.ImportAll | src/bin/importer.rs:238-286 | the loop over all inputs returns `ImportAllSpec` from the first input, with the registry shared between inputs |
| InputLoop.ImportAllStep | src/bin/importer.rs:238-285 | each input is imported from ordering 0 with no extra pairs and the registry the previous input left |
| InputLoop.ImportAllCount | src/bin/importer.rs:238-285 | there are at most as many event lists as inputs, at least one when there is an input, and one per input when no error occurred |
| InputLoop.EachFromZeroPrepend | src/bin/importer.rs:242 | prepending an input whose events are numbered from 0 keeps every input numbered from 0 |
| InputLoop.ImportAllOrdering | src/bin/importer.rs:242-279 | in every input the i-th event sent has ordering i: the counter restarts at 0 per input |
| InputLoop.OrderedAfter | src/bin/importer.rs:279 | events numbered consecutively from `o`, followed by events numbered consecutively from where they stopped, are numbered consecutively from `o` |
| InputLoop.FlushSpecOrdering | src/bin/importer.rs:275-283 | a batch sends at most one event per value, all of them exactly when no error occurs, numbered consecutively from the starting ordering, and ends with the ordering moved by the number sent |
| InputLoop.FlushSpecEvents | src/bin/importer.rs:276-278 | the i-th event of a batch was prepared from the i-th value with the batch's extra pairs |
| InputLoop.BatchSharesExtra | src/bin/importer.rs:269-283 | the events of the batch a turn flushes begin the import's output, and every one of them was prepared with the same extra pairs: those before the batch plus the turn's own |
| InputLoop.ImportOrdering | src/bin/importer.rs:242-279 | the import of a text numbers its events consecutively from its starting ordering, by exactly 1 per event, and ends past the last one |
| InputLoop.FlushKeepsKnown | src/bin/importer.rs:277 | a batch never changes an existing registry entry |
| InputLoop.ImportKeepsKnown | src/bin/importer.rs:238-285 | importing a text never changes an existing registry entry |
| InputLoop.ImportBlank | src/bin/importer.rs:251-256 | a text of only whitespace sends nothing and changes nothing |
| Client.NormalizeKey | src/client.rs:19-33 | the result starts with the prefix, equals the input exactly when the input already has the prefix, and otherwise is the prefix followed by the input |
| Client.NormalizeTimelineKey | src/client.rs:19-25 | the result starts with `timeline.`, and a key that already does is unchanged |
| Client.NormalizeEventKey | src/client.rs:27-33 | the result starts with `event.`, and a key that already does is unchanged |
| Client.NormalizeIdempotent | src/client.rs:19-33 | normalizing twice is normalizing once |
| Client.ScopesDisjoint | src/client.rs:19-33 | no key has both scope prefixes |
| Client.ScopeOfPrefixed | src/client.rs:19-33 | a key with a scope's prefix belongs to that scope |
| Client.BuildRenames | src/client.rs:45-57 | every original and every target in a rename table carries the scope's prefix |
| Client.BuildRenamesDomain | src/client.rs:45-57 | the table's keys are exactly the normalized originals |
| Client.BuildRenamesLastWins | src/client.rs:45-57 | for duplicate originals the later entry wins: an original maps to the normalized target of its last occurrence |
| Client.NewRenamesScoped | src/client.rs:45-57 | the tables built by `new` map into their own scope |
| Client.ResolveKeyScoped | src/client.rs:106-125 | the resolved key (normalized, then renamed once) carries the scope's prefix |
| Client.RenameNotTransitive | src/client.rs:107-109 | with renames a→b and b→c, the key `a` resolves to `timeline.b`, not `timeline.c` |
| Client.TimelineAttrsSnoc | src/client.rs:75-93 | the timeline-attribute loop handles the pairs one after another |
| Client.EmptyWellFormed | src/client.rs:41-60 | the empty caches with an empty trace satisfy the invariant |
| Client.DeclareKeepsScoped | src/client.rs:114-131 | caching a newly declared prefixed key keeps every cached key prefixed, and the caches only grow |
| Client.UncachedUndeclared | src/client.rs:111-133 | a key not in its cache was never declared |
| Client.DeclareKeepsOnce | src/client.rs:111-133 | declaring an uncached key keeps every key declared at most once |
| Client.DeclareKeepsCached | src/client.rs:114-131 | after a declaration every declared key is cached with the handle it was declared with |
| Client.DeclareKeepsDeclared | src/client.rs:114-131 | after a declaration every cached key was declared with its handle |
| Client.InternKeyShape | src/client.rs:105-135 | interning a cached key returns its handle and makes no call; an uncached key is declared once with the next handle and cached in its own scope only |
| Client.InternKeyPreserves | src/client.rs:105-135 | interning keeps the invariant, only grows the caches, makes only declare calls, and leaves the resolved key cached with the returned handle |
| Client.AppendNonDeclare | src/client.rs:71-100 | a call other than a declaration keeps the invariant |
| Client.TimelineAttrSends | src/client.rs:75-93 | a metadata call is made exactly when the cache had no value or a different one for (timeline, key); afterwards the cache holds the new value, and an equal value makes no call and no change |
| Client.SameKeysWellFormed | src/client.rs:75-93 | changing only the sent-metadata cache keeps the invariant |
| Client.TimelineAttrPreserves | src/client.rs:75-93 | one timeline attribute keeps the invariant and the current timeline, grows the caches, and makes only declare and metadata calls |
| Client.TimelineAttrsPreserves | src/client.rs:75-93 | the same for the whole timeline-attribute loop |
| Client.EventAttrsPreserves | src/client.rs:95-98 | the event-key loop keeps the invariant, the current timeline and the metadata cache, grows the caches, and makes only declare calls |
| Client.EventAttrsOut | src/client.rs:95-98 | every event pair is kept in order, with its value, under the handle cached for its resolved key |
| Client.SendPreserves | src/client.rs:63-103 | sending an event keeps the invariant (each key declared at most once, caches and declarations agree, keys prefixed) and only grows the caches |
| Client.TimelineAttrsCalls | src/client.rs:75-93 | the timeline-attribute loop makes only declare and metadata calls and keeps the current timeline |
| Client.EventAttrsCalls | src/client.rs:95-98 | the event-key loop makes only declare calls and keeps the current timeline |
| Client.SendShape | src/client.rs:63-103 | the calls are: an open if the timeline is not current, then the timeline-attribute calls, then the event-key declarations, then the event |
| Client.SendOpens | src/client.rs:70-73 | the timeline is opened exactly when it was not current, only as the first call, and is current afterwards |
| Client.OpenOnlyFirst | src/client.rs:70-100 | in an optional open followed by attribute calls and the event, an open occurs exactly when the optional one is there, and only first; the event is last and no earlier call is an event |
| Client.SendEvent | src/client.rs:95-100 | exactly one event call is made, as the last call, with the given ordering and every event pair in order under its interned handle, without deduplication |
| Client.TimelineAttrRepeat | src/client.rs:77-85 | sending the same timeline attribute again makes no call and changes nothing |
| Client.Sink.constructor | src/client.rs:10 | the sink starts with no calls |
| Client.Sink.OpenTimeline | src/client.rs:71 | `open_timeline` records an open call |
| Client.Sink.DeclareAttrKey | src/client.rs:114-130 | `declare_attr_key` returns the next handle and records the declaration |
| Client.Sink.TimelineMetadata | src/client.rs:80-89 | `timeline_metadata` records a metadata call |
| Client.Sink.Event | src/client.rs:100 | `event` records an event call |
| Client.Client.constructor | src/client.rs:36-61 | `new` starts with empty caches and no current timeline, and stores both rename tables built from normalized originals and targets |
| Client.Client.InternedTimelineKey | src/client.rs:105-119 | the method updates the caches, returns the handle, and makes the calls `InternKey` gives for the timeline scope |
| Client.Client.InternedEventKey | src/client.rs:121-135 | the same for the event scope |
| Client.Client.SendTimelineAttr | src/client.rs:75-93 | one iteration of the timeline-attribute loop does what `TimelineAttr` says |
| Client.Client.RecordMetadata | src/client.rs:79-83 | a changed or first value is sent as metadata under the interned key and recorded as the value last sent for that timeline and key |
| Client.Client.SendTimelineAttrs | src/client.rs:75-93 | the timeline-attribute loop does what `TimelineAttrs` says |
| Client.Client.InternEventAttrs | src/client.rs:95-98 | the event-key loop does what `EventAttrs` says and returns its interned pairs |
| Client.Client.OpenIfNotCurrent | src/client.rs:70-73 | the timeline is opened only when it is not the current one, and is the current one afterwards |
| Client.Client.SendEventCall | src/client.rs:100 | the event call is made once with the ordering and the interned pairs, and the caches stay as they were |
| Client.Client.SendCalls | src/client.rs:63-103 | the body of `send_event_on_timeline` updates the caches and makes exactly the calls `Send` gives |
| Client.Client.SendEventOnTimeline | src/client.rs:63-103 | `send_event_on_timeline` does what `Send` says and keeps the client's invariant |

## Left out

- Start-up is not modelled: command-line and configuration merging, reading the
  input files, connecting and authenticating the ingest client, tracing set-up,
  and the `Interruptor` with its Ctrl-C handler. The inputs arrive as a sequence
  of texts and a configuration value.
- serde_json's text parser is a parameter (`JsonParser`). It is only assumed to
  consume at least one character on success (`Progresses`). Error messages are
  opaque strings.
- The regex engine is a parameter (`Regex`) that returns the capture groups of
  the first match in the first line.
- `AttrVal`'s `Display` is a parameter (`Display`), because modality_api is not
  part of this model.
- `TimelineId::allocate` is a counter in `KnownTimelines`. Only its freshness
  matters to the lemmas.
- `BigInt::new_attr_val` is a parameter (`NewAttrVal`), because its range
  handling lives in modality_api. Which variant it builds is left open; the
  facts about the number a coerced value denotes assume only that it keeps the
  value it is given (`KeepsValue`).
- Config.AttrValToNs: the conversion runs on exact reals. It does not model
  `f64`'s rounding when converting wide integers, multiplying by the factor, or
  handling infinities and NaN.
- Coerce.StringToAttrVal: the `f64` parse accepts Rust's decimal grammar (sign,
  digits, `.`, exponent) and yields the exact value. Spellings such as `inf` or
  `NaN` never contain a `.`, so they never reach it, and rounding is not modelled.
- Strings.ToLower: `to_lowercase` is modelled for ASCII letters only. No
  non-ASCII character lowercases to an alias of a time unit.
- InputLoop.ImportInput: the ordering counter is unbounded. The `u128`
  overflow is not modelled.
- InputLoop.ImportAll: the loop's events are not sent to the client. In the
  source, the future returned by `send_event_on_timeline` is never awaited
  (src/bin/importer.rs:278), so the loop only yields the events with their
  orderings. The client is modelled on its own.
- Client.Client.SendEventOnTimeline: every sink call is assumed to succeed. The
  early returns on a failed `open_timeline`, `declare_attr_key`,
  `timeline_metadata` or `event` are not modelled.
- `serde_json::Map` iteration order is taken as the member order of the JSON
  datatype.
- JsonValue.Json: an object's entry list may repeat a key, which a
  `serde_json::Map` never holds. The parser parameter is not constrained to
  produce distinct keys, so for such objects the model's lookup (`Get`, first
  entry) and flattening (every entry) see entries the source would have merged.
- The `pending_json_vals` buffer is not a separate variable. It is filled and
  flushed within the same turn of the loop, so each turn's values are the
  pending batch.
- src/opts.rs and src/error.rs are not part of this model beyond the error
  datatypes.
- The configuration loading in src/config.rs is not part of this model, and its
  tests refer to fields that do not exist.
