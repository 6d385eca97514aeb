/** `prepare_json_object` (src/bin/importer.rs): turn one JSON object, plus the
    attributes taken from preceding non-JSON lines, into a `ReadyToSendEvent` —
    attributes split into a timeline bucket and an event bucket, a timeline chosen
    by its name attribute and looked up in (or added to) `known_timelines`, an event
    name, and an optional timestamp in nanoseconds. */
module Assemble {
  import opened Wrappers
  import opened Api
  import opened JsonValue
  import opened Config
  import opened Flatten

  type Kv = (AttrKey, AttrVal)

  /** What `known_timelines` is keyed by: the timeline-name attribute of an event. */
  type Signature = (AttrKey, AttrVal)

  datatype ReadyToSendEvent = ReadyToSendEvent(timelineId: TimelineId, timelineKvs: seq<Kv>, eventKvs: seq<Kv>)

  datatype PrepareError =
    | NotAnObject               // the value is not a JSON object
    | NoTimelineName            // none of the timeline-name keys is present
    | NoEventName               // the event name came out empty
    | BadTimestamp(e: NsError)  // the timestamp attribute is not numeric

  /** `AttrVal`'s `Display`, which `prepare_json_object` uses to build names; it is
      defined outside this repository, so it is a parameter. */
  type Display = AttrVal -> string

  // ---------------------------------------------------------------------------
  // Buckets
  // ---------------------------------------------------------------------------

  /** A key goes to the timeline bucket when it is a timeline-name key or a
      timeline attribute key. */
  predicate IsTimelineKey(cfg: PluginConfig, k: AttrKey) {
    k in cfg.timelineNames || k in cfg.timelineAttrs
  }

  /** The attributes that go to the timeline bucket (`timeline` true) or to the
      event bucket (`timeline` false), in their original order. */
  function Bucket(cfg: PluginConfig, kvs: seq<Kv>, timeline: bool): (r: seq<Kv>)
    ensures |r| <= |kvs|
  {
    if kvs == [] then []
    else (if IsTimelineKey(cfg, kvs[0].0) == timeline then [kvs[0]] else []) + Bucket(cfg, kvs[1..], timeline)
  }

  /** An attribute is in a bucket exactly when it is in the input and its key
      belongs to that bucket. */
  lemma {:induction false} BucketMembership(cfg: PluginConfig, kvs: seq<Kv>, timeline: bool, kv: Kv)
    ensures kv in Bucket(cfg, kvs, timeline) <==> kv in kvs && IsTimelineKey(cfg, kv.0) == timeline
    decreases |kvs|
  {
    if kvs != [] {
      BucketMembership(cfg, kvs[1..], timeline, kv);
      assert kvs == [kvs[0]] + kvs[1..];
    }
  }

  /** Bucketing a concatenation buckets each part in turn. */
  lemma {:induction false} BucketConcat(cfg: PluginConfig, a: seq<Kv>, b: seq<Kv>, timeline: bool)
    ensures Bucket(cfg, a + b, timeline) == Bucket(cfg, a, timeline) + Bucket(cfg, b, timeline)
    decreases |a|
  {
    if a == [] {
      assert a + b == b;
    } else {
      assert (a + b)[1..] == a[1..] + b;
      BucketConcat(cfg, a[1..], b, timeline);
    }
  }

  /** Every attribute lands in exactly one bucket: together the buckets hold the
      input, each as often as it occurs there. */
  lemma {:induction false} BucketsPartition(cfg: PluginConfig, kvs: seq<Kv>)
    ensures multiset(Bucket(cfg, kvs, true)) + multiset(Bucket(cfg, kvs, false)) == multiset(kvs)
    decreases |kvs|
  {
    if kvs != [] {
      BucketsPartition(cfg, kvs[1..]);
      assert kvs == [kvs[0]] + kvs[1..];
      assert multiset(kvs) == multiset{kvs[0]} + multiset(kvs[1..]);
      if IsTimelineKey(cfg, kvs[0].0) {
        assert Bucket(cfg, kvs, true) == [kvs[0]] + Bucket(cfg, kvs[1..], true);
        assert Bucket(cfg, kvs, false) == Bucket(cfg, kvs[1..], false);
      } else {
        assert Bucket(cfg, kvs, true) == Bucket(cfg, kvs[1..], true);
        assert Bucket(cfg, kvs, false) == [kvs[0]] + Bucket(cfg, kvs[1..], false);
      }
    }
  }

  /** The bucketing loop of `prepare_json_object`. */
  method Classify(cfg: PluginConfig, kvs: seq<Kv>) returns (timelineKvs: seq<Kv>, eventKvs: seq<Kv>)
    ensures timelineKvs == Bucket(cfg, kvs, true)
    ensures eventKvs == Bucket(cfg, kvs, false)
  {
    timelineKvs, eventKvs := [], [];
    var i := 0;
    while i < |kvs|
      invariant 0 <= i <= |kvs|
      invariant timelineKvs == Bucket(cfg, kvs[..i], true)
      invariant eventKvs == Bucket(cfg, kvs[..i], false)
    {
      var (key, val) := kvs[i];
      assert kvs[..i + 1] == kvs[..i] + [kvs[i]];
      assert [kvs[i]][1..] == [];
      BucketConcat(cfg, kvs[..i], [kvs[i]], true);
      BucketConcat(cfg, kvs[..i], [kvs[i]], false);
      if key in cfg.timelineNames {
        timelineKvs := timelineKvs + [(key, val)];
      } else if key in cfg.timelineAttrs {
        timelineKvs := timelineKvs + [(key, val)];
      } else {
        eventKvs := eventKvs + [(key, val)];
      }
      i := i + 1;
    }
    assert kvs[..i] == kvs;
  }

  // ---------------------------------------------------------------------------
  // Looking up names
  // ---------------------------------------------------------------------------

  /** `iter().find(|(k, _)| k == key)`: the position of the first attribute with
      the key. */
  function FindKey(kvs: seq<Kv>, key: AttrKey): (r: Option<nat>)
    ensures r.None? <==> forall i :: 0 <= i < |kvs| ==> kvs[i].0 != key
    ensures r.Some? ==>
      (r.value < |kvs| && kvs[r.value].0 == key &&
       forall j :: 0 <= j < r.value ==> kvs[j].0 != key)
    decreases |kvs|
  {
    if kvs == [] then None
    else if kvs[0].0 == key then Some(0)
    else
      match FindKey(kvs[1..], key)
      case None => None
      case Some(i) => Some(i + 1)
  }

  /** The first attribute with the key. */
  function Lookup(kvs: seq<Kv>, key: AttrKey): Option<Kv> {
    match FindKey(kvs, key)
    case None => None
    case Some(i) => Some(kvs[i])
  }

  /** The position, among `names`, of the first one some attribute carries. */
  function FirstNamedIndex(names: seq<AttrKey>, kvs: seq<Kv>): (r: Option<nat>)
    ensures r.Some? ==> r.value < |names|
    decreases |names|
  {
    if names == [] then None
    else if FindKey(kvs, names[0]).Some? then Some(0)
    else
      match FirstNamedIndex(names[1..], kvs)
      case None => None
      case Some(i) => Some(i + 1)
  }

  /** The search stops at the earliest name that is present, and finds none
      exactly when no name is present. */
  lemma {:induction false} FirstNamedIndexSpec(names: seq<AttrKey>, kvs: seq<Kv>)
    ensures FirstNamedIndex(names, kvs).None? <==> forall j :: 0 <= j < |names| ==> FindKey(kvs, names[j]).None?
    ensures FirstNamedIndex(names, kvs).Some? ==>
      var n := FirstNamedIndex(names, kvs).value;
      FindKey(kvs, names[n]).Some? && forall j :: 0 <= j < n ==> FindKey(kvs, names[j]).None?
    decreases |names|
  {
    if names != [] && FindKey(kvs, names[0]).None? {
      var rest := names[1..];
      FirstNamedIndexSpec(rest, kvs);
      assert forall j :: 0 <= j < |rest| ==> rest[j] == names[j + 1];
      if FirstNamedIndex(rest, kvs).None? {
        forall j | 0 <= j < |names|
          ensures FindKey(kvs, names[j]).None?
        {
          if j > 0 { assert names[j] == rest[j - 1]; }
        }
      } else {
        var i := FirstNamedIndex(rest, kvs).value;
        forall j | 0 <= j < i + 1
          ensures FindKey(kvs, names[j]).None?
        {
          if j > 0 { assert names[j] == rest[j - 1]; }
        }
      }
    }
  }

  /** The attribute chosen by the first of `names` that is present: the first
      attribute carrying that name. */
  function FirstNamed(names: seq<AttrKey>, kvs: seq<Kv>): Option<Kv> {
    match FirstNamedIndex(names, kvs)
    case None => None
    case Some(i) => Lookup(kvs, names[i])
  }

  /** The loop `for name_key in names { if let Some(..) = find(..) { ..; break } }`. */
  method FindFirstNamed(names: seq<AttrKey>, kvs: seq<Kv>) returns (found: Option<Kv>)
    ensures found == FirstNamed(names, kvs)
  {
    FirstNamedIndexSpec(names, kvs);
    var i := 0;
    while i < |names|
      invariant 0 <= i <= |names|
      invariant forall j :: 0 <= j < i ==> FindKey(kvs, names[j]).None?
    {
      var hit := Lookup(kvs, names[i]);
      if hit.Some? {
        return hit;
      }
      i := i + 1;
    }
    return None;
  }

  /** The chosen attribute carries the earliest configured name that is present at
      all, and is the first attribute carrying it; there is none exactly when no
      configured name is present. */
  lemma FirstNamedSpec(names: seq<AttrKey>, kvs: seq<Kv>)
    ensures FirstNamed(names, kvs).None? <==>
      forall j, i :: 0 <= j < |names| && 0 <= i < |kvs| ==> kvs[i].0 != names[j]
    ensures FirstNamed(names, kvs).Some? ==>
      exists n, i :: 0 <= n < |names| && 0 <= i < |kvs| && FirstNamed(names, kvs) == Some(kvs[i])
        && kvs[i].0 == names[n]
        && (forall j :: 0 <= j < i ==> kvs[j].0 != names[n])
        && (forall m, j :: 0 <= m < n && 0 <= j < |kvs| ==> kvs[j].0 != names[m])
  {
    FirstNamedIndexSpec(names, kvs);
    if FirstNamedIndex(names, kvs).None? {
      forall j, i | 0 <= j < |names| && 0 <= i < |kvs|
        ensures kvs[i].0 != names[j]
      {
        assert FindKey(kvs, names[j]).None?;
      }
    } else {
      var n := FirstNamedIndex(names, kvs).value;
      var i := FindKey(kvs, names[n]).value;
      assert forall m :: 0 <= m < n ==> FindKey(kvs, names[m]).None?;
    }
  }

  // ---------------------------------------------------------------------------
  // `known_timelines`
  // ---------------------------------------------------------------------------

  /** `known_timelines.entry(sig).or_insert_with(allocate)`: the map afterwards and
      the id it yields, where `freshId` is what `allocate` would return. */
  function Entry(ids: map<Signature, TimelineId>, freshId: TimelineId, sig: Signature): (map<Signature, TimelineId>, TimelineId) {
    if sig in ids then (ids, ids[sig]) else (ids[sig := freshId], freshId)
  }

  /** A known signature gets its existing id and changes nothing; an unseen one is
      added with the freshId id, and every other entry stays as it was. The id is in
      the map afterwards either way. */
  lemma EntrySpec(ids: map<Signature, TimelineId>, freshId: TimelineId, sig: Signature)
    ensures var (ids', id) := Entry(ids, freshId, sig);
      && (sig in ids ==> ids' == ids && id == ids[sig])
      && (sig !in ids ==> id == freshId && ids'.Keys == ids.Keys + {sig})
      && (forall s :: s in ids ==> s in ids' && ids'[s] == ids[s])
      && sig in ids' && ids'[sig] == id
  {
  }

  /** The registry of timelines seen so far; `next` stands for the state of
      `TimelineId::allocate`, which hands out ids never handed out before. */
  class KnownTimelines {
    var ids: map<Signature, TimelineId>
    var next: nat

    /** Every id in the map was allocated before `next`. */
    ghost predicate Valid()
      reads this
    {
      forall s :: s in ids ==> ids[s].uuid < next
    }

    constructor()
      ensures Valid() && ids == map[]
    {
      ids := map[];
      next := 0;
    }

    /** `TimelineId::allocate`. */
    method Allocate() returns (id: TimelineId)
      modifies this
      requires Valid()
      ensures Valid() && ids == old(ids)
      ensures id == TimelineId(old(next)) && next == old(next) + 1
    {
      id := TimelineId(next);
      next := next + 1;
    }

    /** `entry(sig).or_insert_with(allocate)`. */
    method ResolveOrCreate(sig: Signature) returns (id: TimelineId)
      modifies this
      requires Valid()
      ensures Valid()
      ensures (ids, id) == Entry(old(ids), TimelineId(old(next)), sig)
      ensures next == if sig in old(ids) then old(next) else old(next) + 1
      ensures sig !in old(ids) ==> forall s :: s in old(ids) ==> old(ids)[s] != id
    {
      if sig in ids {
        id := ids[sig];
      } else {
        id := Allocate();
        ids := ids[sig := id];
      }
    }
  }

  // ---------------------------------------------------------------------------
  // The whole preparation
  // ---------------------------------------------------------------------------

  function PrefixOrEmpty(prefix: Option<string>): string {
    match prefix
    case None => ""
    case Some(p) => p
  }

  /** `timestamp_attr_units.unwrap_or_default()`. */
  function UnitsOrDefault(units: Option<TimestampUnit>): TimestampUnit {
    match units
    case None => DefaultUnit()
    case Some(u) => u
  }

  /** The optional timestamp step: when a timestamp key is configured and an event
      attribute carries it, its value converted to nanoseconds is appended under
      `timestamp`. */
  function WithTimestamp(cfg: PluginConfig, eventKvs: seq<Kv>, newAttrVal: NewAttrVal): Result<seq<Kv>, PrepareError> {
    if cfg.timestampAttr.None? then Ok(eventKvs)
    else
      match Lookup(eventKvs, cfg.timestampAttr.value)
      case None => Ok(eventKvs)
      case Some(kv) =>
        match AttrValToNs(UnitsOrDefault(cfg.timestampAttrUnits), kv.1, newAttrVal)
        case Err(e) => Err(BadTimestamp(e))
        case Ok(ns) => Ok(eventKvs + [("timestamp", ns)])
  }

  /** The timeline signature, and the timeline bucket with `name` appended when
      the timeline name (prefix, then the signature's value) is not empty; nothing
      when no timeline-name key is present. */
  function TimelineNaming(cfg: PluginConfig, timelineKvs: seq<Kv>, display: Display): Option<(Signature, seq<Kv>)> {
    match FirstNamed(cfg.timelineNames, timelineKvs)
    case None => None
    case Some(sig) =>
      var name := PrefixOrEmpty(cfg.timelineNamePrefix) + display(sig.1);
      Some((sig, if name != [] then timelineKvs + [("name", String(name))] else timelineKvs))
  }

  /** The event name: the prefix, then the value of the first event-name key
      present, if any. */
  function EventName(cfg: PluginConfig, eventKvs: seq<Kv>, display: Display): string {
    PrefixOrEmpty(cfg.eventNamePrefix) +
      match FirstNamed(cfg.eventNames, eventKvs)
      case None => ""
      case Some(kv) => display(kv.1)
  }

  /** The timeline half of `prepare_json_object`: the signature loop and the `name`
      push. */
  method NameTimeline(cfg: PluginConfig, timelineKvs: seq<Kv>, display: Display)
    returns (named: Option<(Signature, seq<Kv>)>)
    ensures named == TimelineNaming(cfg, timelineKvs, display)
  {
    var sig := FindFirstNamed(cfg.timelineNames, timelineKvs);
    var timelineName := PrefixOrEmpty(cfg.timelineNamePrefix);
    if sig.None? {
      return None;
    }
    timelineName := timelineName + display(sig.value.1);
    var kvs := timelineKvs;
    if timelineName != [] {
      kvs := kvs + [("name", String(timelineName))];
    }
    return Some((sig.value, kvs));
  }

  /** The event-name loop of `prepare_json_object`. */
  method BuildEventName(cfg: PluginConfig, eventKvs: seq<Kv>, display: Display) returns (name: string)
    ensures name == EventName(cfg, eventKvs, display)
  {
    name := PrefixOrEmpty(cfg.eventNamePrefix);
    var named := FindFirstNamed(cfg.eventNames, eventKvs);
    if named.Some? {
      name := name + display(named.value.1);
    } else {
      assert name + "" == name;
    }
  }

  /** The timestamp step of `prepare_json_object`. */
  method AppendTimestamp(cfg: PluginConfig, eventKvs: seq<Kv>, newAttrVal: NewAttrVal) returns (r: Result<seq<Kv>, PrepareError>)
    ensures r == WithTimestamp(cfg, eventKvs, newAttrVal)
  {
    r := Ok(eventKvs);
    if cfg.timestampAttr.Some? {
      var found := Lookup(eventKvs, cfg.timestampAttr.value);
      if found.Some? {
        var ns := AttrValToNs(UnitsOrDefault(cfg.timestampAttrUnits), found.value.1, newAttrVal);
        if ns.Err? {
          return Err(BadTimestamp(ns.error));
        }
        r := Ok(eventKvs + [("timestamp", ns.value)]);
      }
    }
  }

  /** The allocator's state after a preparation that turned the registry `ids` into
      `ids'`: one more id was handed out exactly when the registry grew. */
  function NextAfter(ids: map<Signature, TimelineId>, ids': map<Signature, TimelineId>, next: nat): nat {
    if ids' == ids then next else next + 1
  }

  /** The outcome of a preparation: the event or the error, and `known_timelines`
      afterwards. */
  datatype Prepared = Prepared(result: Result<ReadyToSendEvent, PrepareError>, ids: map<Signature, TimelineId>)

  /** What follows the timeline naming: the registry lookup, then the event name
      and the timestamp. */
  function FinishEvent(cfg: PluginConfig, sig: Signature, timelineKvs: seq<Kv>, eventKvs: seq<Kv>,
                       ids: map<Signature, TimelineId>, freshId: TimelineId, display: Display, newAttrVal: NewAttrVal): Prepared
  {
    var (ids', id) := Entry(ids, freshId, sig);
    var eventName := EventName(cfg, eventKvs, display);
    if eventName == [] then Prepared(Err(NoEventName), ids')
    else
      match WithTimestamp(cfg, eventKvs + [("name", String(eventName))], newAttrVal)
      case Err(e) => Prepared(Err(e), ids')
      case Ok(eventKvs') => Prepared(Ok(ReadyToSendEvent(id, timelineKvs, eventKvs')), ids')
  }

  /** `prepare_json_object` as a function of its inputs, with `freshId` the id a new
      timeline would be allocated. */
  function Prepare(val: Json, extra: seq<Kv>, cfg: PluginConfig, ids: map<Signature, TimelineId>,
                   freshId: TimelineId, display: Display, newAttrVal: NewAttrVal): Prepared
  {
    match AsObject(val)
    case None => Prepared(Err(NotAnObject), ids)
    case Some(m) =>
      var all := extra + FlattenObject(m, newAttrVal);
      match TimelineNaming(cfg, Bucket(cfg, all, true), display)
      case None => Prepared(Err(NoTimelineName), ids)
      case Some((sig, timelineKvs)) =>
        FinishEvent(cfg, sig, timelineKvs, Bucket(cfg, all, false), ids, freshId, display, newAttrVal)
  }

  /** The second half of `prepare_json_object`, from the registry lookup on. */
  method RegisterEvent(cfg: PluginConfig, sig: Signature, timelineKvs: seq<Kv>, eventKvs: seq<Kv>,
                       known: KnownTimelines, display: Display, newAttrVal: NewAttrVal)
    returns (r: Result<ReadyToSendEvent, PrepareError>)
    modifies known
    requires known.Valid()
    ensures known.Valid()
    ensures Prepared(r, known.ids) ==
      FinishEvent(cfg, sig, timelineKvs, eventKvs, old(known.ids), TimelineId(old(known.next)), display, newAttrVal)
    ensures known.next == NextAfter(old(known.ids), known.ids, old(known.next))
  {
    var timelineId := known.ResolveOrCreate(sig);
    var eventName := BuildEventName(cfg, eventKvs, display);
    if eventName == [] {
      return Err(NoEventName);
    }
    var stamped := AppendTimestamp(cfg, eventKvs + [("name", String(eventName))], newAttrVal);
    if stamped.Err? {
      return Err(stamped.error);
    }
    return Ok(ReadyToSendEvent(timelineId, timelineKvs, stamped.value));
  }

  /** `prepare_json_object`: flatten, bucket, name the timeline, look it up in the
      registry, name the event and add the timestamp, stopping at the first error. */
  method PrepareJsonObject(val: Json, extra: seq<Kv>, cfg: PluginConfig, known: KnownTimelines, display: Display, newAttrVal: NewAttrVal)
    returns (r: Result<ReadyToSendEvent, PrepareError>)
    modifies known
    requires known.Valid()
    ensures known.Valid()
    ensures Prepared(r, known.ids) == Prepare(val, extra, cfg, old(known.ids), TimelineId(old(known.next)), display, newAttrVal)
    ensures known.next == NextAfter(old(known.ids), known.ids, old(known.next))
  {
    if !val.JObject? {
      return Err(NotAnObject);
    }
    var allKvs := extra + FlattenObject(val.members, newAttrVal);
    var timelineKvs, eventKvs := Classify(cfg, allKvs);
    var named := NameTimeline(cfg, timelineKvs, display);
    if named.None? {
      return Err(NoTimelineName);
    }
    r := RegisterEvent(cfg, named.value.0, named.value.1, eventKvs, known, display, newAttrVal);
  }

  // ---------------------------------------------------------------------------
  // Properties of the preparation
  // ---------------------------------------------------------------------------

  /** Looking a key up in its own bucket finds what looking it up in all the
      attributes finds. */
  lemma {:induction false} LookupInBucket(cfg: PluginConfig, kvs: seq<Kv>, timeline: bool, n: AttrKey)
    requires IsTimelineKey(cfg, n) == timeline
    ensures FindKey(Bucket(cfg, kvs, timeline), n).None? <==> FindKey(kvs, n).None?
    ensures Lookup(Bucket(cfg, kvs, timeline), n) == Lookup(kvs, n)
    decreases |kvs|
  {
    if kvs != [] {
      LookupInBucket(cfg, kvs[1..], timeline, n);
      var rest := Bucket(cfg, kvs[1..], timeline);
      LookupCons(kvs[0], kvs[1..], n);
      assert [kvs[0]] + kvs[1..] == kvs;
      if IsTimelineKey(cfg, kvs[0].0) == timeline {
        LookupCons(kvs[0], rest, n);
        assert Bucket(cfg, kvs, timeline) == [kvs[0]] + rest;
      } else {
        assert Bucket(cfg, kvs, timeline) == rest;
      }
    }
  }

  /** Looking up in a list with one more attribute in front. */
  lemma LookupCons(kv: Kv, rest: seq<Kv>, n: AttrKey)
    ensures FindKey([kv] + rest, n).None? <==> kv.0 != n && FindKey(rest, n).None?
    ensures Lookup([kv] + rest, n) == if kv.0 == n then Some(kv) else Lookup(rest, n)
  {
    var s := [kv] + rest;
    assert s[0] == kv && s[1..] == rest;
    if kv.0 != n {
      match FindKey(rest, n)
      case None =>
      case Some(i) => assert s[i + 1] == rest[i];
    }
  }

  /** Among names that all belong to one bucket, the first present in that bucket
      is the first present in all the attributes. */
  lemma {:induction false} FirstNamedIndexInBucket(cfg: PluginConfig, names: seq<AttrKey>, kvs: seq<Kv>, timeline: bool)
    requires forall j :: 0 <= j < |names| ==> IsTimelineKey(cfg, names[j]) == timeline
    ensures FirstNamedIndex(names, Bucket(cfg, kvs, timeline)) == FirstNamedIndex(names, kvs)
    decreases |names|
  {
    if names != [] {
      LookupInBucket(cfg, kvs, timeline, names[0]);
      FirstNamedIndexInBucket(cfg, names[1..], kvs, timeline);
    }
  }

  /** Choosing among names that all belong to one bucket gives the same attribute
      whether the choice is made in that bucket or in all the attributes. */
  lemma FirstNamedInBucket(cfg: PluginConfig, names: seq<AttrKey>, kvs: seq<Kv>, timeline: bool)
    requires forall j :: 0 <= j < |names| ==> IsTimelineKey(cfg, names[j]) == timeline
    ensures FirstNamed(names, Bucket(cfg, kvs, timeline)) == FirstNamed(names, kvs)
  {
    FirstNamedIndexInBucket(cfg, names, kvs, timeline);
    var i := FirstNamedIndex(names, kvs);
    if i.Some? {
      LookupInBucket(cfg, kvs, timeline, names[i.value]);
    }
  }

  /** The signature a preparation looks for: among extra attributes and flattened
      ones, the first carrying the earliest configured timeline name present. */
  function SignatureOf(m: seq<Member>, extra: seq<Kv>, cfg: PluginConfig, newAttrVal: NewAttrVal): Option<Signature> {
    FirstNamed(cfg.timelineNames, extra + FlattenObject(m, newAttrVal))
  }

  /** The first two error cases: a value that is not an object, and an object
      none of whose attributes carries a timeline-name key; the registry is then
      untouched. */
  lemma PrepareNoTimeline(val: Json, extra: seq<Kv>, cfg: PluginConfig, ids: map<Signature, TimelineId>,
                          freshId: TimelineId, display: Display, newAttrVal: NewAttrVal)
    ensures !val.JObject? ==> Prepare(val, extra, cfg, ids, freshId, display, newAttrVal) == Prepared(Err(NotAnObject), ids)
    ensures val.JObject? ==>
      (Prepare(val, extra, cfg, ids, freshId, display, newAttrVal).result == Err(NoTimelineName) <==>
       SignatureOf(val.members, extra, cfg, newAttrVal).None?)
    ensures val.JObject? && SignatureOf(val.members, extra, cfg, newAttrVal).None? ==>
      Prepare(val, extra, cfg, ids, freshId, display, newAttrVal).ids == ids
  {
    if val.JObject? {
      var all := extra + FlattenObject(val.members, newAttrVal);
      FirstNamedInBucket(cfg, cfg.timelineNames, all, true);
      var named := TimelineNaming(cfg, Bucket(cfg, all, true), display);
      if named.Some? {
        FinishEventOutcome(cfg, named.value.0, named.value.1, Bucket(cfg, all, false), ids, freshId, display, newAttrVal);
      }
    }
  }

  /** What follows the timeline naming never reports a missing timeline name, and
      leaves the registry holding the signature's entry. */
  lemma FinishEventOutcome(cfg: PluginConfig, sig: Signature, timelineKvs: seq<Kv>, eventKvs: seq<Kv>,
                           ids: map<Signature, TimelineId>, freshId: TimelineId, display: Display, newAttrVal: NewAttrVal)
    ensures var p := FinishEvent(cfg, sig, timelineKvs, eventKvs, ids, freshId, display, newAttrVal);
      && p.ids == Entry(ids, freshId, sig).0
      && p.result != Err(NoTimelineName) && p.result != Err(NotAnObject)
      && (p.result == Err(NoEventName) <==> EventName(cfg, eventKvs, display) == [])
      && (p.result.Ok? ==>
            && p.result.value.timelineId == Entry(ids, freshId, sig).1
            && p.result.value.timelineKvs == timelineKvs
            && Ok(p.result.value.eventKvs) ==
                 WithTimestamp(cfg, eventKvs + [("name", String(EventName(cfg, eventKvs, display)))], newAttrVal))
  {
    var eventName := EventName(cfg, eventKvs, display);
    if eventName != [] {
      match WithTimestamp(cfg, eventKvs + [("name", String(eventName))], newAttrVal)
      case Err(e) =>
        assert e.BadTimestamp?;
      case Ok(_) =>
    }
  }


  /** Once a signature is found the timeline is registered, whatever follows: the
      registry afterwards is the entry for that signature, and the preparation
      fails with `NoEventName` exactly when the event name is empty. */
  lemma PrepareRegisters(val: Json, extra: seq<Kv>, cfg: PluginConfig, ids: map<Signature, TimelineId>,
                         freshId: TimelineId, display: Display, newAttrVal: NewAttrVal)
    requires val.JObject? && SignatureOf(val.members, extra, cfg, newAttrVal).Some?
    ensures var sig := SignatureOf(val.members, extra, cfg, newAttrVal).value;
      var p := Prepare(val, extra, cfg, ids, freshId, display, newAttrVal);
      && p.ids == Entry(ids, freshId, sig).0
      && (p.result == Err(NoEventName) <==>
          EventName(cfg, Bucket(cfg, extra + FlattenObject(val.members, newAttrVal), false), display) == [])
  {
    var all := extra + FlattenObject(val.members, newAttrVal);
    FirstNamedInBucket(cfg, cfg.timelineNames, all, true);
    var named := TimelineNaming(cfg, Bucket(cfg, all, true), display).value;
    FinishEventOutcome(cfg, named.0, named.1, Bucket(cfg, all, false), ids, freshId, display, newAttrVal);
  }


  /** A successful preparation: the timeline is the one registered for the
      signature (an existing id, or the fresh one for an unseen signature); the
      timeline attributes are the timeline bucket, then `name` when the timeline name
      is not empty; the event attributes are the event bucket, then the non-empty
      event name, then the timestamp step. */
  lemma PrepareOk(val: Json, extra: seq<Kv>, cfg: PluginConfig, ids: map<Signature, TimelineId>,
                  freshId: TimelineId, display: Display, newAttrVal: NewAttrVal)
    requires Prepare(val, extra, cfg, ids, freshId, display, newAttrVal).result.Ok?
    ensures val.JObject? && SignatureOf(val.members, extra, cfg, newAttrVal).Some?
    ensures var all := extra + FlattenObject(val.members, newAttrVal);
      var sig := SignatureOf(val.members, extra, cfg, newAttrVal).value;
      var ev := Prepare(val, extra, cfg, ids, freshId, display, newAttrVal).result.value;
      var timelineName := PrefixOrEmpty(cfg.timelineNamePrefix) + display(sig.1);
      var eventName := EventName(cfg, Bucket(cfg, all, false), display);
      && ev.timelineId == (if sig in ids then ids[sig] else freshId)
      && ev.timelineKvs == Bucket(cfg, all, true) +
           (if timelineName != [] then [("name", String(timelineName))] else [])
      && eventName != []
      && Ok(ev.eventKvs) == WithTimestamp(cfg, Bucket(cfg, all, false) + [("name", String(eventName))], newAttrVal)
  {
    var all := extra + FlattenObject(val.members, newAttrVal);
    FirstNamedInBucket(cfg, cfg.timelineNames, all, true);
    var tk := Bucket(cfg, all, true);
    assert tk + [] == tk;
    var named := TimelineNaming(cfg, tk, display).value;
    FinishEventOutcome(cfg, named.0, named.1, Bucket(cfg, all, false), ids, freshId, display, newAttrVal);
  }

  /** The timestamp step keeps every attribute and appends at most one: a
      `timestamp` holding the nanoseconds of the first attribute with the
      configured key, when there is one; it fails exactly when that attribute is not
      numeric. */
  lemma WithTimestampSpec(cfg: PluginConfig, kvs: seq<Kv>, newAttrVal: NewAttrVal)
    ensures cfg.timestampAttr.None? || Lookup(kvs, cfg.timestampAttr.value).None? ==>
      WithTimestamp(cfg, kvs, newAttrVal) == Ok(kvs)
    ensures cfg.timestampAttr.Some? && Lookup(kvs, cfg.timestampAttr.value).Some? ==>
      var v := Lookup(kvs, cfg.timestampAttr.value).value.1;
      var u := UnitsOrDefault(cfg.timestampAttrUnits);
      && (WithTimestamp(cfg, kvs, newAttrVal).Err? <==> NumericValue(v).None?)
      && (WithTimestamp(cfg, kvs, newAttrVal).Ok? ==>
            WithTimestamp(cfg, kvs, newAttrVal) == Ok(kvs + [("timestamp", AttrValToNs(u, v, newAttrVal).value)]))
      && (WithTimestamp(cfg, kvs, newAttrVal).Err? ==> WithTimestamp(cfg, kvs, newAttrVal) == Err(BadTimestamp(NonNumericTimestamp(v))))
  {
  }

  /** With a non-empty event-name prefix the event name is never empty, even when
      no event-name key is present. */
  lemma EventNameWithPrefix(cfg: PluginConfig, eventKvs: seq<Kv>, display: Display)
    requires cfg.eventNamePrefix.Some? && cfg.eventNamePrefix.value != []
    ensures EventName(cfg, eventKvs, display) != []
    ensures |EventName(cfg, eventKvs, display)| >= |cfg.eventNamePrefix.value|
  {
  }

  /** Ids of distinct signatures are distinct. */
  ghost predicate Injective(ids: map<Signature, TimelineId>) {
    forall s1, s2 :: s1 in ids && s2 in ids && s1 != s2 ==> ids[s1] != ids[s2]
  }

  /** Registering with an id no signature holds yet keeps ids distinct. */
  lemma EntryKeepsInjective(ids: map<Signature, TimelineId>, freshId: TimelineId, sig: Signature)
    requires Injective(ids)
    requires forall s :: s in ids ==> ids[s] != freshId
    ensures Injective(Entry(ids, freshId, sig).0)
  {
  }

  /** Two events with the same signature, prepared one after the other, land on the
      same timeline, whatever id the second would have been given; with a fresh id
      for the first, events with different signatures land on different timelines. */
  lemma SameSignatureSameTimeline(v1: Json, v2: Json, extra1: seq<Kv>, extra2: seq<Kv>, cfg: PluginConfig,
                                  ids: map<Signature, TimelineId>, id1: TimelineId, id2: TimelineId,
                                  display: Display, newAttrVal: NewAttrVal)
    requires Prepare(v1, extra1, cfg, ids, id1, display, newAttrVal).result.Ok?
    requires Prepare(v2, extra2, cfg, Prepare(v1, extra1, cfg, ids, id1, display, newAttrVal).ids, id2, display, newAttrVal).result.Ok?
    ensures var p1 := Prepare(v1, extra1, cfg, ids, id1, display, newAttrVal);
      var p2 := Prepare(v2, extra2, cfg, p1.ids, id2, display, newAttrVal);
      && (SignatureOf(v1.members, extra1, cfg, newAttrVal) == SignatureOf(v2.members, extra2, cfg, newAttrVal) ==>
            p2.result.value.timelineId == p1.result.value.timelineId)
      && (SignatureOf(v1.members, extra1, cfg, newAttrVal) != SignatureOf(v2.members, extra2, cfg, newAttrVal)
          && Injective(ids) && (forall s :: s in ids ==> ids[s] != id1 && ids[s] != id2) && id1 != id2 ==>
            p2.result.value.timelineId != p1.result.value.timelineId)
  {
    var p1 := Prepare(v1, extra1, cfg, ids, id1, display, newAttrVal);
    PrepareOk(v1, extra1, cfg, ids, id1, display, newAttrVal);
    PrepareOk(v2, extra2, cfg, p1.ids, id2, display, newAttrVal);
    PrepareRegisters(v1, extra1, cfg, ids, id1, display, newAttrVal);
    var sig1 := SignatureOf(v1.members, extra1, cfg, newAttrVal).value;
    EntrySpec(ids, id1, sig1);
    var sig2 := SignatureOf(v2.members, extra2, cfg, newAttrVal).value;
    EntrySpec(p1.ids, id2, sig2);
  }

  /** A preparation never forgets or changes a known timeline, and adds at most the
      signature it found, under the fresh id. */
  lemma PrepareKeepsKnown(val: Json, extra: seq<Kv>, cfg: PluginConfig, ids: map<Signature, TimelineId>,
                          freshId: TimelineId, display: Display, newAttrVal: NewAttrVal)
    ensures var p := Prepare(val, extra, cfg, ids, freshId, display, newAttrVal);
      && (forall s :: s in ids ==> s in p.ids && p.ids[s] == ids[s])
      && (forall s :: s in p.ids && s !in ids ==> p.ids[s] == freshId)
  {
    PrepareNoTimeline(val, extra, cfg, ids, freshId, display, newAttrVal);
    if val.JObject? && SignatureOf(val.members, extra, cfg, newAttrVal).Some? {
      PrepareRegisters(val, extra, cfg, ids, freshId, display, newAttrVal);
      EntrySpec(ids, freshId, SignatureOf(val.members, extra, cfg, newAttrVal).value);
    }
  }
}
