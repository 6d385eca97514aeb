/** The caching ingest client of src/client.rs.

    The client sits in front of an ingest sink and remembers three things so that it
    sends as little as it can: the handle each attribute key was interned to (one
    cache per scope, timeline and event), the last value it sent for each
    (timeline, key) pair, and the timeline it last opened. Keys are normalised to
    carry their scope prefix and then renamed, once, through a per-scope table.

    The pure part below is a specification of one `send_event_on_timeline` call as a
    function from the caches to the new caches and the calls made on the sink; the
    `Client` class at the end runs the same steps on mutable fields and is proved
    to follow that function. */
module Client {
  import opened Wrappers
  import opened Api
  import opened Config

  // ---------------------------------------------------------------------------
  // Key normalisation and renaming
  // ---------------------------------------------------------------------------

  const TimelinePrefix: string := "timeline."
  const EventPrefix: string := "event."

  /** Put `prefix` in front of `s` unless `s` already starts with it. */
  function NormalizeKey(prefix: string, s: string): (r: string)
    requires prefix != []
    ensures prefix <= r
    ensures r == s <==> prefix <= s
    ensures !(prefix <= s) ==> r[|prefix|..] == s
  {
    if prefix <= s then s else prefix + s
  }

  /** `normalize_timeline_key`. */
  function NormalizeTimelineKey(s: string): (r: string)
    ensures TimelinePrefix <= r
    ensures TimelinePrefix <= s ==> r == s
  {
    NormalizeKey(TimelinePrefix, s)
  }

  /** `normalize_event_key`. */
  function NormalizeEventKey(s: string): (r: string)
    ensures EventPrefix <= r
    ensures EventPrefix <= s ==> r == s
  {
    NormalizeKey(EventPrefix, s)
  }

  /** Normalising twice is normalising once. */
  lemma NormalizeIdempotent(prefix: string, s: string)
    requires prefix != []
    ensures NormalizeKey(prefix, NormalizeKey(prefix, s)) == NormalizeKey(prefix, s)
  {
  }

  /** No key carries both scope prefixes, so the two scopes never share a key. */
  lemma ScopesDisjoint(k: string)
    ensures !(TimelinePrefix <= k && EventPrefix <= k)
  {
    if TimelinePrefix <= k {
      assert k[0] == 't' != EventPrefix[0];
    }
  }

  datatype Scope = TimelineScope | EventScope

  function Prefix(scope: Scope): (p: string)
    ensures p != []
  {
    match scope
    case TimelineScope => TimelinePrefix
    case EventScope => EventPrefix
  }

  /** The scope a normalised key belongs to, read from its prefix. */
  function ScopeOf(k: string): Scope {
    if TimelinePrefix <= k then TimelineScope else EventScope
  }

  lemma ScopeOfPrefixed(scope: Scope, k: string)
    requires Prefix(scope) <= k
    ensures ScopeOf(k) == scope
  {
    ScopesDisjoint(k);
  }

  /** The rename table `Client::new` builds from the configured renames: both sides
      normalised, collected into a map, so a later entry for the same original
      replaces an earlier one. */
  function BuildRenames(rs: seq<AttrKeyRename>, prefix: string): (m: map<string, string>)
    requires prefix != []
    ensures forall k :: k in m ==> prefix <= k && prefix <= m[k]
    decreases |rs|
  {
    if rs == [] then map[]
    else
      var last := rs[|rs| - 1];
      BuildRenames(rs[..|rs| - 1], prefix)[NormalizeKey(prefix, last.original) := NormalizeKey(prefix, last.newKey)]
  }

  /** The normalised originals of a list of renames. */
  function Originals(rs: seq<AttrKeyRename>, prefix: string): set<string>
    requires prefix != []
  {
    set i | 0 <= i < |rs| :: NormalizeKey(prefix, rs[i].original)
  }

  /** The table has an entry exactly for the normalised originals. */
  lemma {:induction false} BuildRenamesDomain(rs: seq<AttrKeyRename>, prefix: string)
    requires prefix != []
    ensures BuildRenames(rs, prefix).Keys == Originals(rs, prefix)
    decreases |rs|
  {
    if rs != [] {
      var init := rs[..|rs| - 1];
      BuildRenamesDomain(init, prefix);
      OriginalsSnoc(rs, prefix);
    }
  }

  /** One more rename adds its normalised original. */
  lemma OriginalsSnoc(rs: seq<AttrKeyRename>, prefix: string)
    requires prefix != [] && rs != []
    ensures Originals(rs, prefix) == Originals(rs[..|rs| - 1], prefix) + {NormalizeKey(prefix, rs[|rs| - 1].original)}
  {
    var init := rs[..|rs| - 1];
    var last := NormalizeKey(prefix, rs[|rs| - 1].original);
    assert forall i :: 0 <= i < |init| ==> init[i] == rs[i];
    forall x | x in Originals(rs, prefix) ensures x in Originals(init, prefix) + {last} {
      var i :| 0 <= i < |rs| && x == NormalizeKey(prefix, rs[i].original);
      if i < |init| {
        assert x == NormalizeKey(prefix, init[i].original);
      }
    }
  }

  /** The entry for an original is the normalised target of the LAST rename that
      names it. */
  lemma {:induction false} BuildRenamesLastWins(rs: seq<AttrKeyRename>, prefix: string, i: nat)
    requires prefix != [] && i < |rs|
    requires forall j :: i < j < |rs| ==>
      NormalizeKey(prefix, rs[j].original) != NormalizeKey(prefix, rs[i].original)
    ensures NormalizeKey(prefix, rs[i].original) in BuildRenames(rs, prefix)
    ensures BuildRenames(rs, prefix)[NormalizeKey(prefix, rs[i].original)] == NormalizeKey(prefix, rs[i].newKey)
    decreases |rs|
  {
    if i < |rs| - 1 {
      var init := rs[..|rs| - 1];
      assert forall j :: i < j < |init| ==> init[j] == rs[j];
      BuildRenamesLastWins(init, prefix, i);
      assert init[i] == rs[i];
    }
  }

  /** The rename tables of both scopes. */
  datatype Renames = Renames(timeline: map<string, string>, event: map<string, string>)

  function Rename(ren: Renames, scope: Scope): map<string, string> {
    match scope
    case TimelineScope => ren.timeline
    case EventScope => ren.event
  }

  /** Every rename target carries its scope's prefix. */
  ghost predicate RenamesScoped(ren: Renames) {
    forall s: Scope, k :: k in Rename(ren, s) ==> Prefix(s) <= Rename(ren, s)[k]
  }

  /** The tables `Client::new` builds are scoped. */
  lemma NewRenamesScoped(rt: seq<AttrKeyRename>, re: seq<AttrKeyRename>)
    ensures RenamesScoped(Renames(BuildRenames(rt, TimelinePrefix), BuildRenames(re, EventPrefix)))
  {
    var ren := Renames(BuildRenames(rt, TimelinePrefix), BuildRenames(re, EventPrefix));
    forall s: Scope, k | k in Rename(ren, s) ensures Prefix(s) <= Rename(ren, s)[k] {
    }
  }

  /** The key actually interned for `key` in a scope: normalised, then renamed once. */
  function ResolveKey(ren: Renames, scope: Scope, key: string): string {
    var n := NormalizeKey(Prefix(scope), key);
    var m := Rename(ren, scope);
    if n in m then m[n] else n
  }

  /** With scoped tables, every resolved key carries its scope's prefix. */
  lemma ResolveKeyScoped(ren: Renames, scope: Scope, key: string)
    requires RenamesScoped(ren)
    ensures Prefix(scope) <= ResolveKey(ren, scope, key)
  {
    var n := NormalizeKey(Prefix(scope), key);
    if n in Rename(ren, scope) {
      assert Prefix(scope) <= Rename(ren, scope)[n];
    }
  }

  /** Renaming is applied once: with `a -> b` and `b -> c`, `a` becomes `b`, not `c`. */
  lemma RenameNotTransitive()
    ensures var ren := Renames(map["timeline.a" := "timeline.b", "timeline.b" := "timeline.c"], map[]);
      ResolveKey(ren, TimelineScope, "a") == "timeline.b"
  {
    assert !(TimelinePrefix <= "a");
    assert TimelinePrefix + "a" == "timeline.a";
  }

  // ---------------------------------------------------------------------------
  // The sink calls and the client's caches
  // ---------------------------------------------------------------------------

  /** One call made on the ingest sink. */
  datatype SinkCall =
    | OpenCall(id: TimelineId)
    | DeclareCall(key: string, handle: InternedKey)
    | MetadataCall(meta: InternedKey, value: AttrVal)
    | EventCall(ordering: nat, attrs: seq<(InternedKey, AttrVal)>)

  /** The caches of `Client`, plus the sink's next handle (`declare_attr_key`
      hands out a fresh handle per declared key). */
  datatype Caches = Caches(
    timelineKeys: map<string, InternedKey>,
    eventKeys: map<string, InternedKey>,
    sent: map<(TimelineId, InternedKey), AttrVal>,
    current: Option<TimelineId>,
    nextHandle: nat)

  function Keys(st: Caches, scope: Scope): map<string, InternedKey> {
    match scope
    case TimelineScope => st.timelineKeys
    case EventScope => st.eventKeys
  }

  function WithKeys(st: Caches, scope: Scope, m: map<string, InternedKey>): Caches {
    match scope
    case TimelineScope => st.(timelineKeys := m)
    case EventScope => st.(eventKeys := m)
  }

  /** New caches, an output and the calls made producing them. */
  datatype Step<T> = Step(st: Caches, out: T, calls: seq<SinkCall>)

  /** `interned_timeline_key` / `interned_event_key`: resolve the key, answer from
      the scope's cache, or declare it to the sink and cache the handle. */
  function InternKey(st: Caches, ren: Renames, scope: Scope, key: string): Step<InternedKey> {
    var k := ResolveKey(ren, scope, key);
    var m := Keys(st, scope);
    if k in m then Step(st, m[k], [])
    else
      var h := InternedKey(st.nextHandle);
      Step(WithKeys(st, scope, m[k := h]).(nextHandle := st.nextHandle + 1), h, [DeclareCall(k, h)])
  }

  /** One timeline attribute: intern its key, then send the value unless exactly that
      value was already sent for this (timeline, key). */
  function TimelineAttr(st: Caches, ren: Renames, id: TimelineId, kv: (AttrKey, AttrVal)): Step<()> {
    var it := InternKey(st, ren, TimelineScope, kv.0);
    var s := it.st;
    if (id, it.out) in s.sent && s.sent[(id, it.out)] == kv.1 then Step(s, (), it.calls)
    else Step(s.(sent := s.sent[(id, it.out) := kv.1]), (), it.calls + [MetadataCall(it.out, kv.1)])
  }

  /** The loop over the timeline attributes. */
  function TimelineAttrs(st: Caches, ren: Renames, id: TimelineId, kvs: seq<(AttrKey, AttrVal)>): Step<()>
    decreases |kvs|
  {
    if kvs == [] then Step(st, (), [])
    else
      var o := TimelineAttrs(st, ren, id, kvs[..|kvs| - 1]);
      var o2 := TimelineAttr(o.st, ren, id, kvs[|kvs| - 1]);
      Step(o2.st, (), o.calls + o2.calls)
  }

  /** The loop over the timeline attributes, one attribute further. */
  lemma TimelineAttrsSnoc(st: Caches, ren: Renames, id: TimelineId, kvs: seq<(AttrKey, AttrVal)>, i: nat)
    requires i < |kvs|
    ensures var before := TimelineAttrs(st, ren, id, kvs[..i]);
      var one := TimelineAttr(before.st, ren, id, kvs[i]);
      TimelineAttrs(st, ren, id, kvs[..i + 1]) == Step(one.st, (), before.calls + one.calls)
  {
    assert kvs[..i + 1][..i] == kvs[..i];
  }

  /** The loop over the event attributes: intern each key, keep each value. */
  function EventAttrs(st: Caches, ren: Renames, kvs: seq<(AttrKey, AttrVal)>): Step<seq<(InternedKey, AttrVal)>>
    decreases |kvs|
  {
    if kvs == [] then Step(st, [], [])
    else
      var o := EventAttrs(st, ren, kvs[..|kvs| - 1]);
      var it := InternKey(o.st, ren, EventScope, kvs[|kvs| - 1].0);
      Step(it.st, o.out + [(it.out, kvs[|kvs| - 1].1)], o.calls + it.calls)
  }

  /** `send_event_on_timeline`: open the timeline if it is not the current one, send
      the timeline attributes that changed, then send one event. */
  function Send(st: Caches, ren: Renames, id: TimelineId, tkvs: seq<(AttrKey, AttrVal)>,
                ordering: nat, ekvs: seq<(AttrKey, AttrVal)>): Step<()>
  {
    var opening := if st.current != Some(id) then [OpenCall(id)] else [];
    var t := TimelineAttrs(st.(current := Some(id)), ren, id, tkvs);
    var e := EventAttrs(t.st, ren, ekvs);
    Step(e.st, (), opening + t.calls + e.calls + [EventCall(ordering, e.out)])
  }

  lemma AppendFour<T>(a: seq<T>, b: seq<T>, c: seq<T>, d: seq<T>, e: seq<T>)
    ensures a + b + c + d + e == a + (b + c + d + e)
  {
    AppendAssoc(a, b + c + d, e);
    AppendAssoc(a, b + c, d);
    AppendAssoc(a, b, c);
  }

  // ---------------------------------------------------------------------------
  // What the caches guarantee
  // ---------------------------------------------------------------------------

  /** Every cached key carries its scope's prefix. */
  ghost predicate KeysScoped(st: Caches) {
    forall s: Scope, k :: k in Keys(st, s) ==> Prefix(s) <= k
  }

  /** No key is declared twice. */
  ghost predicate DeclaredOnce(trace: seq<SinkCall>) {
    forall i, j :: 0 <= i < j < |trace| && trace[i].DeclareCall? && trace[j].DeclareCall? ==>
      trace[i].key != trace[j].key
  }

  /** Every declared key is cached, in the scope its prefix names, under the handle
      the sink gave it. */
  ghost predicate DeclaresCached(st: Caches, trace: seq<SinkCall>) {
    forall i :: 0 <= i < |trace| && trace[i].DeclareCall? ==>
      trace[i].key in Keys(st, ScopeOf(trace[i].key))
      && Keys(st, ScopeOf(trace[i].key))[trace[i].key] == trace[i].handle
  }

  /** Every cached key was declared, with its cached handle. */
  ghost predicate CachedDeclared(st: Caches, trace: seq<SinkCall>) {
    forall s: Scope, k :: k in Keys(st, s) ==> DeclareCall(k, Keys(st, s)[k]) in trace
  }

  ghost predicate WellFormed(st: Caches, ren: Renames, trace: seq<SinkCall>) {
    KeysScoped(st) && RenamesScoped(ren) && DeclaredOnce(trace)
    && DeclaresCached(st, trace) && CachedDeclared(st, trace)
  }

  /** The caches only grow, and a cached key keeps its handle. */
  ghost predicate CachesGrow(st: Caches, st': Caches) {
    forall s: Scope, k :: k in Keys(st, s) ==> k in Keys(st', s) && Keys(st', s)[k] == Keys(st, s)[k]
  }

  /** Calls made while handling attributes: declarations and metadata only. */
  ghost predicate AttrCalls(calls: seq<SinkCall>) {
    forall i :: 0 <= i < |calls| ==> calls[i].DeclareCall? || calls[i].MetadataCall?
  }

  /** The empty trace with empty caches is well formed. */
  lemma EmptyWellFormed(ren: Renames, next: nat)
    requires RenamesScoped(ren)
    ensures WellFormed(Caches(map[], map[], map[], None, next), ren, [])
  {
  }

  function Other(s: Scope): Scope {
    match s
    case TimelineScope => EventScope
    case EventScope => TimelineScope
  }

  /** `st'` is `st` with `k` newly cached under `h` in `scope`. */
  ghost predicate Declared(st: Caches, st': Caches, scope: Scope, k: string, h: InternedKey) {
    k !in Keys(st, scope)
    && Keys(st', scope) == Keys(st, scope)[k := h]
    && Keys(st', Other(scope)) == Keys(st, Other(scope))
  }

  lemma DeclareKeepsScoped(st: Caches, st': Caches, scope: Scope, k: string, h: InternedKey)
    requires KeysScoped(st) && Prefix(scope) <= k && Declared(st, st', scope, k, h)
    ensures KeysScoped(st') && CachesGrow(st, st')
  {
    forall s: Scope, k' | k' in Keys(st', s) ensures Prefix(s) <= k' {
      if s != scope || k' != k {
        assert s == scope || s == Other(scope);
        assert k' in Keys(st, s);
      }
    }
    forall s: Scope, k' | k' in Keys(st, s) ensures k' in Keys(st', s) && Keys(st', s)[k'] == Keys(st, s)[k'] {
      assert s == scope || s == Other(scope);
    }
  }

  /** A key carrying `scope`'s prefix that is not cached in `scope` was never declared. */
  lemma UncachedUndeclared(st: Caches, scope: Scope, k: string, trace: seq<SinkCall>, i: nat)
    requires DeclaresCached(st, trace) && Prefix(scope) <= k && k !in Keys(st, scope)
    requires i < |trace| && trace[i].DeclareCall?
    ensures trace[i].key != k
  {
    if trace[i].key == k {
      ScopeOfPrefixed(scope, k);
    }
  }

  lemma DeclareKeepsOnce(st: Caches, scope: Scope, k: string, h: InternedKey, trace: seq<SinkCall>)
    requires DeclaredOnce(trace) && DeclaresCached(st, trace)
    requires Prefix(scope) <= k && k !in Keys(st, scope)
    ensures DeclaredOnce(trace + [DeclareCall(k, h)])
  {
    var t := trace + [DeclareCall(k, h)];
    forall i, j | 0 <= i < j < |t| && t[i].DeclareCall? && t[j].DeclareCall?
      ensures t[i].key != t[j].key
    {
      assert t[i] == trace[i];
      if j == |trace| {
        UncachedUndeclared(st, scope, k, trace, i);
      } else {
        assert t[j] == trace[j];
      }
    }
  }

  lemma DeclareKeepsCached(st: Caches, st': Caches, scope: Scope, k: string, h: InternedKey, trace: seq<SinkCall>)
    requires DeclaresCached(st, trace) && Prefix(scope) <= k && Declared(st, st', scope, k, h)
    ensures DeclaresCached(st', trace + [DeclareCall(k, h)])
  {
    var t := trace + [DeclareCall(k, h)];
    forall i | 0 <= i < |t| && t[i].DeclareCall?
      ensures t[i].key in Keys(st', ScopeOf(t[i].key))
      ensures Keys(st', ScopeOf(t[i].key))[t[i].key] == t[i].handle
    {
      if i < |trace| {
        assert t[i] == trace[i];
        UncachedUndeclared(st, scope, k, trace, i);
        var s := ScopeOf(t[i].key);
        assert s == scope || s == Other(scope);
      } else {
        ScopeOfPrefixed(scope, k);
      }
    }
  }

  lemma DeclareKeepsDeclared(st: Caches, st': Caches, scope: Scope, k: string, h: InternedKey, trace: seq<SinkCall>)
    requires CachedDeclared(st, trace) && Declared(st, st', scope, k, h)
    ensures CachedDeclared(st', trace + [DeclareCall(k, h)])
  {
    var t := trace + [DeclareCall(k, h)];
    forall s: Scope, k' | k' in Keys(st', s) ensures DeclareCall(k', Keys(st', s)[k']) in t {
      if s == scope && k' == k {
        assert t[|trace|] == DeclareCall(k, h);
      } else {
        assert s == scope || s == Other(scope);
        assert DeclareCall(k', Keys(st, s)[k']) in trace;
      }
    }
  }

  /** What interning does: a cached key is answered from the cache with no call; an
      uncached one is declared under the sink's next handle and cached. */
  lemma InternKeyShape(st: Caches, ren: Renames, scope: Scope, key: string)
    ensures var r := InternKey(st, ren, scope, key);
      var k := ResolveKey(ren, scope, key);
      && (k in Keys(st, scope) ==> r == Step(st, Keys(st, scope)[k], []))
      && (k !in Keys(st, scope) ==>
            && r.out == InternedKey(st.nextHandle)
            && r.calls == [DeclareCall(k, r.out)]
            && Declared(st, r.st, scope, k, r.out)
            && r.st.sent == st.sent && r.st.current == st.current)
  {
  }

  /** Interning keeps the caches well formed, declares at most the one resolved key,
      and leaves the other caches alone. */
  lemma InternKeyPreserves(st: Caches, ren: Renames, scope: Scope, key: string, trace: seq<SinkCall>)
    requires WellFormed(st, ren, trace)
    ensures var r := InternKey(st, ren, scope, key);
      && WellFormed(r.st, ren, trace + r.calls)
      && CachesGrow(st, r.st)
      && r.st.sent == st.sent && r.st.current == st.current
      && AttrCalls(r.calls)
      && ResolveKey(ren, scope, key) in Keys(r.st, scope)
      && Keys(r.st, scope)[ResolveKey(ren, scope, key)] == r.out
  {
    var r := InternKey(st, ren, scope, key);
    var k := ResolveKey(ren, scope, key);
    ResolveKeyScoped(ren, scope, key);
    InternKeyShape(st, ren, scope, key);
    if k !in Keys(st, scope) {
      DeclareKeepsScoped(st, r.st, scope, k, r.out);
      DeclareKeepsOnce(st, scope, k, r.out, trace);
      DeclareKeepsCached(st, r.st, scope, k, r.out, trace);
      DeclareKeepsDeclared(st, r.st, scope, k, r.out, trace);
    } else {
      assert trace + r.calls == trace;
    }
  }

  /** Appending calls other than declarations keeps the declaration facts. */
  lemma AppendNonDeclare(st: Caches, ren: Renames, trace: seq<SinkCall>, c: SinkCall)
    requires WellFormed(st, ren, trace) && !c.DeclareCall?
    ensures WellFormed(st, ren, trace + [c])
  {
    var t := trace + [c];
    forall i, j | 0 <= i < j < |t| && t[i].DeclareCall? && t[j].DeclareCall?
      ensures t[i].key != t[j].key
    {
      assert t[i] == trace[i] && t[j] == trace[j];
    }
    forall i | 0 <= i < |t| && t[i].DeclareCall?
      ensures t[i].key in Keys(st, ScopeOf(t[i].key))
      ensures Keys(st, ScopeOf(t[i].key))[t[i].key] == t[i].handle
    {
      assert t[i] == trace[i];
    }
  }

  lemma GrowTrans(a: Caches, b: Caches, c: Caches)
    requires CachesGrow(a, b) && CachesGrow(b, c)
    ensures CachesGrow(a, c)
  {
  }

  lemma AttrCallsConcat(a: seq<SinkCall>, b: seq<SinkCall>)
    requires AttrCalls(a) && AttrCalls(b)
    ensures AttrCalls(a + b)
  {
    forall i | 0 <= i < |a + b| ensures (a + b)[i].DeclareCall? || (a + b)[i].MetadataCall? {
      if i < |a| { assert (a + b)[i] == a[i]; } else { assert (a + b)[i] == b[i - |a|]; }
    }
  }

  /** A value is sent for a timeline attribute exactly when that value is not the one
      already sent for its key on this timeline; either way it is the recorded one
      afterwards, and nothing but the sent-value cache changes beyond interning. */
  lemma TimelineAttrSends(st: Caches, ren: Renames, id: TimelineId, kv: (AttrKey, AttrVal))
    ensures var it := InternKey(st, ren, TimelineScope, kv.0);
      var r := TimelineAttr(st, ren, id, kv);
      var sentBefore := (id, it.out) in st.sent && st.sent[(id, it.out)] == kv.1;
      && (id, it.out) in r.st.sent && r.st.sent[(id, it.out)] == kv.1
      && (sentBefore ==> r.st.sent == st.sent && r.calls == it.calls)
      && (!sentBefore ==> r.calls == it.calls + [MetadataCall(it.out, kv.1)])
      && r.st.timelineKeys == it.st.timelineKeys && r.st.eventKeys == it.st.eventKeys
      && r.st.current == it.st.current
  {
    InternKeyShape(st, ren, TimelineScope, kv.0);
  }

  /** Caches with the same key maps satisfy the same invariants. */
  lemma SameKeysWellFormed(a: Caches, b: Caches, ren: Renames, t: seq<SinkCall>)
    requires a.timelineKeys == b.timelineKeys && a.eventKeys == b.eventKeys
    requires WellFormed(a, ren, t)
    ensures WellFormed(b, ren, t) && CachesGrow(a, b)
  {
    assert forall s: Scope :: Keys(a, s) == Keys(b, s);
  }

  /** One timeline attribute keeps the caches well formed. */
  lemma TimelineAttrPreserves(st: Caches, ren: Renames, id: TimelineId, kv: (AttrKey, AttrVal), trace: seq<SinkCall>)
    requires WellFormed(st, ren, trace)
    ensures var r := TimelineAttr(st, ren, id, kv);
      && WellFormed(r.st, ren, trace + r.calls)
      && CachesGrow(st, r.st)
      && r.st.current == st.current
      && AttrCalls(r.calls)
  {
    var it := InternKey(st, ren, TimelineScope, kv.0);
    InternKeyPreserves(st, ren, TimelineScope, kv.0, trace);
    TimelineAttrSends(st, ren, id, kv);
    var r := TimelineAttr(st, ren, id, kv);
    if r.calls != it.calls {
      var m := MetadataCall(it.out, kv.1);
      AppendNonDeclare(it.st, ren, trace + it.calls, m);
      assert r.calls == it.calls + [m];
      AppendAssoc(trace, it.calls, [m]);
      AttrCallsConcat(it.calls, [m]);
      SameKeysWellFormed(it.st, r.st, ren, trace + r.calls);
    } else {
      SameKeysWellFormed(it.st, r.st, ren, trace + r.calls);
    }
    GrowTrans(st, it.st, r.st);
  }

  /** The timeline-attribute loop keeps the caches well formed. */
  lemma {:induction false} TimelineAttrsPreserves(st: Caches, ren: Renames, id: TimelineId,
                                                 kvs: seq<(AttrKey, AttrVal)>, trace: seq<SinkCall>)
    requires WellFormed(st, ren, trace)
    ensures var r := TimelineAttrs(st, ren, id, kvs);
      && WellFormed(r.st, ren, trace + r.calls)
      && CachesGrow(st, r.st)
      && r.st.current == st.current
      && AttrCalls(r.calls)
    decreases |kvs|
  {
    if kvs != [] {
      var init := kvs[..|kvs| - 1];
      var o := TimelineAttrs(st, ren, id, init);
      TimelineAttrsPreserves(st, ren, id, init, trace);
      var o2 := TimelineAttr(o.st, ren, id, kvs[|kvs| - 1]);
      TimelineAttrPreserves(o.st, ren, id, kvs[|kvs| - 1], trace + o.calls);
      assert TimelineAttrs(st, ren, id, kvs) == Step(o2.st, (), o.calls + o2.calls);
      AppendAssoc(trace, o.calls, o2.calls);
      GrowTrans(st, o.st, o2.st);
      AttrCallsConcat(o.calls, o2.calls);
    }
  }

  /** The event-attribute loop keeps the caches well formed. */
  lemma {:induction false} EventAttrsPreserves(st: Caches, ren: Renames, kvs: seq<(AttrKey, AttrVal)>,
                                              trace: seq<SinkCall>)
    requires WellFormed(st, ren, trace)
    ensures var r := EventAttrs(st, ren, kvs);
      && WellFormed(r.st, ren, trace + r.calls)
      && CachesGrow(st, r.st)
      && r.st.current == st.current && r.st.sent == st.sent
      && AttrCalls(r.calls)
    decreases |kvs|
  {
    if kvs != [] {
      var init := kvs[..|kvs| - 1];
      var o := EventAttrs(st, ren, init);
      EventAttrsPreserves(st, ren, init, trace);
      var it := InternKey(o.st, ren, EventScope, kvs[|kvs| - 1].0);
      InternKeyPreserves(o.st, ren, EventScope, kvs[|kvs| - 1].0, trace + o.calls);
      AppendAssoc(trace, o.calls, it.calls);
      GrowTrans(st, o.st, it.st);
      AttrCallsConcat(o.calls, it.calls);
    }
  }

  /** The event-attribute loop keeps every value, in order, and pairs each with the
      handle its resolved key is cached under afterwards. */
  lemma {:induction false} EventAttrsOut(st: Caches, ren: Renames, kvs: seq<(AttrKey, AttrVal)>)
    ensures var r := EventAttrs(st, ren, kvs);
      && |r.out| == |kvs|
      && forall i :: 0 <= i < |kvs| ==>
           r.out[i].1 == kvs[i].1
           && ResolveKey(ren, EventScope, kvs[i].0) in r.st.eventKeys
           && r.st.eventKeys[ResolveKey(ren, EventScope, kvs[i].0)] == r.out[i].0
    decreases |kvs|
  {
    if kvs != [] {
      var init := kvs[..|kvs| - 1];
      var o := EventAttrs(st, ren, init);
      EventAttrsOut(st, ren, init);
      var it := InternKey(o.st, ren, EventScope, kvs[|kvs| - 1].0);
      InternKeyShape(o.st, ren, EventScope, kvs[|kvs| - 1].0);
      var r := EventAttrs(st, ren, kvs);
      assert r.st == it.st && r.out == o.out + [(it.out, kvs[|kvs| - 1].1)];
      forall i | 0 <= i < |kvs|
        ensures r.out[i].1 == kvs[i].1
        ensures ResolveKey(ren, EventScope, kvs[i].0) in r.st.eventKeys
        ensures r.st.eventKeys[ResolveKey(ren, EventScope, kvs[i].0)] == r.out[i].0
      {
        if i < |init| {
          assert init[i] == kvs[i];
          assert r.out[i] == o.out[i];
          assert Keys(o.st, EventScope) == o.st.eventKeys;
        }
      }
    }
  }

  /** `send_event_on_timeline` keeps the caches well formed — so no key is ever
      declared twice and every declared key carries its scope prefix — and the caches
      only grow. */
  lemma SendPreserves(st: Caches, ren: Renames, id: TimelineId, tkvs: seq<(AttrKey, AttrVal)>,
                      ordering: nat, ekvs: seq<(AttrKey, AttrVal)>, trace: seq<SinkCall>)
    requires WellFormed(st, ren, trace)
    ensures var r := Send(st, ren, id, tkvs, ordering, ekvs);
      WellFormed(r.st, ren, trace + r.calls) && CachesGrow(st, r.st)
  {
    var opening := if st.current != Some(id) then [OpenCall(id)] else [];
    var s0 := st.(current := Some(id));
    var t0 := trace + opening;
    SameKeysWellFormed(st, s0, ren, trace);
    if opening != [] {
      AppendNonDeclare(s0, ren, trace, OpenCall(id));
    } else {
      assert t0 == trace;
    }
    var t := TimelineAttrs(s0, ren, id, tkvs);
    TimelineAttrsPreserves(s0, ren, id, tkvs, t0);
    var e := EventAttrs(t.st, ren, ekvs);
    EventAttrsPreserves(t.st, ren, ekvs, t0 + t.calls);
    AppendNonDeclare(e.st, ren, t0 + t.calls + e.calls, EventCall(ordering, e.out));
    var ev := [EventCall(ordering, e.out)];
    AppendAssoc(trace, opening + t.calls + e.calls, ev);
    AppendAssoc(trace, opening + t.calls, e.calls);
    AppendAssoc(trace, opening, t.calls);
    GrowTrans(st, s0, t.st);
    GrowTrans(st, t.st, e.st);
  }

  /** The timeline-attribute loop makes only declarations and metadata calls. */
  lemma {:induction false} TimelineAttrsCalls(st: Caches, ren: Renames, id: TimelineId,
                                             kvs: seq<(AttrKey, AttrVal)>)
    ensures AttrCalls(TimelineAttrs(st, ren, id, kvs).calls)
    ensures TimelineAttrs(st, ren, id, kvs).st.current == st.current
    decreases |kvs|
  {
    if kvs != [] {
      var init := kvs[..|kvs| - 1];
      var o := TimelineAttrs(st, ren, id, init);
      TimelineAttrsCalls(st, ren, id, init);
      InternKeyShape(o.st, ren, TimelineScope, kvs[|kvs| - 1].0);
      TimelineAttrSends(o.st, ren, id, kvs[|kvs| - 1]);
      var it := InternKey(o.st, ren, TimelineScope, kvs[|kvs| - 1].0);
      AttrCallsConcat(it.calls, [MetadataCall(it.out, kvs[|kvs| - 1].1)]);
      AttrCallsConcat(o.calls, TimelineAttr(o.st, ren, id, kvs[|kvs| - 1]).calls);
    }
  }

  /** The event-attribute loop makes only declarations. */
  lemma {:induction false} EventAttrsCalls(st: Caches, ren: Renames, kvs: seq<(AttrKey, AttrVal)>)
    ensures AttrCalls(EventAttrs(st, ren, kvs).calls)
    ensures EventAttrs(st, ren, kvs).st.current == st.current
    decreases |kvs|
  {
    if kvs != [] {
      var init := kvs[..|kvs| - 1];
      var o := EventAttrs(st, ren, init);
      EventAttrsCalls(st, ren, init);
      InternKeyShape(o.st, ren, EventScope, kvs[|kvs| - 1].0);
      AttrCallsConcat(o.calls, InternKey(o.st, ren, EventScope, kvs[|kvs| - 1].0).calls);
    }
  }

  /** The calls `Send` makes, in their three groups. */
  lemma SendShape(st: Caches, ren: Renames, id: TimelineId, tkvs: seq<(AttrKey, AttrVal)>,
                  ordering: nat, ekvs: seq<(AttrKey, AttrVal)>)
    ensures var r := Send(st, ren, id, tkvs, ordering, ekvs);
      var t := TimelineAttrs(st.(current := Some(id)), ren, id, tkvs);
      var e := EventAttrs(t.st, ren, ekvs);
      && r.st == e.st
      && r.calls == (if st.current != Some(id) then [OpenCall(id)] else []) + (t.calls + e.calls)
                    + [EventCall(ordering, e.out)]
  {
    var t := TimelineAttrs(st.(current := Some(id)), ren, id, tkvs);
    var e := EventAttrs(t.st, ren, ekvs);
    AppendAssoc(if st.current != Some(id) then [OpenCall(id)] else [], t.calls, e.calls);
  }

  /** The timeline is opened exactly when it is not the current one, as the first call,
      and is the current one afterwards. */
  lemma SendOpens(st: Caches, ren: Renames, id: TimelineId, tkvs: seq<(AttrKey, AttrVal)>,
                  ordering: nat, ekvs: seq<(AttrKey, AttrVal)>)
    ensures var r := Send(st, ren, id, tkvs, ordering, ekvs);
      && r.st.current == Some(id)
      && ((exists i :: 0 <= i < |r.calls| && r.calls[i] == OpenCall(id)) <==> st.current != Some(id))
      && (forall i :: 0 <= i < |r.calls| && r.calls[i].OpenCall? ==> i == 0)
  {
    var opening := if st.current != Some(id) then [OpenCall(id)] else [];
    var s0 := st.(current := Some(id));
    var t := TimelineAttrs(s0, ren, id, tkvs);
    TimelineAttrsCalls(s0, ren, id, tkvs);
    var e := EventAttrs(t.st, ren, ekvs);
    EventAttrsCalls(t.st, ren, ekvs);
    AttrCallsConcat(t.calls, e.calls);
    SendShape(st, ren, id, tkvs, ordering, ekvs);
    OpenOnlyFirst(opening, t.calls + e.calls, EventCall(ordering, e.out), id);
  }

  /** In a trace made of an optional opening of `id`, attribute calls and an event
      call, `id` is opened exactly when the opening is there, and only first. */
  lemma OpenOnlyFirst(opening: seq<SinkCall>, mid: seq<SinkCall>, last: SinkCall, id: TimelineId)
    requires opening == [] || opening == [OpenCall(id)]
    requires AttrCalls(mid) && last.EventCall?
    ensures var calls := opening + mid + [last];
      && ((exists i :: 0 <= i < |calls| && calls[i] == OpenCall(id)) <==> opening != [])
      && (forall i :: 0 <= i < |calls| && calls[i].OpenCall? ==> i == 0)
      && (forall i :: 0 <= i < |calls| - 1 ==> !calls[i].EventCall?)
      && calls[|calls| - 1] == last
  {
    var calls := opening + mid + [last];
    forall i | 0 <= i < |calls| && i >= |opening|
      ensures !calls[i].OpenCall?
      ensures i < |calls| - 1 ==> !calls[i].EventCall?
    {
      if i < |opening| + |mid| {
        assert calls[i] == mid[i - |opening|];
      } else {
        assert calls[i] == last;
      }
    }
    if opening != [] {
      assert calls[0] == OpenCall(id);
    }
  }

  /** Exactly one event call is made, last, under the given ordering, carrying every
      event value in input order, each under the handle of its resolved key. */
  lemma SendEvent(st: Caches, ren: Renames, id: TimelineId, tkvs: seq<(AttrKey, AttrVal)>,
                  ordering: nat, ekvs: seq<(AttrKey, AttrVal)>)
    ensures var r := Send(st, ren, id, tkvs, ordering, ekvs);
      && r.calls != []
      && (forall i :: 0 <= i < |r.calls| - 1 ==> !r.calls[i].EventCall?)
      && r.calls[|r.calls| - 1].EventCall?
      && r.calls[|r.calls| - 1].ordering == ordering
      && |r.calls[|r.calls| - 1].attrs| == |ekvs|
      && forall i :: 0 <= i < |ekvs| ==>
           r.calls[|r.calls| - 1].attrs[i].1 == ekvs[i].1
           && ResolveKey(ren, EventScope, ekvs[i].0) in r.st.eventKeys
           && r.st.eventKeys[ResolveKey(ren, EventScope, ekvs[i].0)] == r.calls[|r.calls| - 1].attrs[i].0
  {
    var opening := if st.current != Some(id) then [OpenCall(id)] else [];
    var s0 := st.(current := Some(id));
    var t := TimelineAttrs(s0, ren, id, tkvs);
    TimelineAttrsCalls(s0, ren, id, tkvs);
    var e := EventAttrs(t.st, ren, ekvs);
    EventAttrsCalls(t.st, ren, ekvs);
    EventAttrsOut(t.st, ren, ekvs);
    AttrCallsConcat(t.calls, e.calls);
    SendShape(st, ren, id, tkvs, ordering, ekvs);
    OpenOnlyFirst(opening, t.calls + e.calls, EventCall(ordering, e.out), id);
  }

  /** An unchanged value is not sent again: a timeline attribute handled a second time
      makes no call and changes nothing. */
  lemma TimelineAttrRepeat(st: Caches, ren: Renames, id: TimelineId, kv: (AttrKey, AttrVal))
    ensures var r1 := TimelineAttr(st, ren, id, kv);
      var r2 := TimelineAttr(r1.st, ren, id, kv);
      r2.calls == [] && r2.st == r1.st
  {
    var r1 := TimelineAttr(st, ren, id, kv);
    var it1 := InternKey(st, ren, TimelineScope, kv.0);
    var k := ResolveKey(ren, TimelineScope, kv.0);
    assert k in Keys(it1.st, TimelineScope) && Keys(it1.st, TimelineScope)[k] == it1.out;
    assert r1.st.timelineKeys == it1.st.timelineKeys;
    var it2 := InternKey(r1.st, ren, TimelineScope, kv.0);
    assert it2 == Step(r1.st, it1.out, []);
  }

  // ---------------------------------------------------------------------------
  // The sink and the client, with state
  // ---------------------------------------------------------------------------

  /** The ingest connection: it hands out a fresh handle per declared key, and its
      ghost `calls` records every call made on it. */
  class Sink {
    var nextHandle: nat
    ghost var calls: seq<SinkCall>

    constructor ()
      ensures nextHandle == 0 && calls == []
    {
      nextHandle := 0;
      calls := [];
    }

    method OpenTimeline(id: TimelineId)
      modifies this
      ensures nextHandle == old(nextHandle) && calls == old(calls) + [OpenCall(id)]
    {
      calls := calls + [OpenCall(id)];
    }

    method DeclareAttrKey(key: string) returns (h: InternedKey)
      modifies this
      ensures h == InternedKey(old(nextHandle)) && nextHandle == old(nextHandle) + 1
      ensures calls == old(calls) + [DeclareCall(key, h)]
    {
      h := InternedKey(nextHandle);
      nextHandle := nextHandle + 1;
      calls := calls + [DeclareCall(key, h)];
    }

    method TimelineMetadata(h: InternedKey, v: AttrVal)
      modifies this
      ensures nextHandle == old(nextHandle) && calls == old(calls) + [MetadataCall(h, v)]
    {
      calls := calls + [MetadataCall(h, v)];
    }

    method Event(ordering: nat, attrs: seq<(InternedKey, AttrVal)>)
      modifies this
      ensures nextHandle == old(nextHandle) && calls == old(calls) + [EventCall(ordering, attrs)]
    {
      calls := calls + [EventCall(ordering, attrs)];
    }
  }

  /** `Client`. */
  class Client {
    const c: Sink
    var timelineKeys: map<string, InternedKey>
    var eventKeys: map<string, InternedKey>
    var renameTimelineAttrs: map<string, string>
    var renameEventAttrs: map<string, string>
    var sentTimelineAttrs: map<(TimelineId, InternedKey), AttrVal>
    var currentTimeline: Option<TimelineId>
    /** How many calls the sink had seen when the client took it over. */
    ghost const base: nat

    ghost function State(): Caches
      reads this, c
    {
      Caches(timelineKeys, eventKeys, sentTimelineAttrs, currentTimeline, c.nextHandle)
    }

    ghost function Renaming(): Renames
      reads this
    {
      Renames(renameTimelineAttrs, renameEventAttrs)
    }

    /** The calls this client made on the sink. */
    ghost function Trace(): seq<SinkCall>
      reads this, c
      requires base <= |c.calls|
    {
      c.calls[base..]
    }

    /** The client's sink trace is well formed: no key declared twice, every
        declared key cached under its handle, every cached key scoped. */
    ghost predicate Valid()
      reads this, c
    {
      Started() && WellFormed(State(), Renaming(), Trace())
    }

    ghost predicate Started()
      reads this, c
    {
      base <= |c.calls|
    }

    /** `Client::new`: empty caches, no current timeline, and the two rename tables. */
    constructor (sink: Sink, renameTimeline: seq<AttrKeyRename>, renameEvent: seq<AttrKeyRename>)
      ensures Valid() && c == sink && Trace() == []
      ensures renameTimelineAttrs == BuildRenames(renameTimeline, TimelinePrefix)
      ensures renameEventAttrs == BuildRenames(renameEvent, EventPrefix)
      ensures State() == Caches(map[], map[], map[], None, sink.nextHandle)
    {
      c := sink;
      timelineKeys := map[];
      eventKeys := map[];
      renameTimelineAttrs := BuildRenames(renameTimeline, TimelinePrefix);
      renameEventAttrs := BuildRenames(renameEvent, EventPrefix);
      sentTimelineAttrs := map[];
      currentTimeline := None;
      base := |sink.calls|;
      new;
      NewRenamesScoped(renameTimeline, renameEvent);
      EmptyWellFormed(Renaming(), sink.nextHandle);
    }

    /** `interned_timeline_key`. */
    method InternedTimelineKey(key: AttrKey) returns (h: InternedKey)
      requires Started()
      modifies this, c
      ensures Started() && Renaming() == old(Renaming())
      ensures var r := InternKey(old(State()), Renaming(), TimelineScope, key);
        State() == r.st && h == r.out && Trace() == old(Trace()) + r.calls
    {
      ghost var st0, t0 := State(), Trace();
      ghost var r := InternKey(st0, Renaming(), TimelineScope, key);
      InternKeyShape(st0, Renaming(), TimelineScope, key);
      var k := NormalizeTimelineKey(key);
      if k in renameTimelineAttrs {
        k := renameTimelineAttrs[k];
      }
      assert k == ResolveKey(Renaming(), TimelineScope, key);
      if k in timelineKeys {
        h := timelineKeys[k];
      } else {
        h := c.DeclareAttrKey(k);
        timelineKeys := timelineKeys[k := h];
        assert c.calls[base..] == t0 + [DeclareCall(k, h)];
      }
      assert State() == r.st;
    }

    /** `interned_event_key`. */
    method InternedEventKey(key: AttrKey) returns (h: InternedKey)
      requires Started()
      modifies this, c
      ensures Started() && Renaming() == old(Renaming())
      ensures var r := InternKey(old(State()), Renaming(), EventScope, key);
        State() == r.st && h == r.out && Trace() == old(Trace()) + r.calls
    {
      ghost var st0, t0 := State(), Trace();
      ghost var r := InternKey(st0, Renaming(), EventScope, key);
      InternKeyShape(st0, Renaming(), EventScope, key);
      var k := NormalizeEventKey(key);
      if k in renameEventAttrs {
        k := renameEventAttrs[k];
      }
      assert k == ResolveKey(Renaming(), EventScope, key);
      if k in eventKeys {
        h := eventKeys[k];
      } else {
        h := c.DeclareAttrKey(k);
        eventKeys := eventKeys[k := h];
        assert c.calls[base..] == t0 + [DeclareCall(k, h)];
      }
      assert State() == r.st;
    }

    /** One timeline attribute of `send_event_on_timeline`: intern its key, and send
        and record the value unless that value was already sent. */
    method SendTimelineAttr(id: TimelineId, tk: AttrKey, tv: AttrVal)
      requires Started()
      modifies this, c
      ensures Started() && Renaming() == old(Renaming())
      ensures var r := TimelineAttr(old(State()), Renaming(), id, (tk, tv));
        State() == r.st && Trace() == old(Trace()) + r.calls
    {
      ghost var s0, t0 := State(), Trace();
      ghost var it := InternKey(s0, Renaming(), TimelineScope, tk);
      TimelineAttrSends(s0, Renaming(), id, (tk, tv));
      var itk := InternedTimelineKey(tk);
      if (id, itk) in sentTimelineAttrs {
        if sentTimelineAttrs[(id, itk)] != tv {
          RecordMetadata(id, itk, tv);
          AppendAssoc(t0, it.calls, [MetadataCall(itk, tv)]);
        }
      } else {
        RecordMetadata(id, itk, tv);
        AppendAssoc(t0, it.calls, [MetadataCall(itk, tv)]);
      }
    }

    /** `timeline_metadata` for one value, and the value recorded as sent. */
    method RecordMetadata(id: TimelineId, itk: InternedKey, tv: AttrVal)
      requires Started()
      modifies this, c
      ensures Started() && Renaming() == old(Renaming())
      ensures State() == old(State()).(sent := old(sentTimelineAttrs)[(id, itk) := tv])
      ensures Trace() == old(Trace()) + [MetadataCall(itk, tv)]
    {
      ghost var t0 := Trace();
      c.TimelineMetadata(itk, tv);
      sentTimelineAttrs := sentTimelineAttrs[(id, itk) := tv];
      assert c.calls[base..] == t0 + [MetadataCall(itk, tv)];
    }

    /** The loop of `send_event_on_timeline` over the timeline attributes. */
    method SendTimelineAttrs(id: TimelineId, tkvs: seq<(AttrKey, AttrVal)>)
      requires Started()
      modifies this, c
      ensures Started() && Renaming() == old(Renaming())
      ensures var r := TimelineAttrs(old(State()), Renaming(), id, tkvs);
        State() == r.st && Trace() == old(Trace()) + r.calls
    {
      ghost var s0, t0 := State(), Trace();
      ghost var ren := Renaming();
      var i := 0;
      while i < |tkvs|
        invariant 0 <= i <= |tkvs|
        invariant Started() && Renaming() == ren
        invariant State() == TimelineAttrs(s0, ren, id, tkvs[..i]).st
        invariant Trace() == t0 + TimelineAttrs(s0, ren, id, tkvs[..i]).calls
      {
        ghost var before := TimelineAttrs(s0, ren, id, tkvs[..i]);
        var (tk, tv) := tkvs[i];
        SendTimelineAttr(id, tk, tv);
        TimelineAttrsSnoc(s0, ren, id, tkvs, i);
        AppendAssoc(t0, before.calls, TimelineAttr(before.st, ren, id, tkvs[i]).calls);
        i := i + 1;
      }
      assert tkvs[..i] == tkvs;
    }

    /** The loop of `send_event_on_timeline` that interns the event keys. */
    method InternEventAttrs(ekvs: seq<(AttrKey, AttrVal)>) returns (interned: seq<(InternedKey, AttrVal)>)
      requires Started()
      modifies this, c
      ensures Started() && Renaming() == old(Renaming())
      ensures var r := EventAttrs(old(State()), Renaming(), ekvs);
        State() == r.st && interned == r.out && Trace() == old(Trace()) + r.calls
    {
      ghost var s0, t0 := State(), Trace();
      ghost var ren := Renaming();
      interned := [];
      var j := 0;
      while j < |ekvs|
        invariant 0 <= j <= |ekvs|
        invariant Started() && Renaming() == ren
        invariant State() == EventAttrs(s0, ren, ekvs[..j]).st
        invariant interned == EventAttrs(s0, ren, ekvs[..j]).out
        invariant Trace() == t0 + EventAttrs(s0, ren, ekvs[..j]).calls
      {
        ghost var before := EventAttrs(s0, ren, ekvs[..j]);
        var (ek, ev) := ekvs[j];
        var h := InternedEventKey(ek);
        interned := interned + [(h, ev)];
        assert ekvs[..j + 1][..j] == ekvs[..j];
        AppendAssoc(t0, before.calls, InternKey(before.st, ren, EventScope, ek).calls);
        j := j + 1;
      }
      assert ekvs[..j] == ekvs;
    }

    /** `send_event_on_timeline`: the sink sees exactly the calls `Send` makes, the
        caches become those `Send` leaves, and the trace stays well formed. */
    method SendEventOnTimeline(id: TimelineId, tkvs: seq<(AttrKey, AttrVal)>, ordering: nat,
                               ekvs: seq<(AttrKey, AttrVal)>)
      requires Valid()
      modifies this, c
      ensures Valid() && Renaming() == old(Renaming())
      ensures var r := Send(old(State()), Renaming(), id, tkvs, ordering, ekvs);
        State() == r.st && Trace() == old(Trace()) + r.calls
    {
      SendPreserves(State(), Renaming(), id, tkvs, ordering, ekvs, Trace());
      SendCalls(id, tkvs, ordering, ekvs);
    }

    /** The body of `send_event_on_timeline`: open the timeline unless it is the
        current one, send the timeline attributes, intern the event keys and send the
        event. */
    method SendCalls(id: TimelineId, tkvs: seq<(AttrKey, AttrVal)>, ordering: nat,
                     ekvs: seq<(AttrKey, AttrVal)>)
      requires Started()
      modifies this, c
      ensures Started() && Renaming() == old(Renaming())
      ensures var r := Send(old(State()), Renaming(), id, tkvs, ordering, ekvs);
        State() == r.st && Trace() == old(Trace()) + r.calls
    {
      ghost var st0, t0 := State(), Trace();
      ghost var ren := Renaming();
      ghost var opening := if currentTimeline != Some(id) then [OpenCall(id)] else [];
      OpenIfNotCurrent(id);
      ghost var t := TimelineAttrs(st0.(current := Some(id)), ren, id, tkvs);
      SendTimelineAttrs(id, tkvs);
      ghost var e := EventAttrs(t.st, ren, ekvs);
      var interned := InternEventAttrs(ekvs);
      SendEventCall(ordering, interned);
      AppendFour(t0, opening, t.calls, e.calls, [EventCall(ordering, e.out)]);
    }

    /** `open_timeline` unless the timeline is the current one, which it is
        afterwards. */
    method OpenIfNotCurrent(id: TimelineId)
      requires Started()
      modifies this, c
      ensures Started() && Renaming() == old(Renaming())
      ensures State() == old(State()).(current := Some(id))
      ensures Trace() == old(Trace()) + if old(currentTimeline) != Some(id) then [OpenCall(id)] else []
    {
      ghost var t0 := Trace();
      if currentTimeline != Some(id) {
        c.OpenTimeline(id);
        currentTimeline := Some(id);
        assert c.calls[base..] == t0 + [OpenCall(id)];
      }
    }

    /** The final `event` call. */
    method SendEventCall(ordering: nat, interned: seq<(InternedKey, AttrVal)>)
      requires Started()
      modifies c
      ensures Started() && State() == old(State())
      ensures Trace() == old(Trace()) + [EventCall(ordering, interned)]
    {
      ghost var t0 := Trace();
      c.Event(ordering, interned);
      assert c.calls[base..] == t0 + [EventCall(ordering, interned)];
    }
  }
}
