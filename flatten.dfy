/** The flattening of a JSON object in src/bin/importer.rs: the depth-first walk
    `walk_obj` (`walk_obj_rec` / `walk_array_rec`), the dotted-key attributes
    `prepare_json_object` collects from it, and `get_val_at_path`. */
module Flatten {
  import opened Wrappers
  import opened Strings
  import opened Api
  import opened JsonValue
  import opened Coerce

  /** The segments leading to a value: object keys, and array indices in decimal. */
  type JsonPath = seq<string>

  /** A value `walk_obj` hands to its callback, with its path. */
  datatype Leaf = Leaf(path: JsonPath, value: Json)

  /** Every leaf of `v`, found under `path`, in depth-first order: an object or an
      array is walked into, any other value (`null` included) is a leaf. */
  function WalkValue(path: JsonPath, v: Json): (r: seq<Leaf>)
    ensures forall i :: 0 <= i < |r| ==> !IsContainer(r[i].value) && path <= r[i].path
    decreases v
  {
    match v
    case JObject(m) => WalkMembers(path, m)
    case JArray(a) => WalkItems(path, a, 0)
    case _ => [Leaf(path, v)]
  }

  /** `walk_obj_rec`: each entry in iteration order, under its key. */
  function WalkMembers(path: JsonPath, m: seq<Member>): (r: seq<Leaf>)
    ensures forall i :: 0 <= i < |r| ==>
      !IsContainer(r[i].value) && |path| < |r[i].path| && path <= r[i].path
    decreases m
  {
    if m == [] then []
    else
      var first := WalkValue(path + [m[0].key], m[0].value);
      assert forall i :: 0 <= i < |first| ==> path <= path + [m[0].key] <= first[i].path;
      first + WalkMembers(path, m[1..])
  }

  /** `walk_array_rec`: each element in order, under its index (`index` counts from
      the start of the array). */
  function WalkItems(path: JsonPath, a: seq<Json>, index: nat): (r: seq<Leaf>)
    ensures forall i :: 0 <= i < |r| ==>
      !IsContainer(r[i].value) && |path| < |r[i].path| && path <= r[i].path
    decreases a
  {
    if a == [] then []
    else
      var first := WalkValue(path + [NatToDecimal(index)], a[0]);
      assert forall i :: 0 <= i < |first| ==> path <= path + [NatToDecimal(index)] <= first[i].path;
      first + WalkItems(path, a[1..], index + 1)
  }

  /** `walk_obj`, started from the empty path. */
  function WalkObj(m: seq<Member>): seq<Leaf> {
    WalkMembers([], m)
  }

  /** The callback `prepare_json_object` gives `walk_obj`: the key is the path
      joined with `.`, and only leaves with an attribute value are kept. */
  function LeafKvs(leaves: seq<Leaf>, newAttrVal: NewAttrVal): (r: seq<(AttrKey, AttrVal)>)
    ensures |r| <= |leaves|
  {
    if leaves == [] then []
    else
      var rest := LeafKvs(leaves[1..], newAttrVal);
      match JsonLeafToAttrVal(leaves[0].value, newAttrVal)
      case None => rest
      case Some(a) => [(Join(leaves[0].path, '.'), a)] + rest
  }

  /** The attributes an object flattens to. */
  function FlattenObject(m: seq<Member>, newAttrVal: NewAttrVal): seq<(AttrKey, AttrVal)> {
    LeafKvs(WalkObj(m), newAttrVal)
  }

  // ---------------------------------------------------------------------------
  // Properties of the walk
  // ---------------------------------------------------------------------------

  /** Walking a concatenation of entries walks each part in turn. */
  lemma {:induction false} WalkMembersConcat(path: JsonPath, m1: seq<Member>, m2: seq<Member>)
    ensures WalkMembers(path, m1 + m2) == WalkMembers(path, m1) + WalkMembers(path, m2)
    decreases |m1|
  {
    if m1 != [] {
      assert (m1 + m2)[1..] == m1[1..] + m2;
      WalkMembersConcat(path, m1[1..], m2);
    } else {
      assert m1 + m2 == m2;
    }
  }

  /** Attribute collection distributes over concatenation, so the order of the
      leaves is kept. */
  lemma {:induction false} LeafKvsConcat(a: seq<Leaf>, b: seq<Leaf>, newAttrVal: NewAttrVal)
    ensures LeafKvs(a + b, newAttrVal) == LeafKvs(a, newAttrVal) + LeafKvs(b, newAttrVal)
    decreases |a|
  {
    if a != [] {
      assert (a + b)[1..] == a[1..] + b;
      LeafKvsConcat(a[1..], b, newAttrVal);
    } else {
      assert a + b == b;
    }
  }

  /** The attributes of the collected leaves are exactly the leaves that have an
      attribute value, each under its joined path. */
  lemma {:induction false} LeafKvsMembership(leaves: seq<Leaf>, k: AttrKey, a: AttrVal, newAttrVal: NewAttrVal)
    ensures (k, a) in LeafKvs(leaves, newAttrVal) <==>
      exists i :: 0 <= i < |leaves| && Join(leaves[i].path, '.') == k
        && JsonLeafToAttrVal(leaves[i].value, newAttrVal) == Some(a)
    decreases |leaves|
  {
    if leaves != [] {
      LeafKvsMembership(leaves[1..], k, a, newAttrVal);
      if (k, a) in LeafKvs(leaves[1..], newAttrVal) {
        var i :| 1 <= i + 1 < |leaves| && Join(leaves[1..][i].path, '.') == k
          && JsonLeafToAttrVal(leaves[1..][i].value, newAttrVal) == Some(a);
        assert leaves[1..][i] == leaves[i + 1];
      }
      if exists i :: 0 <= i < |leaves| && Join(leaves[i].path, '.') == k
          && JsonLeafToAttrVal(leaves[i].value, newAttrVal) == Some(a) {
        var i :| 0 <= i < |leaves| && Join(leaves[i].path, '.') == k
          && JsonLeafToAttrVal(leaves[i].value, newAttrVal) == Some(a);
        if i > 0 {
          assert leaves[1..][i - 1] == leaves[i];
        }
      }
    }
  }

  /** A `null`, an empty object and an empty array contribute nothing: removing such
      an entry leaves the flattened attributes unchanged. */
  lemma FlattenSkipsEmpty(m1: seq<Member>, k: string, v: Json, m2: seq<Member>, newAttrVal: NewAttrVal)
    requires v == JNull || v == JObject([]) || v == JArray([])
    ensures FlattenObject(m1 + [Member(k, v)] + m2, newAttrVal) == FlattenObject(m1 + m2, newAttrVal)
  {
    FlattenConcat(m1 + [Member(k, v)], m2, newAttrVal);
    FlattenConcat(m1, [Member(k, v)], newAttrVal);
    FlattenConcat(m1, m2, newAttrVal);
    FlattenEmptyEntry(k, v, newAttrVal);
    assert FlattenObject(m1, newAttrVal) + [] == FlattenObject(m1, newAttrVal);
  }

  /** An entry whose value is `null`, `{}` or `[]` flattens to nothing. */
  lemma FlattenEmptyEntry(k: string, v: Json, newAttrVal: NewAttrVal)
    requires v == JNull || v == JObject([]) || v == JArray([])
    ensures FlattenObject([Member(k, v)], newAttrVal) == []
  {
    var m := [Member(k, v)];
    var empty: JsonPath := [];
    assert m[1..] == [] && empty + [m[0].key] == [k];
    assert WalkMembers(empty, m[1..]) == [];
    assert WalkObj(m) == WalkValue([k], v) + [];
    if v == JNull {
      assert WalkValue([k], v) == [Leaf([k], JNull)];
    } else {
      assert WalkValue([k], v) == [];
    }
  }

  /** Entries are flattened one after another, so the attributes of a later entry
      follow those of an earlier one. */
  lemma FlattenConcat(m1: seq<Member>, m2: seq<Member>, newAttrVal: NewAttrVal)
    ensures FlattenObject(m1 + m2, newAttrVal) == FlattenObject(m1, newAttrVal) + FlattenObject(m2, newAttrVal)
  {
    WalkMembersConcat([], m1, m2);
    LeafKvsConcat(WalkObj(m1), WalkObj(m2), newAttrVal);
  }

  /** The leaves of `{"a": {"b": 1, "c": [true, null]}, "d": "x"}`. */
  function ExampleObject(): seq<Member> {
    [Member("a", JObject([
       Member("b", JNumber(PosInt(1))),
       Member("c", JArray([JBool(true), JNull]))])),
     Member("d", JString("x"))]
  }

  /** The leaves of the example, in depth-first order, the `null` included. */
  function ExampleLeaves(): seq<Leaf> {
    [Leaf(["a", "b"], JNumber(PosInt(1))),
     Leaf(["a", "c", "0"], JBool(true)),
     Leaf(["a", "c", "1"], JNull),
     Leaf(["d"], JString("x"))]
  }

  /** The array `[true, null]` under `a.c` gives its elements under `0` and `1`. */
  lemma WalkExampleArray()
    ensures WalkItems(["a", "c"], [JBool(true), JNull], 0) ==
      [Leaf(["a", "c", "0"], JBool(true)), Leaf(["a", "c", "1"], JNull)]
  {
    assert NatToDecimal(0) == "0";
    assert NatToDecimal(1) == "1";
    var c := [JBool(true), JNull];
    var p := ["a", "c"];
    assert c[1..] == [JNull] && c[1..][1..] == [];
    assert p + [NatToDecimal(1)] == ["a", "c", "1"];
    assert WalkItems(p, c[1..], 1) == [Leaf(["a", "c", "1"], JNull)];
    assert p + [NatToDecimal(0)] == ["a", "c", "0"];
  }

  /** The object under `a`. */
  lemma WalkExampleInner()
    ensures WalkMembers(["a"], [Member("b", JNumber(PosInt(1))), Member("c", JArray([JBool(true), JNull]))]) ==
      [Leaf(["a", "b"], JNumber(PosInt(1))), Leaf(["a", "c", "0"], JBool(true)), Leaf(["a", "c", "1"], JNull)]
  {
    WalkExampleArray();
    var c := [JBool(true), JNull];
    var wc := [Leaf(["a", "c", "0"], JBool(true)), Leaf(["a", "c", "1"], JNull)];
    var inner := [Member("b", JNumber(PosInt(1))), Member("c", JArray(c))];
    assert inner[1..] == [Member("c", JArray(c))] && inner[1..][1..] == [];
    assert ["a"] + ["c"] == ["a", "c"];
    assert WalkMembers(["a"], inner[1..]) == wc;
    assert ["a"] + ["b"] == ["a", "b"];
  }

  /** Walking the example visits `a.b`, `a.c.0`, `a.c.1` and `d` in that order,
      the `null` included. */
  lemma WalkExample()
    ensures WalkObj(ExampleObject()) == ExampleLeaves()
  {
    WalkExampleInner();
    var top := ExampleObject();
    assert top[1..] == [Member("d", JString("x"))] && top[1..][1..] == [];
    assert [] + ["d"] == ["d"] && [] + ["a"] == ["a"];
    assert WalkMembers([], top[1..]) == [Leaf(["d"], JString("x"))];
  }

  /** The example's leaves give `a.b = 1`, `a.c.0 = true` and `d = "x"`. */
  lemma LeafKvsExample(newAttrVal: NewAttrVal)
    ensures LeafKvs(ExampleLeaves(), newAttrVal) == [("a.b", Integer(1)), ("a.c.0", Bool(true)), ("d", String("x"))]
  {
    var leaves := ExampleLeaves();
    assert leaves[1..][1..][1..][1..] == [];
    assert Join(["d"], '.') == "d";
    assert LeafKvs(leaves[3..], newAttrVal) == [("d", String("x"))];
    assert LeafKvs(leaves[2..], newAttrVal) == [("d", String("x"))];
    assert Join(["a", "c", "0"], '.') == "a.c.0";
    assert LeafKvs(leaves[1..], newAttrVal) == [("a.c.0", Bool(true)), ("d", String("x"))];
    assert Join(["a", "b"], '.') == "a.b";
  }

  /** The example flattens to `a.b = 1`, `a.c.0 = true` and `d = "x"`: nested keys
      are joined with `.`, an array element is named by its index, and the `null` is
      dropped. */
  lemma FlattenExample(newAttrVal: NewAttrVal)
    ensures FlattenObject(ExampleObject(), newAttrVal)
      == [("a.b", Integer(1)), ("a.c.0", Bool(true)), ("d", String("x"))]
  {
    WalkExample();
    LeafKvsExample(newAttrVal);
  }

  // ---------------------------------------------------------------------------
  // `get_val_at_path`
  // ---------------------------------------------------------------------------

  /** Follow `parts` through nested objects: every part but the last must name an
      object. */
  function ValAtParts(parts: seq<string>, m: seq<Member>): Option<Json>
    requires |parts| >= 1
    decreases |parts|
  {
    if |parts| == 1 then Get(m, parts[0])
    else
      match Get(m, parts[0])
      case None => None
      case Some(v) =>
        match AsObject(v)
        case None => None
        case Some(o) => ValAtParts(parts[1..], o)
  }

  /** `get_val_at_path`: split the path at `.` and walk the parts front to back. */
  method GetValAtPath(path: string, obj: seq<Member>) returns (r: Option<Json>)
    ensures r == ValAtParts(Split(path, '.'), obj)
  {
    var parts := Split(path, '.');
    var cur := obj;
    while |parts| > 1
      invariant |parts| >= 1
      invariant ValAtParts(parts, cur) == ValAtParts(Split(path, '.'), obj)
      decreases |parts|
    {
      var head := parts[0];
      parts := parts[1..];
      var next := Get(cur, head);
      if next.None? {
        return None;
      }
      var o := AsObject(next.value);
      if o.None? {
        return None;
      }
      cur := o.value;
    }
    r := Get(cur, parts[0]);
  }

  /** Every leaf of an entry's value is among the leaves of the object. */
  lemma {:induction false} WalkMembersContains(path: JsonPath, m: seq<Member>, i: int, leaf: Leaf)
    requires 0 <= i < |m|
    requires leaf in WalkValue(path + [m[i].key], m[i].value)
    ensures leaf in WalkMembers(path, m)
    decreases |m|
  {
    if i > 0 {
      assert m[1..][i - 1] == m[i];
      WalkMembersContains(path, m[1..], i - 1, leaf);
    }
  }

  /** A scalar found by following `parts` is the leaf `walk_obj` reports under the
      same path. */
  lemma {:induction false} ValAtPartsIsLeaf(path: JsonPath, parts: seq<string>, m: seq<Member>)
    requires |parts| >= 1
    requires ValAtParts(parts, m).Some? && !IsContainer(ValAtParts(parts, m).value)
    ensures Leaf(path + parts, ValAtParts(parts, m).value) in WalkMembers(path, m)
    decreases |parts|
  {
    var v := Get(m, parts[0]).value;
    var i :| 0 <= i < |m| && m[i] == Member(parts[0], v);
    if |parts| == 1 {
      assert path + parts == path + [parts[0]];
      assert WalkValue(path + [m[i].key], v) == [Leaf(path + [parts[0]], v)];
      WalkMembersContains(path, m, i, Leaf(path + parts, v));
    } else {
      var o := AsObject(v).value;
      ValAtPartsIsLeaf(path + [parts[0]], parts[1..], o);
      assert path + [parts[0]] + parts[1..] == path + parts;
      assert WalkValue(path + [m[i].key], v) == WalkMembers(path + [parts[0]], o);
      WalkMembersContains(path, m, i, Leaf(path + parts, ValAtParts(parts, m).value));
    }
  }

  /** What `get_val_at_path` finds agrees with the flattening: a scalar with an
      attribute value found at a dotted path is the attribute flattened under that
      very path. */
  lemma GetValAtPathAgreesWithFlatten(p: string, m: seq<Member>, newAttrVal: NewAttrVal)
    requires ValAtParts(Split(p, '.'), m).Some?
    requires JsonLeafToAttrVal(ValAtParts(Split(p, '.'), m).value, newAttrVal).Some?
    ensures (p, JsonLeafToAttrVal(ValAtParts(Split(p, '.'), m).value, newAttrVal).value) in FlattenObject(m, newAttrVal)
  {
    var parts := Split(p, '.');
    var v := ValAtParts(parts, m).value;
    ValAtPartsIsLeaf([], parts, m);
    assert [] + parts == parts;
    var leaves := WalkObj(m);
    var i :| 0 <= i < |leaves| && leaves[i] == Leaf(parts, v);
    JoinSplit(p, '.');
    LeafKvsMembership(leaves, p, JsonLeafToAttrVal(v, newAttrVal).value, newAttrVal);
  }
}
