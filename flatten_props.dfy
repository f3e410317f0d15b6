/** What the two flatteners promise, proved on the leaves and carried over to the map. */
module FlattenProps {
  import opened Wrappers
  import opened PyStr
  import opened JsonValue
  import opened FlatMaps
  import opened Flatten
  import opened FlattenLeaves

  /** Every key of `es` starts with `prefix`. */
  predicate Under(es: seq<Entry>, prefix: string) {
    forall i :: 0 <= i < |es| ==> StartsWith(es[i].0, prefix)
  }

  lemma StartsWithTrans(s: string, p: string, q: string)
    requires StartsWith(s, p) && StartsWith(p, q)
    ensures StartsWith(s, q)
  {
    assert s[..|q|] == s[..|p|][..|q|];
  }

  lemma StartsWithConcat(a: string, b: string)
    ensures StartsWith(a + b, a)
  {
    assert (a + b)[..|a|] == a;
  }

  lemma UnderCat(a: Result<seq<Entry>>, b: Result<seq<Entry>>, prefix: string)
    requires a.Ok? && b.Ok? && Under(a.value, prefix) && Under(b.value, prefix)
    ensures Under(Cat(a, b).value, prefix)
  {
    var c := Cat(a, b).value;
    forall i | 0 <= i < |c| ensures StartsWith(c[i].0, prefix) {
      if i >= |a.value| {
        assert c[i] == b.value[i - |a.value|];
      } else {
        assert c[i] == a.value[i];
      }
    }
  }

  lemma UnderWeaken(es: seq<Entry>, p: string, q: string)
    requires Under(es, p) && StartsWith(p, q)
    ensures Under(es, q)
  {
    forall i | 0 <= i < |es| ensures StartsWith(es[i].0, q) {
      StartsWithTrans(es[i].0, p, q);
    }
  }

  /** A truthy name never prints as the empty string. */
  lemma TruthyTextNonEmpty(v: Json)
    requires Truthy(v) && (v.JFloat? ==> v.repr != "")
    ensures Text(v) != ""
  {
  }

  // ---------------------------------------------------------------------
  // Every key lies under the path it was flattened from.

  lemma {:induction false} LeavesUnder(ver: Version, data: Json, path: string)
    requires path != "" && Leaves(ver, data, path).Ok?
    ensures Under(Leaves(ver, data, path).value, path + ".")
    decreases data, 2
  {
    var name := MetaName(data.members).value;
    var p := NamedPath(ver, path, name);
    MemberLeavesUnder(ver, data.members, p, 0);
    if p != path {
      assert p + "." == (path + ".") + (Text(name.value) + ".");
      StartsWithConcat(path + ".", Text(name.value) + ".");
      UnderWeaken(Leaves(ver, data, path).value, p + ".", path + ".");
    }
  }

  lemma {:induction false} MemberLeavesUnder(ver: Version, ms: seq<(string, Json)>, path: string, i: nat)
    requires i <= |ms| && path != "" && MemberLeaves(ver, ms, path, i).Ok?
    ensures Under(MemberLeaves(ver, ms, path, i).value, path + ".")
    decreases JObject(ms), 1, |ms| - i
  {
    if i < |ms| {
      var value := ms[i].1;
      MemberSmaller(ms, i);
      var cp := ChildPath(path, ms[i].0);
      assert cp == (path + ".") + ms[i].0;
      StartsWithConcat(path + ".", ms[i].0);
      var head :=
        if value.JObject? then Leaves(ver, value, cp)
        else if value.JArray? then ItemLeaves(ver, value.items, cp, 0)
        else Ok([(cp, value)]);
      if value.JObject? {
        LeavesUnder(ver, value, cp);
        StartsWithConcat(cp, ".");
        StartsWithTrans(cp + ".", cp, path + ".");
        UnderWeaken(head.value, cp + ".", path + ".");
      } else if value.JArray? {
        ItemLeavesUnder(ver, value.items, cp, 0);
        UnderWeaken(head.value, cp, path + ".");
      }
      MemberLeavesUnder(ver, ms, path, i + 1);
      UnderCat(head, MemberLeaves(ver, ms, path, i + 1), path + ".");
    }
  }

  lemma {:induction false} ItemLeavesUnder(ver: Version, items: seq<Json>, path: string, j: nat)
    requires j <= |items| && ItemLeaves(ver, items, path, j).Ok?
    ensures Under(ItemLeaves(ver, items, path, j).value, path)
    decreases JArray(items), 1, |items| - j
  {
    if j < |items| {
      var item := items[j];
      var ip := IndexPath(path, j);
      assert ip == path + ("[" + NatToString(j) + "]");
      StartsWithConcat(path, "[" + NatToString(j) + "]");
      var head :=
        if item.JObject? || (ver.Temp? && item.JArray?) then Leaves(ver, item, ip)
        else if ver.Common? then Ok([])
        else Ok([(ip, item)]);
      if item.JObject? || (ver.Temp? && item.JArray?) {
        LeavesUnder(ver, item, ip);
        StartsWithConcat(ip, ".");
        StartsWithTrans(ip + ".", ip, path);
        UnderWeaken(head.value, ip + ".", path);
      }
      ItemLeavesUnder(ver, items, path, j + 1);
      UnderCat(head, ItemLeaves(ver, items, path, j + 1), path);
    }
  }

  // ---------------------------------------------------------------------
  // From the leaves to the map.

  /** `flatten_json(data)` assigns the leaves into an empty map. */
  lemma FlattenJsonLeaves(ver: Version, data: Json)
    ensures FlattenJson(ver, data).Ok? <==> Leaves(ver, data, "").Ok?
    ensures FlattenJson(ver, data).Ok? ==> FlattenJson(ver, data).value == PutAll([], Leaves(ver, data, "").value)
  {
    FlattenIsLeaves(ver, data, "", []);
  }

  lemma {:induction false} PutAllDistinct(es: seq<Entry>, run: seq<Entry>)
    requires DistinctKeys(es)
    ensures DistinctKeys(PutAll(es, run))
    decreases |run|
  {
    if run != [] {
      PutShape(es, run[0].0, run[0].1);
      PutAllDistinct(Put(es, run[0].0, run[0].1), run[1..]);
    }
  }

  lemma UnderPutAll(ls: seq<Entry>, prefix: string)
    requires Under(ls, prefix)
    ensures Under(PutAll([], ls), prefix)
  {
    var es := PutAll([], ls);
    PutAllKeys([], ls);
    forall i | 0 <= i < |es| ensures StartsWith(es[i].0, prefix) {
      assert Keys(es)[i] == es[i].0;
      assert es[i].0 in Keys(ls);
      var j :| 0 <= j < |ls| && Keys(ls)[j] == es[i].0;
    }
  }

  /**
   * The map's keys are exactly the leaves' paths; no two entries share a
   * key; and when no two leaves share a path the map is the leaves
   * themselves, in depth-first source order.
   */
  lemma FlattenJsonEntries(ver: Version, data: Json)
    requires FlattenJson(ver, data).Ok?
    ensures Leaves(ver, data, "").Ok?
    ensures DistinctKeys(FlattenJson(ver, data).value)
    ensures SameKeys(FlattenJson(ver, data).value, Leaves(ver, data, "").value)
    ensures DistinctKeys(Leaves(ver, data, "").value) ==> FlattenJson(ver, data).value == Leaves(ver, data, "").value
  {
    FlattenJsonLeaves(ver, data);
    var ls := Leaves(ver, data, "").value;
    var none: seq<Entry> := [];
    var es := FlattenJson(ver, data).value;
    assert es == PutAll(none, ls);
    assert Keys(none) == [];
    assert none + ls == ls;
    PutAllDistinct(none, ls);
    PutAllKeys(none, ls);
    forall k ensures k in Keys(es) <==> k in Keys(ls) {
      assert k !in Keys(none);
    }
    assert SameKeys(es, ls);
    if DistinctKeys(ls) {
      PutAllFresh(none, ls);
    }
  }

  lemma NamedRootUnder(ver: Version, data: Json, p: string)
    requires data.JObject? && MetaName(data.members).Ok?
    requires p == NamedPath(ver, "", MetaName(data.members).value) && p != ""
    requires FlattenJson(ver, data).Ok?
    ensures Under(FlattenJson(ver, data).value, p + ".")
  {
    FlattenJsonLeaves(ver, data);
    assert Leaves(ver, data, "") == MemberLeaves(ver, data.members, p, 0);
    MemberLeavesUnder(ver, data.members, p, 0);
    UnderPutAll(Leaves(ver, data, "").value, p + ".");
  }

  /**
   * A root named by a truthy `meta.name` puts every key under that name:
   * `.Name.` in the common flattener, `Name.` in the variant.
   */
  lemma NamedRootKeys(ver: Version, data: Json)
    requires data.JObject? && MetaName(data.members).Ok? && Named(MetaName(data.members).value)
    requires var v := MetaName(data.members).value.value; v.JFloat? ==> v.repr != ""
    requires FlattenJson(ver, data).Ok?
    ensures var n := Text(MetaName(data.members).value.value);
      (ver.Common? ==> Under(FlattenJson(ver, data).value, "." + n + ".")) &&
      (ver.Temp? ==> Under(FlattenJson(ver, data).value, n + "."))
  {
    var name := MetaName(data.members).value;
    TruthyTextNonEmpty(name.value);
    var p := NamedPath(ver, "", name);
    NamedRootUnder(ver, data, p);
    assert ver.Common? ==> p + "." == "." + Text(name.value) + ".";
    assert ver.Temp? ==> p + "." == Text(name.value) + ".";
  }

  /** Under a non-empty path every key is `path.…`. */
  lemma FlattenFromUnder(ver: Version, data: Json, path: string)
    requires path != "" && FlattenFrom(ver, data, path, []).Ok?
    ensures Under(FlattenFrom(ver, data, path, []).value, path + ".")
  {
    FlattenIsLeaves(ver, data, path, []);
    LeavesUnder(ver, data, path);
    UnderPutAll(Leaves(ver, data, path).value, path + ".");
  }

  /** Below a non-empty path a truthy `meta.name` adds one segment: every leaf is `path.name.…`. */
  lemma NamedLeavesUnder(ver: Version, data: Json, path: string)
    requires path != "" && data.JObject? && MetaName(data.members).Ok? && Named(MetaName(data.members).value)
    requires Leaves(ver, data, path).Ok?
    ensures Under(Leaves(ver, data, path).value, path + "." + Text(MetaName(data.members).value.value) + ".")
  {
    var p := NamedPath(ver, path, MetaName(data.members).value);
    assert p == path + "." + Text(MetaName(data.members).value.value);
    assert Leaves(ver, data, path) == MemberLeaves(ver, data.members, p, 0);
    MemberLeavesUnder(ver, data.members, p, 0);
  }

  /**
   * A named object in a list is flattened from its index path with the
   * name appended: every key it contributes is `path[j].name.…`, in the
   * variant as in the common flattener.
   */
  lemma NamedItemKeys(ver: Version, items: seq<Json>, path: string, j: nat)
    requires j < |items| && items[j].JObject?
    requires MetaName(items[j].members).Ok? && Named(MetaName(items[j].members).value)
    requires FlattenFrom(ver, items[j], IndexPath(path, j), []).Ok?
    ensures var n := Text(MetaName(items[j].members).value.value);
      Under(FlattenFrom(ver, items[j], IndexPath(path, j), []).value, IndexPath(path, j) + "." + n + ".")
  {
    var ip := IndexPath(path, j);
    assert ip[|path|] == '[';
    var n := Text(MetaName(items[j].members).value.value);
    FlattenIsLeaves(ver, items[j], ip, []);
    NamedLeavesUnder(ver, items[j], ip);
    UnderPutAll(Leaves(ver, items[j], ip).value, ip + "." + n + ".");
  }

  // ---------------------------------------------------------------------
  // Scalars, lists and failures.

  lemma {:induction false} MemberLeafIn(ver: Version, ms: seq<(string, Json)>, path: string, i0: nat, i: nat)
    requires i0 <= i < |ms| && IsScalar(ms[i].1) && MemberLeaves(ver, ms, path, i0).Ok?
    ensures (ChildPath(path, ms[i].0), ms[i].1) in MemberLeaves(ver, ms, path, i0).value
    decreases i - i0
  {
    MemberSmaller(ms, i0);
    if i0 < i {
      MemberLeafIn(ver, ms, path, i0 + 1, i);
    }
  }

  /**
   * A scalar member of an unnamed root is a leaf keyed by its own key with
   * its value unchanged, and that key is in the flattened map.
   */
  lemma RootScalarMember(ver: Version, data: Json, i: nat)
    requires data.JObject? && i < |data.members| && IsScalar(data.members[i].1)
    requires MetaName(data.members).Ok? && !Named(MetaName(data.members).value)
    requires FlattenJson(ver, data).Ok?
    ensures Leaves(ver, data, "").Ok?
    ensures data.members[i] in Leaves(ver, data, "").value
    ensures data.members[i].0 in Keys(FlattenJson(ver, data).value)
  {
    FlattenJsonLeaves(ver, data);
    MemberLeafIn(ver, data.members, "", 0, i);
    var ls := Leaves(ver, data, "").value;
    var j :| 0 <= j < |ls| && ls[j] == data.members[i];
    assert Keys(ls)[j] == data.members[i].0;
    PutAllKeys([], ls);
  }

  /** The common flattener ignores every list item that is not an object. */
  lemma {:induction false} CommonSkipsNonObjects(items: seq<Json>, path: string, j: nat)
    requires j <= |items| && forall k :: j <= k < |items| ==> !items[k].JObject?
    ensures ItemLeaves(Common, items, path, j) == Ok([])
    decreases |items| - j
  {
    if j < |items| {
      CommonSkipsNonObjects(items, path, j + 1);
      assert !items[j].JObject?;
      var none: seq<Entry> := [];
      assert none + none == none;
      assert ItemLeaves(Common, items, path, j) == Cat(Ok(none), ItemLeaves(Common, items, path, j + 1));
    }
  }

  /** The variant stores a scalar list item at `path[i]`, unchanged. */
  lemma {:induction false} TempScalarItem(items: seq<Json>, path: string, j0: nat, j: nat)
    requires j0 <= j < |items| && IsScalar(items[j]) && ItemLeaves(Temp, items, path, j0).Ok?
    ensures (IndexPath(path, j), items[j]) in ItemLeaves(Temp, items, path, j0).value
    decreases j - j0
  {
    if j0 < j {
      TempScalarItem(items, path, j0 + 1, j);
    }
  }

  /** The variant fails on a list nested directly in a list: `data.get` meets a list. */
  lemma {:induction false} TempNestedListFails(items: seq<Json>, path: string, j0: nat, j: nat)
    requires j0 <= j < |items| && items[j].JArray?
    ensures ItemLeaves(Temp, items, path, j0).Err?
    decreases j - j0
  {
    if j0 < j {
      TempNestedListFails(items, path, j0 + 1, j);
    }
  }

  /**
   * Any argument that is not a dict fails before the type test, so the
   * variant's branch for a list argument is never reached.
   */
  lemma NonObjectFails(ver: Version, data: Json, path: string, acc: seq<Entry>)
    requires !data.JObject?
    ensures FlattenFrom(ver, data, path, acc) == Err(NoGet)
  {
  }

  /** A `meta` that is not a dict fails too. */
  lemma BadMetaFails(ver: Version, ms: seq<(string, Json)>, path: string, acc: seq<Entry>)
    requires Get(ms, "meta").Some? && !Get(ms, "meta").value.JObject?
    ensures FlattenFrom(ver, JObject(ms), path, acc).Err?
  {
  }

  /** Empty lists and empty dicts contribute no entries. */
  lemma EmptyContainers(ver: Version, path: string)
    ensures ItemLeaves(ver, [], path, 0) == Ok([])
    ensures Leaves(ver, JObject([]), path) == Ok([])
    ensures FlattenJson(ver, JObject([])) == Ok([])
  {
  }

  /** `flatten_file` gives the same entries with keys in ascending order. */
  lemma FlattenFileSorted(ver: Version, data: Json)
    requires FlattenJson(ver, data).Ok?
    ensures FlattenFile(ver, data).Ok?
    ensures SortedByKey(FlattenFile(ver, data).value)
    ensures multiset(FlattenFile(ver, data).value) == multiset(FlattenJson(ver, data).value)
  {
    FlattenJsonEntries(ver, data);
    SortByKeySpec(FlattenJson(ver, data).value);
  }
}
