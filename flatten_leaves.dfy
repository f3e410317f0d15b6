/**
 * A reference reading of `flatten_json`: the leaves of a view in
 * depth-first source order, each with its path, written with no map at
 * all. The flattener's map is these leaves assigned one by one.
 */
module FlattenLeaves {
  import opened Wrappers
  import opened PyStr
  import opened JsonValue
  import opened FlatMaps
  import opened Flatten

  /** The `(path, value)` leaves under `data`, in visiting order. */
  function Leaves(ver: Version, data: Json, path: string): Result<seq<Entry>>
    decreases data, 2
  {
    if !data.JObject? then Err(NoGet)
    else
      var name := MetaName(data.members);
      if name.Err? then Err(name.error)
      else MemberLeaves(ver, data.members, NamedPath(ver, path, name.value), 0)
  }

  function MemberLeaves(ver: Version, ms: seq<(string, Json)>, path: string, i: nat): Result<seq<Entry>>
    requires i <= |ms|
    decreases JObject(ms), 1, |ms| - i
  {
    if i == |ms| then Ok([])
    else
      var value := ms[i].1;
      MemberSmaller(ms, i);
      var cp := ChildPath(path, ms[i].0);
      var head :=
        if value.JObject? then Leaves(ver, value, cp)
        else if value.JArray? then ItemLeaves(ver, value.items, cp, 0)
        else Ok([(cp, value)]);
      Cat(head, MemberLeaves(ver, ms, path, i + 1))
  }

  function ItemLeaves(ver: Version, items: seq<Json>, path: string, j: nat): Result<seq<Entry>>
    requires j <= |items|
    decreases JArray(items), 1, |items| - j
  {
    if j == |items| then Ok([])
    else
      var item := items[j];
      var head :=
        if item.JObject? || (ver.Temp? && item.JArray?) then Leaves(ver, item, IndexPath(path, j))
        else if ver.Common? then Ok([])
        else Ok([(IndexPath(path, j), item)]);
      Cat(head, ItemLeaves(ver, items, path, j + 1))
  }

  /** Two runs one after the other; the first failure wins. */
  function Cat(a: Result<seq<Entry>>, b: Result<seq<Entry>>): (r: Result<seq<Entry>>)
    ensures r.Ok? <==> a.Ok? && b.Ok?
    ensures r.Ok? ==> r.value == a.value + b.value
  {
    if a.Err? then a else if b.Err? then b else Ok(a.value + b.value)
  }

  /** Assigning a run of leaves into `acc`; a failure passes through. */
  function AssignAll(acc: seq<Entry>, r: Result<seq<Entry>>): Result<seq<Entry>> {
    if r.Err? then Err(r.error) else Ok(PutAll(acc, r.value))
  }

  // ---------------------------------------------------------------------
  // The flattener is the leaves assigned in order.

  lemma {:induction false} FlattenIsLeaves(ver: Version, data: Json, path: string, acc: seq<Entry>)
    ensures FlattenFrom(ver, data, path, acc) == AssignAll(acc, Leaves(ver, data, path))
    decreases data, 2
  {
    if data.JObject? && MetaName(data.members).Ok? {
      var p := NamedPath(ver, path, MetaName(data.members).value);
      MembersAreLeaves(ver, data.members, p, 0, acc);
    }
  }

  lemma {:induction false} MembersAreLeaves(ver: Version, ms: seq<(string, Json)>, path: string, i: nat, acc: seq<Entry>)
    requires i <= |ms|
    ensures FlattenMembers(ver, ms, path, i, acc) == AssignAll(acc, MemberLeaves(ver, ms, path, i))
    decreases JObject(ms), 1, |ms| - i
  {
    if i < |ms| {
      var value := ms[i].1;
      MemberSmaller(ms, i);
      var cp := ChildPath(path, ms[i].0);
      var head :=
        if value.JObject? then Leaves(ver, value, cp)
        else if value.JArray? then ItemLeaves(ver, value.items, cp, 0)
        else Ok([(cp, value)]);
      if value.JObject? {
        FlattenIsLeaves(ver, value, cp, acc);
      } else if value.JArray? {
        ItemsAreLeaves(ver, value.items, cp, 0, acc);
      } else {
        assert PutAll(acc, [(cp, value)]) == Put(acc, cp, value) by {
          assert [(cp, value)][1..] == [];
        }
      }
      if head.Ok? {
        MembersAreLeaves(ver, ms, path, i + 1, PutAll(acc, head.value));
        var tail := MemberLeaves(ver, ms, path, i + 1);
        if tail.Ok? {
          PutAllAppend(acc, head.value, tail.value);
        }
      }
    }
  }

  lemma {:induction false} ItemsAreLeaves(ver: Version, items: seq<Json>, path: string, j: nat, acc: seq<Entry>)
    requires j <= |items|
    ensures FlattenItems(ver, items, path, j, acc) == AssignAll(acc, ItemLeaves(ver, items, path, j))
    decreases JArray(items), 1, |items| - j
  {
    if j < |items| {
      var item := items[j];
      var ip := IndexPath(path, j);
      var head :=
        if item.JObject? || (ver.Temp? && item.JArray?) then Leaves(ver, item, ip)
        else if ver.Common? then Ok([])
        else Ok([(ip, item)]);
      if item.JObject? || (ver.Temp? && item.JArray?) {
        FlattenIsLeaves(ver, item, ip, acc);
      } else if ver.Temp? {
        assert PutAll(acc, [(ip, item)]) == Put(acc, ip, item) by {
          assert [(ip, item)][1..] == [];
        }
      }
      if head.Ok? {
        ItemsAreLeaves(ver, items, path, j + 1, PutAll(acc, head.value));
        var tail := ItemLeaves(ver, items, path, j + 1);
        if tail.Ok? {
          PutAllAppend(acc, head.value, tail.value);
        }
      }
    }
  }
}
