/**
 * `flatten_json`: a decoded view becomes an insertion-ordered map from
 * '.'-joined key paths to scalar values; a truthy `meta.name` is spliced
 * into the path. Two versions exist and differ in two places:
 *
 *   `Common` (src/ignition_lint/common/flatten_json.py) always joins the
 *   name with a dot, so a named root gives `.Root.type`; it recurses only
 *   into list items that are objects.
 *
 *   `Temp` (_temp/flatten_json.py) makes a root name the first segment
 *   (`Root.type`); it stores scalar list items at `path[i]` and recurses
 *   into object and list items, a list item then failing in `data.get`.
 *
 * The Python code raises `AttributeError` when `data.get` or
 * `meta.get` meets a non-dict; here that is `Err(NoGet)`, and as the
 * exception escapes the outermost call no partial map is returned.
 */
module Flatten {
  import opened Wrappers
  import opened PyStr
  import opened JsonValue
  import opened FlatMaps
  import opened FlatMapClass

  datatype Version = Common | Temp

  const NoGet := "AttributeError: object has no attribute 'get'"

  /** `data.get('meta', {}).get('name')` on a dict. */
  function MetaName(ms: seq<(string, Json)>): (r: Result<Option<Json>>)
    ensures r.Err? <==> Get(ms, "meta").Some? && !Get(ms, "meta").value.JObject?
    ensures r.Ok? && r.value.Some? ==> Get(ms, "meta").Some? && (("name", r.value.value) in Get(ms, "meta").value.members)
  {
    match Get(ms, "meta")
    case None => Ok(None)
    case Some(m) => if m.JObject? then Ok(Get(m.members, "name")) else Err(NoGet)
  }

  /** The component name, when it is truthy. */
  predicate Named(name: Option<Json>) {
    name.Some? && Truthy(name.value)
  }

  /** The path an object's own keys hang from. */
  function NamedPath(ver: Version, path: string, name: Option<Json>): string {
    if !Named(name) then path
    else if ver.Temp? && path == "" then Text(name.value)
    else path + "." + Text(name.value)
  }

  /** `f"{path}.{key}" if path else key` */
  function ChildPath(path: string, key: string): string {
    if path != "" then path + "." + key else key
  }

  /** `f"{path}[{index}]"` */
  function IndexPath(path: string, i: nat): string {
    path + "[" + NatToString(i) + "]"
  }

  // ---------------------------------------------------------------------
  // The recursion, with `results` as an explicit accumulator.

  /** `flatten_json(data, path, results)`, results given as `acc`. */
  function FlattenFrom(ver: Version, data: Json, path: string, acc: seq<Entry>): Result<seq<Entry>>
    decreases data, 2
  {
    if !data.JObject? then Err(NoGet)
    else
      var name := MetaName(data.members);
      if name.Err? then Err(name.error)
      else FlattenMembers(ver, data.members, NamedPath(ver, path, name.value), 0, acc)
  }

  /** The `for key, value in data.items()` loop from member `i` on. */
  function FlattenMembers(ver: Version, ms: seq<(string, Json)>, path: string, i: nat, acc: seq<Entry>): Result<seq<Entry>>
    requires i <= |ms|
    decreases JObject(ms), 1, |ms| - i
  {
    if i == |ms| then Ok(acc)
    else
      var key := ms[i].0;
      var value := ms[i].1;
      MemberSmaller(ms, i);
      var cp := ChildPath(path, key);
      var r :=
        if value.JObject? then FlattenFrom(ver, value, cp, acc)
        else if value.JArray? then FlattenItems(ver, value.items, cp, 0, acc)
        else Ok(Put(acc, cp, value));
      if r.Err? then r else FlattenMembers(ver, ms, path, i + 1, r.value)
  }

  /** The `for index, item in enumerate(value)` loop from item `j` on. */
  function FlattenItems(ver: Version, items: seq<Json>, path: string, j: nat, acc: seq<Entry>): Result<seq<Entry>>
    requires j <= |items|
    decreases JArray(items), 1, |items| - j
  {
    if j == |items| then Ok(acc)
    else
      var item := items[j];
      var r :=
        if item.JObject? then FlattenFrom(ver, item, IndexPath(path, j), acc)
        else if ver.Common? then Ok(acc)
        else if item.JArray? then FlattenFrom(ver, item, IndexPath(path, j), acc)
        else Ok(Put(acc, IndexPath(path, j), item));
      if r.Err? then r else FlattenItems(ver, items, path, j + 1, r.value)
  }

  /** `flatten_json(data)` */
  function FlattenJson(ver: Version, data: Json): Result<seq<Entry>> {
    FlattenFrom(ver, data, "", [])
  }

  /** `flatten_file`: the flattened entries re-ordered by key. */
  function FlattenFile(ver: Version, data: Json): Result<seq<Entry>> {
    var r := FlattenJson(ver, data);
    if r.Err? then r else Ok(SortByKey(r.value))
  }

  // ---------------------------------------------------------------------
  // The imperative recursion over a shared `results` map.

  /** `flatten_json(data, path, results)`: false when Python raises. */
  method FlattenInto(ver: Version, data: Json, path: string, results: FlatMap) returns (ok: bool)
    modifies results
    decreases data, 2
    ensures ok == FlattenFrom(ver, data, path, old(results.entries)).Ok?
    ensures ok ==> results.entries == FlattenFrom(ver, data, path, old(results.entries)).value
  {
    if !data.JObject? {
      return false;
    }
    var name := MetaName(data.members);
    if name.Err? {
      return false;
    }
    var p := NamedPath(ver, path, name.value);
    var ms := data.members;
    ghost var spec := FlattenFrom(ver, data, path, results.entries);
    var i := 0;
    while i < |ms|
      invariant 0 <= i <= |ms|
      invariant spec == FlattenMembers(ver, ms, p, i, results.entries)
    {
      var key := ms[i].0;
      var value := ms[i].1;
      MemberSmaller(ms, i);
      var cp := ChildPath(p, key);
      if value.JObject? {
        var sub := FlattenInto(ver, value, cp, results);
        if !sub {
          return false;
        }
      } else if value.JArray? {
        var sub := FlattenItemsInto(ver, value.items, cp, results);
        if !sub {
          return false;
        }
      } else {
        results.Set(cp, value);
      }
      i := i + 1;
    }
    return true;
  }

  /** The `for index, item in enumerate(value)` loop over the shared `results`. */
  method FlattenItemsInto(ver: Version, items: seq<Json>, path: string, results: FlatMap) returns (ok: bool)
    modifies results
    decreases JArray(items), 1
    ensures ok == FlattenItems(ver, items, path, 0, old(results.entries)).Ok?
    ensures ok ==> results.entries == FlattenItems(ver, items, path, 0, old(results.entries)).value
  {
    ghost var spec := FlattenItems(ver, items, path, 0, results.entries);
    var j := 0;
    while j < |items|
      invariant 0 <= j <= |items|
      invariant spec == FlattenItems(ver, items, path, j, results.entries)
    {
      var item := items[j];
      if item.JObject? || (ver.Temp? && item.JArray?) {
        var sub := FlattenInto(ver, item, IndexPath(path, j), results);
        if !sub {
          return false;
        }
      } else if ver.Temp? {
        results.Set(IndexPath(path, j), item);
      }
      j := j + 1;
    }
    return true;
  }

  /** `flatten_json(data)` with a fresh `OrderedDict`. */
  method FlattenJsonMethod(ver: Version, data: Json) returns (r: Result<seq<Entry>>)
    ensures r.Ok? <==> FlattenJson(ver, data).Ok?
    ensures r.Ok? ==> r.value == FlattenJson(ver, data).value
  {
    var results := new FlatMap();
    var ok := FlattenInto(ver, data, "", results);
    if ok {
      r := Ok(results.entries);
    } else {
      r := Err(NoGet);
    }
  }
}
