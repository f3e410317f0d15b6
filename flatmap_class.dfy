/** The `results` OrderedDict that `flatten_json` threads through its recursion. */
module FlatMapClass {
  import opened JsonValue
  import opened FlatMaps

  class FlatMap {
    var entries: seq<Entry>

    /** `OrderedDict()` */
    constructor()
      ensures entries == []
    {
      entries := [];
    }

    /** `results[key] = value` */
    method Set(key: string, value: Json)
      modifies this
      ensures entries == Put(old(entries), key, value)
    {
      entries := Put(entries, key, value);
    }
  }
}
