/** JSON values as `json.loads` hands them to the linter (RFC 8259 section 3). */
module JsonValue {
  import opened PyStr
  import opened Wrappers

  /**
   * An object keeps its members in document order. A float is kept as its
   * Python `repr` text; nothing in the linter computes with floats.
   */
  datatype Json =
    | JNull
    | JBool(b: bool)
    | JInt(n: int)
    | JFloat(repr: string)
    | JString(s: string)
    | JArray(items: seq<Json>)
    | JObject(members: seq<(string, Json)>)

  predicate IsScalar(v: Json) {
    !v.JArray? && !v.JObject?
  }

  /** Python truthiness of the decoded value. */
  predicate Truthy(v: Json) {
    match v
    case JNull => false
    case JBool(b) => b
    case JInt(n) => n != 0
    case JFloat(r) => r != "0.0" && r != "-0.0"
    case JString(s) => s != ""
    case JArray(items) => items != []
    case JObject(ms) => ms != []
  }

  /**
   * `str(v)` (and `f"{v}"`) of a decoded value. The `repr` of a list or a
   * dict is not modelled: both print as a fixed marker.
   */
  function Text(v: Json): (r: string)
    ensures v.JString? ==> r == v.s
    ensures v.JInt? ==> r == IntToString(v.n)
  {
    match v
    case JNull => "None"
    case JBool(b) => if b then "True" else "False"
    case JInt(n) => IntToString(n)
    case JFloat(rep) => rep
    case JString(s) => s
    case JArray(_) => "[...]"
    case JObject(_) => "{...}"
  }

  /** `d.get(key)` on a dict given by its items: the value stored under `key`. */
  function Get(ms: seq<(string, Json)>, key: string): (r: Option<Json>)
    ensures r.Some? ==> (key, r.value) in ms
    ensures r.None? ==> forall i :: 0 <= i < |ms| ==> ms[i].0 != key
  {
    if ms == [] then None
    else if ms[0].0 == key then Some(ms[0].1)
    else Get(ms[1..], key)
  }

  /** Member values are smaller than the object that holds them. */
  lemma MemberSmaller(ms: seq<(string, Json)>, i: int)
    requires 0 <= i < |ms|
    ensures ms[i].1 < JObject(ms)
  {
    assert ms[i] in ms;
  }
}
