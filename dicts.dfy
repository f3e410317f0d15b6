/**
 * The insertion-ordered `dict`s that the rules and the engine keep:
 * `d[k] = v` keeps an existing key in its place and appends a new one.
 */
module Dicts {
  import opened Wrappers

  type Dict<V> = seq<(string, V)>

  function DictKeys<V>(d: Dict<V>): (ks: seq<string>)
    ensures |ks| == |d| && forall i :: 0 <= i < |d| ==> ks[i] == d[i].0
  {
    seq(|d|, i requires 0 <= i < |d| => d[i].0)
  }

  predicate HasKey<V>(d: Dict<V>, k: string) {
    exists i :: 0 <= i < |d| && d[i].0 == k
  }

  predicate Distinct<V>(d: Dict<V>) {
    forall i, j :: 0 <= i < j < |d| ==> d[i].0 != d[j].0
  }

  /** Position of `k`, or -1. */
  function Find<V>(d: Dict<V>, k: string): (r: int)
    ensures -1 <= r < |d|
    ensures r == -1 <==> !HasKey(d, k)
    ensures r >= 0 ==> d[r].0 == k && forall j :: 0 <= j < r ==> d[j].0 != k
  {
    if d == [] then -1
    else if d[0].0 == k then 0
    else
      var r := Find(d[1..], k);
      assert HasKey(d[1..], k) ==> HasKey(d, k) by {
        if HasKey(d[1..], k) {
          var i :| 0 <= i < |d| - 1 && d[1..][i].0 == k;
          assert d[i + 1].0 == k;
        }
      }
      assert HasKey(d, k) ==> HasKey(d[1..], k) by {
        if HasKey(d, k) {
          var i :| 0 <= i < |d| && d[i].0 == k;
          assert d[1..][i - 1].0 == k;
        }
      }
      if r == -1 then -1 else r + 1
  }

  /** `d.get(k)` */
  function Get<V>(d: Dict<V>, k: string): (r: Option<V>)
    ensures r.None? <==> !HasKey(d, k)
    ensures r.Some? ==> r.value == d[Find(d, k)].1
  {
    var i := Find(d, k);
    if i == -1 then None else Some(d[i].1)
  }

  /** `d[k] = v` */
  function Put<V>(d: Dict<V>, k: string, v: V): (r: Dict<V>)
    ensures HasKey(d, k) ==> |r| == |d| && r[Find(d, k)] == (k, v)
    ensures !HasKey(d, k) ==> r == d + [(k, v)]
    ensures forall i :: 0 <= i < |d| && d[i].0 != k ==> r[i] == d[i]
  {
    var i := Find(d, k);
    if i == -1 then d + [(k, v)] else d[i := (k, v)]
  }

  /** Assignment keeps keys distinct, makes `k` map to `v` and leaves the other keys alone. */
  lemma PutGet<V>(d: Dict<V>, k: string, v: V)
    requires Distinct(d)
    ensures Distinct(Put(d, k, v))
    ensures Get(Put(d, k, v), k) == Some(v)
    ensures forall k' :: k' != k ==> Get(Put(d, k, v), k') == Get(d, k')
    ensures forall k' :: HasKey(Put(d, k, v), k') <==> HasKey(d, k') || k' == k
  {
    var r := Put(d, k, v);
    var i := Find(d, k);
    forall a, b | 0 <= a < b < |r| ensures r[a].0 != r[b].0 {
      if i == -1 && b == |d| {
        assert r[a] == d[a];
      }
    }
    var p := if i == -1 then |d| else i;
    assert r[p] == (k, v);
    FindAt(r, p);
    assert forall j :: 0 <= j < |r| && r[j].0 != k ==> j < |d| && r[j] == d[j];
    forall k' | k' != k ensures Get(r, k') == Get(d, k') {
      if HasKey(d, k') {
        var j := Find(d, k');
        assert r[j] == d[j];
        FindAt(r, j);
      }
    }
  }

  /** In a dict with distinct keys, a key is found at the one index that holds it. */
  lemma FindAt<V>(d: Dict<V>, i: nat)
    requires Distinct(d) && i < |d|
    ensures Find(d, d[i].0) == i
  {
    assert HasKey(d, d[i].0);
  }

  /** In a dict with distinct keys, `Get` finds the value at any index holding the key. */
  lemma GetAt<V>(d: Dict<V>, i: nat)
    requires Distinct(d) && i < |d|
    ensures Get(d, d[i].0) == Some(d[i].1)
  {
    FindAt(d, i);
  }
}
