/**
 * The `OrderedDict` that the flatteners fill: path keys in insertion
 * order, each with its scalar value, and the key sort of `flatten_file`.
 */
module FlatMaps {
  import opened Wrappers
  import opened JsonValue

  type Entry = (string, Json)

  function Keys(es: seq<Entry>): (ks: seq<string>)
    ensures |ks| == |es| && forall i :: 0 <= i < |es| ==> ks[i] == es[i].0
  {
    seq(|es|, i requires 0 <= i < |es| => es[i].0)
  }

  /** `a` and `b` have the same keys. */
  ghost predicate SameKeys(a: seq<Entry>, b: seq<Entry>) {
    forall k :: k in Keys(a) <==> k in Keys(b)
  }

  predicate DistinctKeys(es: seq<Entry>) {
    forall i, j :: 0 <= i < j < |es| ==> es[i].0 != es[j].0
  }

  /** `d.get(key)` */
  function Lookup(es: seq<Entry>, key: string): (r: Option<Json>)
    ensures r.Some? <==> key in Keys(es)
    ensures r.Some? ==> (key, r.value) in es
  {
    if es == [] then None
    else if es[0].0 == key then Some(es[0].1)
    else Lookup(es[1..], key)
  }

  /** Index of `key`, or -1. */
  function IndexOf(es: seq<Entry>, key: string): (r: int)
    ensures -1 <= r < |es|
    ensures r == -1 <==> key !in Keys(es)
    ensures r >= 0 ==> es[r].0 == key && forall j :: 0 <= j < r ==> es[j].0 != key
  {
    if es == [] then -1
    else if es[0].0 == key then 0
    else var r := IndexOf(es[1..], key); if r == -1 then -1 else r + 1
  }

  /**
   * `d[key] = value` on an `OrderedDict`: an existing key keeps its place
   * and takes the new value; a new key goes to the end.
   */
  function Put(es: seq<Entry>, key: string, value: Json): seq<Entry> {
    var i := IndexOf(es, key);
    if i == -1 then es + [(key, value)] else es[i := (key, value)]
  }

  /** Assigning keeps the keys distinct and leaves every other entry where it was. */
  lemma PutShape(es: seq<Entry>, key: string, value: Json)
    requires DistinctKeys(es)
    ensures var r := Put(es, key, value);
      DistinctKeys(r) &&
      (key in Keys(es) ==> |r| == |es|) &&
      (key !in Keys(es) ==> r == es + [(key, value)]) &&
      (forall i :: 0 <= i < |es| && es[i].0 != key ==> r[i] == es[i])
  {
    var r := Put(es, key, value);
    var i := IndexOf(es, key);
    if i == -1 {
      forall a, b | 0 <= a < b < |r| ensures r[a].0 != r[b].0 {
        if b == |es| {
          assert Keys(es)[a] == es[a].0;
        }
      }
    }
  }

  /** After `d[key] = value`, `d.get(key)` is `value` and every other key looks up as before. */
  lemma PutLookup(es: seq<Entry>, key: string, value: Json)
    requires DistinctKeys(es)
    ensures Lookup(Put(es, key, value), key) == Some(value)
    ensures forall k :: k != key ==> Lookup(Put(es, key, value), k) == Lookup(es, k)
  {
    var r := Put(es, key, value);
    PutShape(es, key, value);
    LookupDistinct(r, key);
    assert r[if IndexOf(es, key) == -1 then |es| else IndexOf(es, key)] == (key, value);
    forall k | k != key ensures Lookup(r, k) == Lookup(es, k) {
      LookupDistinct(es, k);
      LookupDistinct(r, k);
      var li := Lookup(es, k);
      if li.Some? {
        var j :| 0 <= j < |es| && Keys(es)[j] == k;
        assert r[j] == es[j];
      } else {
        LookupNone(r, k);
        assert forall j :: 0 <= j < |r| && r[j].0 == k ==> j < |es| && r[j] == es[j];
        LookupNone(es, k);
      }
    }
  }

  lemma LookupNone(es: seq<Entry>, key: string)
    ensures Lookup(es, key).None? <==> forall j :: 0 <= j < |es| ==> es[j].0 != key
  {
    assert forall j :: 0 <= j < |es| ==> Keys(es)[j] == es[j].0;
  }

  /** In a map with distinct keys, the lookup finds the entry at any index that holds the key. */
  lemma LookupDistinct(es: seq<Entry>, key: string)
    requires DistinctKeys(es)
    ensures forall i :: 0 <= i < |es| && es[i].0 == key ==> Lookup(es, key) == Some(es[i].1)
  {
    if es != [] {
      assert DistinctKeys(es[1..]);
      LookupDistinct(es[1..], key);
      forall i | 0 <= i < |es| && es[i].0 == key ensures Lookup(es, key) == Some(es[i].1) {
        if i > 0 {
          assert es[1..][i - 1] == es[i];
        }
      }
    }
  }

  /** Assigning a run of entries in order. */
  function PutAll(es: seq<Entry>, run: seq<Entry>): seq<Entry>
    decreases |run|
  {
    if run == [] then es else PutAll(Put(es, run[0].0, run[0].1), run[1..])
  }

  lemma {:induction false} PutAllAppend(es: seq<Entry>, a: seq<Entry>, b: seq<Entry>)
    ensures PutAll(es, a + b) == PutAll(PutAll(es, a), b)
    decreases |a|
  {
    if a == [] {
      assert a + b == b;
    } else {
      assert (a + b)[0] == a[0];
      assert (a + b)[1..] == a[1..] + b;
      PutAllAppend(Put(es, a[0].0, a[0].1), a[1..], b);
    }
  }

  /** Fresh, distinct keys are appended in order: the map is `es + run`. */
  lemma {:induction false} PutAllFresh(es: seq<Entry>, run: seq<Entry>)
    requires DistinctKeys(es + run)
    ensures PutAll(es, run) == es + run
    decreases |run|
  {
    if run != [] {
      assert run[0].0 !in Keys(es) by {
        forall i | 0 <= i < |es| ensures es[i].0 != run[0].0 {
          assert (es + run)[i] == es[i] && (es + run)[|es|] == run[0];
        }
      }
      assert Put(es, run[0].0, run[0].1) == es + [run[0]];
      assert es + [run[0]] + run[1..] == es + run;
      PutAllFresh(es + [run[0]], run[1..]);
    }
  }

  lemma {:induction false} PutAllKeys(es: seq<Entry>, run: seq<Entry>)
    ensures forall k :: k in Keys(PutAll(es, run)) <==> k in Keys(es) || k in Keys(run)
    decreases |run|
  {
    if run != [] {
      var es' := Put(es, run[0].0, run[0].1);
      assert forall k :: k in Keys(es') <==> k in Keys(es) || k == run[0].0 by {
        var i := IndexOf(es, run[0].0);
        if i != -1 {
          forall k ensures k in Keys(es') <==> k in Keys(es) || k == run[0].0 {
            if k in Keys(es) {
              var j :| 0 <= j < |es| && Keys(es)[j] == k;
              if j != i {
                assert Keys(es')[j] == k;
              } else {
                assert Keys(es')[i] == run[0].0;
              }
            }
            if k in Keys(es') {
              var j :| 0 <= j < |es'| && Keys(es')[j] == k;
              if j != i {
                assert Keys(es)[j] == k;
              }
            }
          }
        } else {
          assert Keys(es') == Keys(es) + [run[0].0];
        }
      }
      PutAllKeys(es', run[1..]);
      assert forall k :: k in Keys(run) <==> k == run[0].0 || k in Keys(run[1..]) by {
        assert Keys(run) == [run[0].0] + Keys(run[1..]);
      }
    }
  }

  // ---------------------------------------------------------------------
  // `OrderedDict(sorted(flat_json.items()))`

  /** Python `str` comparison: code-point lexicographic order. */
  predicate StrLess(a: string, b: string)
    decreases |a|
  {
    if a == [] then b != []
    else if b == [] then false
    else if a[0] != b[0] then a[0] < b[0]
    else StrLess(a[1..], b[1..])
  }

  lemma {:induction false} StrLessIrreflexive(a: string)
    ensures !StrLess(a, a)
    decreases |a|
  {
    if a != [] {
      StrLessIrreflexive(a[1..]);
    }
  }

  lemma {:induction false} StrLessTotal(a: string, b: string)
    requires a != b
    ensures StrLess(a, b) || StrLess(b, a)
    decreases |a|
  {
    if a != [] && b != [] && a[0] == b[0] {
      assert a == [a[0]] + a[1..] && b == [b[0]] + b[1..];
      StrLessTotal(a[1..], b[1..]);
    }
  }

  lemma {:induction false} StrLessAsymmetric(a: string, b: string)
    requires StrLess(a, b)
    ensures !StrLess(b, a)
    decreases |a|
  {
    if a != [] && b != [] && a[0] == b[0] {
      StrLessAsymmetric(a[1..], b[1..]);
    }
  }

  lemma {:induction false} StrLessTransitive(a: string, b: string, c: string)
    requires StrLess(a, b) && StrLess(b, c)
    ensures StrLess(a, c)
    decreases |a|
  {
    if a != [] && b != [] && c != [] && a[0] == b[0] && b[0] == c[0] {
      StrLessTransitive(a[1..], b[1..], c[1..]);
    }
  }

  /** Keys strictly increasing. */
  predicate SortedByKey(es: seq<Entry>) {
    forall i, j :: 0 <= i < j < |es| ==> StrLess(es[i].0, es[j].0)
  }

  function Insert(e: Entry, es: seq<Entry>): seq<Entry>
    decreases |es|
  {
    if es == [] then [e]
    else if StrLess(es[0].0, e.0) then [es[0]] + Insert(e, es[1..])
    else [e] + es
  }

  /** `sorted(items)`: an insertion sort on the keys. */
  function SortByKey(es: seq<Entry>): seq<Entry>
    decreases |es|
  {
    if es == [] then [] else Insert(es[0], SortByKey(es[1..]))
  }

  /** Insertion adds exactly the one entry. */
  lemma {:induction false} InsertMultiset(e: Entry, es: seq<Entry>)
    ensures multiset(Insert(e, es)) == multiset(es) + multiset{e}
    decreases |es|
  {
    if es != [] && StrLess(es[0].0, e.0) {
      InsertMultiset(e, es[1..]);
      assert es == [es[0]] + es[1..];
    }
  }

  lemma KeysFromMultiset(a: seq<Entry>, b: seq<Entry>)
    requires multiset(a) == multiset(b)
    ensures forall k :: k in Keys(a) <==> k in Keys(b)
  {
    forall k ensures k in Keys(a) ==> k in Keys(b) {
      if k in Keys(a) {
        var j :| 0 <= j < |a| && Keys(a)[j] == k;
        assert a[j] in multiset(b);
        var m :| 0 <= m < |b| && b[m] == a[j];
        assert Keys(b)[m] == k;
      }
    }
    forall k ensures k in Keys(b) ==> k in Keys(a) {
      if k in Keys(b) {
        var j :| 0 <= j < |b| && Keys(b)[j] == k;
        assert b[j] in multiset(a);
        var m :| 0 <= m < |a| && a[m] == b[j];
        assert Keys(a)[m] == k;
      }
    }
  }

  /** Inserting a new key into a sorted run keeps it sorted. */
  lemma {:induction false} InsertSorted(e: Entry, es: seq<Entry>)
    requires SortedByKey(es) && e.0 !in Keys(es)
    ensures SortedByKey(Insert(e, es))
    decreases |es|
  {
    if es != [] {
      if StrLess(es[0].0, e.0) {
        assert Keys(es)[0] == es[0].0;
        assert e.0 !in Keys(es[1..]) by {
          forall m | 0 <= m < |es| - 1 ensures Keys(es[1..])[m] != e.0 {
            assert Keys(es)[m + 1] == es[m + 1].0;
          }
        }
        InsertSorted(e, es[1..]);
        InsertMultiset(e, es[1..]);
        var r := Insert(e, es[1..]);
        forall j | 0 <= j < |r| ensures StrLess(es[0].0, r[j].0) {
          assert r[j] in multiset(es[1..]) + multiset{e};
          if r[j] != e {
            var m :| 0 <= m < |es[1..]| && es[1..][m] == r[j];
            assert es[m + 1] == r[j];
          }
        }
      } else {
        assert es[0].0 != e.0 by {
          assert Keys(es)[0] == es[0].0;
        }
        StrLessTotal(es[0].0, e.0);
        forall j | 0 <= j < |es| ensures StrLess(e.0, es[j].0) {
          if j > 0 {
            StrLessTransitive(e.0, es[0].0, es[j].0);
          }
        }
      }
    }
  }

  /** `flatten_file`'s sort: the same entries, re-ordered by ascending key. */
  lemma {:induction false} SortByKeySpec(es: seq<Entry>)
    requires DistinctKeys(es)
    ensures SortedByKey(SortByKey(es))
    ensures multiset(SortByKey(es)) == multiset(es)
    ensures forall k :: k in Keys(SortByKey(es)) <==> k in Keys(es)
    decreases |es|
  {
    if es != [] {
      assert DistinctKeys(es[1..]);
      SortByKeySpec(es[1..]);
      var t := SortByKey(es[1..]);
      assert es[0].0 !in Keys(t) by {
        forall m | 0 <= m < |es| - 1 ensures Keys(es[1..])[m] != es[0].0 {
          assert es[1..][m] == es[m + 1];
        }
      }
      InsertSorted(es[0], t);
      InsertMultiset(es[0], t);
      assert es == [es[0]] + es[1..];
    }
    KeysFromMultiset(SortByKey(es), es);
  }
}
