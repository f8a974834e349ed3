/**
  Python dictionaries as sequences of key/value pairs, so that the insertion order
  the source relies on (`next(iter(d))`, `d.values()`, `d.items()`) stays explicit.
  Assigning an existing key keeps its position; a new key goes to the end.
*/
module Dicts {
  import opened Wrappers

  type Dict<K(==), V> = seq<(K, V)>

  function Keys<K(==), V>(d: Dict<K, V>): (ks: seq<K>)
    ensures |ks| == |d|
    ensures forall i :: 0 <= i < |d| ==> ks[i] == d[i].0
  {
    if d == [] then [] else [d[0].0] + Keys(d[1..])
  }

  function Values<K(==), V>(d: Dict<K, V>): (vs: seq<V>)
    ensures |vs| == |d|
    ensures forall i :: 0 <= i < |d| ==> vs[i] == d[i].1
  {
    if d == [] then [] else [d[0].1] + Values(d[1..])
  }

  /** No key occurs twice: what every dictionary built by `Put` satisfies. */
  predicate UniqueKeys<K(==), V>(d: Dict<K, V>) {
    forall i, j :: 0 <= i < j < |d| ==> d[i].0 != d[j].0
  }

  /** `d.get(k)`: the value stored under the first occurrence of `k`. */
  function Get<K(==), V>(d: Dict<K, V>, k: K): (r: Option<V>)
    ensures r.None? <==> k !in Keys(d)
    ensures r.Some? ==> (k, r.value) in d
  {
    if d == [] then None
    else if d[0].0 == k then Some(d[0].1)
    else Get(d[1..], k)
  }

  /** `d[k] = v`: replace in place when present, otherwise append. */
  function Put<K(==), V>(d: Dict<K, V>, k: K, v: V): (r: Dict<K, V>)
    ensures k in Keys(d) ==> |r| == |d| && Keys(r) == Keys(d)
    ensures k !in Keys(d) ==> r == d + [(k, v)]
  {
    if d == [] then [(k, v)]
    else if d[0].0 == k then [(k, v)] + d[1..]
    else [d[0]] + Put(d[1..], k, v)
  }

  /** `del d[k]` of a present key: the entry goes, the order of the rest is kept. */
  function Delete<K(==), V>(d: Dict<K, V>, k: K): (r: Dict<K, V>)
    requires k in Keys(d)
    ensures |r| == |d| - 1
  {
    if d == [] then []
    else if d[0].0 == k then d[1..]
    else [d[0]] + Delete(d[1..], k)
  }

  /** `d.update(e)`: every entry of `e` is put into `d`, in `e`'s order. */
  function Update<K(==), V>(d: Dict<K, V>, e: Dict<K, V>): Dict<K, V>
    decreases |e|
  {
    if e == [] then d else Update(Put(d, e[0].0, e[0].1), e[1..])
  }

  lemma {:induction false} GetPut<K, V>(d: Dict<K, V>, k: K, v: V, q: K)
    ensures Get(Put(d, k, v), q) == if q == k then Some(v) else Get(d, q)
  {
    if d != [] && d[0].0 != k {
      GetPut(d[1..], k, v, q);
    }
  }

  lemma {:induction false} PutKeepsUnique<K, V>(d: Dict<K, V>, k: K, v: V)
    requires UniqueKeys(d)
    ensures UniqueKeys(Put(d, k, v))
  {
    var r := Put(d, k, v);
    if k in Keys(d) {
      forall i, j | 0 <= i < j < |r| ensures r[i].0 != r[j].0 {
        assert r[i].0 == Keys(r)[i] == Keys(d)[i] == d[i].0;
        assert r[j].0 == Keys(r)[j] == Keys(d)[j] == d[j].0;
      }
    } else {
      forall i | 0 <= i < |d| ensures d[i].0 != k {
        assert Keys(d)[i] == d[i].0;
      }
    }
  }

  lemma {:induction false} GetDelete<K, V>(d: Dict<K, V>, k: K, q: K)
    requires UniqueKeys(d) && k in Keys(d)
    ensures Get(Delete(d, k), q) == if q == k then None else Get(d, q)
  {
    if d != [] {
      if d[0].0 == k {
        if q == k {
          assert forall i :: 0 <= i < |d[1..]| ==> Keys(d[1..])[i] != k by {
            forall i | 0 <= i < |d[1..]| ensures Keys(d[1..])[i] != k {
              assert Keys(d[1..])[i] == d[i + 1].0;
            }
          }
        }
      } else {
        assert UniqueKeys(d[1..]);
        GetDelete(d[1..], k, q);
      }
    }
  }

  /** Deleting adds no key. */
  lemma {:induction false} DeleteKeys<K, V>(d: Dict<K, V>, k: K)
    requires k in Keys(d)
    ensures forall q :: q in Keys(Delete(d, k)) ==> q in Keys(d)
  {
    if d != [] && d[0].0 != k {
      DeleteKeys(d[1..], k);
      assert Keys(d) == [d[0].0] + Keys(d[1..]);
      assert Keys(Delete(d, k)) == [d[0].0] + Keys(Delete(d[1..], k));
    }
  }

  lemma {:induction false} DeleteKeepsUnique<K, V>(d: Dict<K, V>, k: K)
    requires UniqueKeys(d) && k in Keys(d)
    ensures UniqueKeys(Delete(d, k))
    ensures forall q :: q in Keys(Delete(d, k)) ==> q in Keys(d)
  {
    DeleteKeys(d, k);
    if d != [] && d[0].0 != k {
      var rest := Delete(d[1..], k);
      DeleteKeepsUnique(d[1..], k);
      var r := Delete(d, k);
      assert r == [d[0]] + rest;
      forall i | 0 <= i < |rest| ensures rest[i].0 != d[0].0 {
        assert rest[i].0 == Keys(rest)[i];
        assert rest[i].0 in Keys(d[1..]);
        var j :| 0 <= j < |d[1..]| && Keys(d[1..])[j] == rest[i].0;
        assert d[j + 1].0 == rest[i].0;
      }
      forall i, j | 0 <= i < j < |r| ensures r[i].0 != r[j].0 {
        assert r[j] == rest[j - 1];
        if i > 0 { assert r[i] == rest[i - 1]; }
      }
    }
  }

  /** `update` keeps the keys distinct. */
  lemma {:induction false} UpdateKeepsUnique<K, V>(d: Dict<K, V>, e: Dict<K, V>)
    requires UniqueKeys(d)
    ensures UniqueKeys(Update(d, e))
    decreases |e|
  {
    if e != [] {
      PutKeepsUnique(d, e[0].0, e[0].1);
      UpdateKeepsUnique(Put(d, e[0].0, e[0].1), e[1..]);
    }
  }

  /** On a key collision the later dictionary wins; otherwise the earlier one's value stays. */
  lemma {:induction false} GetUpdate<K, V>(d: Dict<K, V>, e: Dict<K, V>, q: K)
    requires UniqueKeys(e)
    ensures Get(Update(d, e), q) == if q in Keys(e) then Get(e, q) else Get(d, q)
    decreases |e|
  {
    if e != [] {
      assert UniqueKeys(e[1..]);
      if q == e[0].0 {
        forall i | 0 <= i < |e[1..]| ensures Keys(e[1..])[i] != q {
          assert Keys(e[1..])[i] == e[i + 1].0;
        }
      }
      GetUpdate(Put(d, e[0].0, e[0].1), e[1..], q);
      GetPut(d, e[0].0, e[0].1, q);
      assert Keys(e) == [e[0].0] + Keys(e[1..]);
    }
  }

  /** In a dictionary without repeated keys, looking up the key at position `i` finds that entry. */
  lemma {:induction false} GetAt<K, V>(d: Dict<K, V>, i: nat)
    requires UniqueKeys(d) && i < |d|
    ensures Get(d, d[i].0) == Some(d[i].1)
  {
    if i > 0 {
      assert UniqueKeys(d[1..]);
      assert d[1..][i - 1] == d[i];
      GetAt(d[1..], i - 1);
    }
  }

  /** Assigning a key that sits at position `i` rewrites that position and nothing else. */
  lemma {:induction false} PutAt<K, V>(d: Dict<K, V>, k: K, v: V, i: nat)
    requires UniqueKeys(d) && i < |d| && d[i].0 == k
    ensures Put(d, k, v) == d[i := (k, v)]
  {
    if i == 0 {
      assert Put(d, k, v) == [(k, v)] + d[1..];
      assert d[i := (k, v)] == [(k, v)] + d[1..];
    } else {
      assert d[0].0 != k;
      assert UniqueKeys(d[1..]);
      assert d[1..][i - 1] == d[i];
      PutAt(d[1..], k, v, i - 1);
      var r := [d[0]] + d[1..][i - 1 := (k, v)];
      assert Put(d, k, v) == r;
      assert |r| == |d[i := (k, v)]|;
      forall j | 0 <= j < |r| ensures r[j] == d[i := (k, v)][j] {
        if j > 0 {
          assert r[j] == d[1..][i - 1 := (k, v)][j - 1];
        }
      }
    }
  }

  /** Where `Get` finds a value, some entry carries that key and that value. */
  lemma GetIndex<K, V>(d: Dict<K, V>, k: K) returns (i: nat)
    requires Get(d, k).Some?
    ensures i < |d| && d[i] == (k, Get(d, k).value)
  {
    assert (k, Get(d, k).value) in d;
    i :| 0 <= i < |d| && d[i] == (k, Get(d, k).value);
  }

  /** Every entry of `Put(d, k, v)` is the new pair or the entry of `d` at the same position. */
  lemma {:induction false} PutEntries<K, V>(d: Dict<K, V>, k: K, v: V)
    ensures forall i :: 0 <= i < |Put(d, k, v)| ==> Put(d, k, v)[i] == (k, v) || (i < |d| && Put(d, k, v)[i] == d[i])
  {
    if d != [] && d[0].0 != k {
      PutEntries(d[1..], k, v);
      var r := Put(d, k, v);
      forall i | 1 <= i < |r| ensures r[i] == (k, v) || (i < |d| && r[i] == d[i]) {
        assert r[i] == Put(d[1..], k, v)[i - 1];
      }
    }
  }

  /** The set of keys, as `len(d)` counts them. */
  function KeySet<K(==), V>(d: Dict<K, V>): set<K> {
    set i | 0 <= i < |d| :: d[i].0
  }

  /** Without repeated keys, the number of entries is the number of distinct keys. */
  lemma {:induction false} UniqueKeysCount<K, V>(d: Dict<K, V>)
    requires UniqueKeys(d)
    ensures |KeySet(d)| == |d|
  {
    if d != [] {
      var rest := d[1..];
      forall i, j | 0 <= i < j < |rest| ensures rest[i].0 != rest[j].0 {
        assert rest[i] == d[i + 1] && rest[j] == d[j + 1];
      }
      UniqueKeysCount(rest);
      forall i | 0 <= i < |rest| ensures rest[i].0 != d[0].0 && rest[i].0 in KeySet(d) {
        assert rest[i] == d[i + 1];
      }
      forall q | q in KeySet(d) ensures q == d[0].0 || q in KeySet(rest) {
        var i :| 0 <= i < |d| && d[i].0 == q;
        if i > 0 { assert rest[i - 1] == d[i]; }
      }
      assert KeySet(d) == {d[0].0} + KeySet(rest);
    }
  }
}
