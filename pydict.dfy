/**
 * Python's `dict` where its iteration order matters: a sequence of (key, value) entries in
 * insertion order. Assigning to a present key keeps its position; assigning to a new key
 * appends; deleting a key removes its entry.
 */
module PyDict {
  import opened Common

  type Dict<K, V> = seq<(K, V)>

  /** The keys in iteration order (`list(d)`). */
  function Keys<K, V>(d: Dict<K, V>): (ks: seq<K>)
    ensures |ks| == |d|
    ensures forall i :: 0 <= i < |d| ==> ks[i] == d[i].0
  {
    seq(|d|, i requires 0 <= i < |d| => d[i].0)
  }

  /** No key occurs twice, as in every dict Python builds. */
  ghost predicate DistinctKeys<K, V>(d: Dict<K, V>)
  {
    forall i, j :: 0 <= i < j < |d| ==> d[i].0 != d[j].0
  }

  /** `d.get(k)`: the value of the entry with key `k`, if any. */
  function Get<K(==), V>(d: Dict<K, V>, k: K): Option<V>
  {
    if d == [] then None else if d[0].0 == k then Some(d[0].1) else Get(d[1..], k)
  }

  /** `d[k] = v`. */
  function Set<K(==), V>(d: Dict<K, V>, k: K, v: V): Dict<K, V>
  {
    if d == [] then [(k, v)]
    else if d[0].0 == k then [(k, v)] + d[1..]
    else [d[0]] + Set(d[1..], k, v)
  }

  /** `del d[k]` (and `d.pop(k, None)`): drops the entry of `k`, if any. */
  function Remove<K(==), V>(d: Dict<K, V>, k: K): Dict<K, V>
  {
    if d == [] then []
    else if d[0].0 == k then Remove(d[1..], k)
    else [d[0]] + Remove(d[1..], k)
  }

  /** A key is found exactly when it is one of the keys. */
  lemma {:induction false} GetFindsKeys<K, V>(d: Dict<K, V>, k: K)
    ensures Get(d, k).Some? <==> k in Keys(d)
  {
    if d != [] {
      GetFindsKeys(d[1..], k);
      assert Keys(d) == [d[0].0] + Keys(d[1..]);
    }
  }

  /** After `d[k] = v`, `k` reads back `v` and every other key reads as before. */
  lemma {:induction false} GetAfterSet<K, V>(d: Dict<K, V>, k: K, v: V, k': K)
    ensures Get(Set(d, k, v), k') == if k' == k then Some(v) else Get(d, k')
  {
    if d != [] && d[0].0 != k {
      GetAfterSet(d[1..], k, v, k');
      assert Set(d, k, v)[1..] == Set(d[1..], k, v);
    } else if d != [] {
      assert Set(d, k, v)[1..] == d[1..];
    }
  }

  /** `d[k] = v` keeps a present key in its place and appends a new one. */
  lemma {:induction false} SetKeys<K, V>(d: Dict<K, V>, k: K, v: V)
    ensures Keys(Set(d, k, v)) == if Get(d, k).Some? then Keys(d) else Keys(d) + [k]
  {
    if d == [] {
      assert Keys(Set(d, k, v)) == [k];
    } else if d[0].0 == k {
      var r := Set(d, k, v);
      assert forall i :: 0 <= i < |r| ==> r[i].0 == d[i].0;
    } else {
      var r := Set(d, k, v);
      var tail := Set(d[1..], k, v);
      SetKeys(d[1..], k, v);
      assert r == [d[0]] + tail;
      if Get(d, k).Some? {
        assert Keys(tail) == Keys(d[1..]);
        assert forall i :: 0 <= i < |r| ==> r[i].0 == d[i].0;
      } else {
        assert Keys(tail) == Keys(d[1..]) + [k];
        assert |r| == |d| + 1;
        assert forall i :: 0 <= i < |d| ==> r[i].0 == d[i].0;
        assert r[|d|].0 == k;
      }
    }
  }

  lemma SetKeepsDistinct<K, V>(d: Dict<K, V>, k: K, v: V)
    requires DistinctKeys(d)
    ensures DistinctKeys(Set(d, k, v))
  {
    SetKeys(d, k, v);
    GetFindsKeys(d, k);
    var r := Set(d, k, v);
    assert forall i :: 0 <= i < |r| ==> Keys(r)[i] == r[i].0;
  }

  /** After `del d[k]`, `k` is absent and every other key reads as before. */
  lemma {:induction false} GetAfterRemove<K, V>(d: Dict<K, V>, k: K, k': K)
    ensures Get(Remove(d, k), k') == if k' == k then None else Get(d, k')
  {
    if d != [] {
      GetAfterRemove(d[1..], k, k');
      if d[0].0 != k {
        assert Remove(d, k)[1..] == Remove(d[1..], k);
      }
    }
  }

  /** Every entry after `d[k] = v` is `(k, v)` or an entry of `d`. */
  lemma {:induction false} SetEntries<K, V>(d: Dict<K, V>, k: K, v: V)
    ensures forall i :: 0 <= i < |Set(d, k, v)| ==> Set(d, k, v)[i] == (k, v) || Set(d, k, v)[i] in d
  {
    if d != [] && d[0].0 != k {
      SetEntries(d[1..], k, v);
      var r := Set(d, k, v);
      assert r[1..] == Set(d[1..], k, v);
      assert forall e :: e in d[1..] ==> e in d;
    } else if d != [] {
      assert forall e :: e in d[1..] ==> e in d;
    }
  }

  /** Every entry after `del d[k]` is an entry of `d` whose key is not `k`. */
  lemma {:induction false} RemoveEntries<K, V>(d: Dict<K, V>, k: K)
    ensures forall i :: 0 <= i < |Remove(d, k)| ==> Remove(d, k)[i] in d && Remove(d, k)[i].0 != k
  {
    if d != [] {
      RemoveEntries(d[1..], k);
      assert forall e :: e in d[1..] ==> e in d;
      if d[0].0 != k {
        assert Remove(d, k)[1..] == Remove(d[1..], k);
      }
    }
  }

  /** A key found by `d.get(k)` comes with an entry of `d`. */
  lemma {:induction false} GetEntry<K, V>(d: Dict<K, V>, k: K)
    requires Get(d, k).Some?
    ensures (k, Get(d, k).value) in d
  {
    if d[0].0 != k {
      GetEntry(d[1..], k);
    }
  }

  /** Deleting a key keeps the keys distinct. */
  lemma {:induction false} RemoveKeepsDistinct<K, V>(d: Dict<K, V>, k: K)
    requires DistinctKeys(d)
    ensures DistinctKeys(Remove(d, k))
  {
    if d != [] {
      assert DistinctKeys(d[1..]);
      RemoveKeepsDistinct(d[1..], k);
      RemoveEntries(d[1..], k);
      if d[0].0 != k {
        var r := Remove(d, k);
        assert r[1..] == Remove(d[1..], k);
        forall j | 1 <= j < |r|
          ensures r[0].0 != r[j].0
        {
          var m :| 0 <= m < |d[1..]| && d[1..][m] == r[j];
          assert d[m + 1] == r[j];
        }
      }
    }
  }

  /** Reading a dict with one more entry at its end. */
  lemma {:induction false} GetSnoc<K, V>(d: Dict<K, V>, e: (K, V), k: K)
    ensures Get(d + [e], k) == if Get(d, k).Some? then Get(d, k) else if e.0 == k then Some(e.1) else None
  {
    if d != [] {
      assert (d + [e])[1..] == d[1..] + [e];
      GetSnoc(d[1..], e, k);
    } else {
      assert d + [e] == [e];
    }
  }
}
