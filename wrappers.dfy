/** Optional values and results, used wherever the scraper answers `None` or raises. */
module Wrappers {

  datatype Option<+T> = None | Some(value: T) {
    /** `x or default`: the value when present, otherwise the default. */
    function GetOr(default: T): T {
      match this
      case Some(v) => v
      case None => default
    }
  }

  datatype Result<+R, +E> = Success(value: R) | Failure(error: E)
}

/** Ordered key/value lists: the model of an insertion-ordered Python dict. */
module Assoc {
  import opened Wrappers

  function Keys<K(==), V>(entries: seq<(K, V)>): (ks: seq<K>)
    ensures |ks| == |entries|
    ensures forall i :: 0 <= i < |entries| ==> ks[i] == entries[i].0
  {
    if entries == [] then [] else [entries[0].0] + Keys(entries[1..])
  }

  /** `d.get(k)`: the value stored under `k`, if any. */
  function Lookup<K(==), V>(entries: seq<(K, V)>, k: K): (r: Option<V>)
    ensures r.None? <==> k !in Keys(entries)
    ensures r.Some? ==> (k, r.value) in entries
  {
    if entries == [] then None
    else if entries[0].0 == k then Some(entries[0].1)
    else Lookup(entries[1..], k)
  }

  lemma {:induction false} KeysAppend<K, V>(a: seq<(K, V)>, b: seq<(K, V)>)
    ensures Keys(a + b) == Keys(a) + Keys(b)
  {
    if a != [] {
      assert (a + b)[1..] == a[1..] + b;
      KeysAppend(a[1..], b);
    } else {
      assert a + b == b;
    }
  }

  /** Looking up in a concatenation: the first part wins when it holds the key. */
  lemma {:induction false} LookupAppend<K, V>(a: seq<(K, V)>, b: seq<(K, V)>, k: K)
    ensures Lookup(a + b, k) == if k in Keys(a) then Lookup(a, k) else Lookup(b, k)
  {
    if a != [] {
      assert (a + b)[1..] == a[1..] + b;
      LookupAppend(a[1..], b, k);
    } else {
      assert a + b == b;
    }
  }

  /** No key is stored twice, as in a dict. */
  predicate DistinctKeys<K(==), V>(entries: seq<(K, V)>)
  {
    forall i, j :: 0 <= i < j < |entries| ==> entries[i].0 != entries[j].0
  }

  /** In a list with distinct keys, looking up a stored key gives its stored value. */
  lemma {:induction false} LookupDistinct<K, V>(entries: seq<(K, V)>, i: nat)
    requires DistinctKeys(entries) && i < |entries|
    ensures Lookup(entries, entries[i].0) == Some(entries[i].1)
  {
    if i > 0 {
      assert DistinctKeys(entries[1..]) by {
        forall a, b | 0 <= a < b < |entries[1..]|
          ensures entries[1..][a].0 != entries[1..][b].0
        {
          assert entries[1..][a] == entries[a + 1] && entries[1..][b] == entries[b + 1];
        }
      }
      LookupDistinct(entries[1..], i - 1);
      assert entries[1..][i - 1] == entries[i];
    }
  }
}
