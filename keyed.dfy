/** Lists of records identified by a key field (snapshot `Name`, host
    `Hostname`) and the replace-or-append update the restic wrapper applies to
    them.
 */
module Keyed {
  import opened Wrappers

  /** Index of the first record whose key is `k`. */
  function IndexOfKey<T, K(==)>(s: seq<T>, key: T -> K, k: K): (r: Option<nat>)
    ensures r.Some? ==> r.value < |s| && key(s[r.value]) == k
    ensures r.Some? ==> forall j :: 0 <= j < r.value ==> key(s[j]) != k
    ensures r.None? <==> forall j :: 0 <= j < |s| ==> key(s[j]) != k
  {
    if s == [] then None
    else if key(s[0]) == k then Some(0)
    else
      match IndexOfKey(s[1..], key, k)
      case None => None
      case Some(i) => Some(i + 1)
  }

  /** Replace the first record with the same key as `x`, or append `x`. */
  function Upsert<T, K(==)>(s: seq<T>, key: T -> K, x: T): seq<T>
  {
    match IndexOfKey(s, key, key(x))
    case Some(i) => s[i := x]
    case None => s + [x]
  }

  /** No two records share a key. */
  predicate DistinctKeys<T, K(==)>(s: seq<T>, key: T -> K)
  {
    forall i, j :: 0 <= i < j < |s| ==> key(s[i]) != key(s[j])
  }

  /** A record with a key already present replaces the first such record in
      place: same length, every other position unchanged. */
  lemma UpsertReplaces<T, K>(s: seq<T>, key: T -> K, x: T, i: nat)
    requires i < |s| && key(s[i]) == key(x)
    requires forall j :: 0 <= j < i ==> key(s[j]) != key(x)
    ensures |Upsert(s, key, x)| == |s|
    ensures Upsert(s, key, x)[i] == x
    ensures forall j :: 0 <= j < |s| && j != i ==> Upsert(s, key, x)[j] == s[j]
  {
    var r := IndexOfKey(s, key, key(x));
    assert r.Some?;
    assert !(r.value < i);
    assert !(r.value > i);
  }

  /** A record with an unseen key is appended; the prefix is unchanged. */
  lemma UpsertAppends<T, K>(s: seq<T>, key: T -> K, x: T)
    requires forall j :: 0 <= j < |s| ==> key(s[j]) != key(x)
    ensures Upsert(s, key, x) == s + [x]
    ensures |Upsert(s, key, x)| == |s| + 1
  {
  }

  /** After an upsert the record is found under its key. */
  lemma UpsertFinds<T, K>(s: seq<T>, key: T -> K, x: T)
    ensures exists i :: 0 <= i < |Upsert(s, key, x)| && Upsert(s, key, x)[i] == x
  {
    match IndexOfKey(s, key, key(x))
    case Some(i) =>
      assert Upsert(s, key, x)[i] == x;
    case None =>
      assert Upsert(s, key, x)[|s|] == x;
  }

  /** A record under another key survives an upsert. */
  lemma UpsertKeepsOthers<T, K>(s: seq<T>, key: T -> K, x: T, y: T)
    requires y in s && key(y) != key(x)
    ensures y in Upsert(s, key, x)
  {
    var k :| 0 <= k < |s| && s[k] == y;
    match IndexOfKey(s, key, key(x))
    case Some(i) =>
      assert Upsert(s, key, x)[k] == y;
    case None =>
      assert Upsert(s, key, x)[k] == y;
  }

  /** Every key present before an upsert is still present after it. */
  lemma UpsertKeepsKey<T, K>(s: seq<T>, key: T -> K, x: T, y: T)
    requires y in s
    ensures exists z :: z in Upsert(s, key, x) && key(z) == key(y)
  {
    if key(y) == key(x) {
      UpsertFinds(s, key, x);
    } else {
      UpsertKeepsOthers(s, key, x, y);
    }
  }

  /** Upsert keeps keys distinct: the key set grows by the new key only. */
  lemma UpsertKeepsDistinct<T, K>(s: seq<T>, key: T -> K, x: T)
    requires DistinctKeys(s, key)
    ensures DistinctKeys(Upsert(s, key, x), key)
  {
    var u := Upsert(s, key, x);
    match IndexOfKey(s, key, key(x))
    case Some(i) =>
      forall a, b | 0 <= a < b < |u| ensures key(u[a]) != key(u[b]) {
        if a == i {
          assert key(u[a]) == key(s[i]);
        } else if b == i {
          assert key(u[b]) == key(s[i]);
        }
      }
    case None =>
      forall a, b | 0 <= a < b < |u| ensures key(u[a]) != key(u[b]) {
        if b == |s| {
          assert key(u[a]) == key(s[a]);
        }
      }
  }
}
