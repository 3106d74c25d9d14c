/**
 * Python's insertion-ordered `dict`: its (key, value) pairs in insertion order.
 * Assigning to a present key replaces its value in place; assigning to a new
 * key appends the pair at the end.
 */
module Dict {
  import opened Wrappers

  type Dict<K, V> = seq<(K, V)>

  /** The position of key `k` in `d`, if present. */
  function IndexOf<K(==), V>(d: Dict<K, V>, k: K): (r: Option<nat>)
    ensures r.Some? ==> r.value < |d| && d[r.value].0 == k
    ensures r.Some? ==> forall j :: 0 <= j < r.value ==> d[j].0 != k
    ensures r.None? <==> forall j :: 0 <= j < |d| ==> d[j].0 != k
    decreases |d|
  {
    if d == [] then None
    else if d[0].0 == k then Some(0)
    else match IndexOf(d[1..], k)
      case Some(i) => Some(i + 1)
      case None => None
  }

  /** `d.get(k)`. */
  function Get<K(==), V>(d: Dict<K, V>, k: K): Option<V>
  {
    match IndexOf(d, k)
    case Some(i) => Some(d[i].1)
    case None => None
  }

  /** `k in d`. */
  predicate HasKey<K(==), V>(d: Dict<K, V>, k: K)
  {
    IndexOf(d, k).Some?
  }

  /** The keys in insertion order. */
  function Keys<K, V>(d: Dict<K, V>): (ks: seq<K>)
    ensures |ks| == |d|
    ensures forall i :: 0 <= i < |d| ==> ks[i] == d[i].0
  {
    seq(|d|, i requires 0 <= i < |d| => d[i].0)
  }

  predicate DistinctKeys<K(==), V>(d: Dict<K, V>)
  {
    forall i, j :: 0 <= i < j < |d| ==> d[i].0 != d[j].0
  }

  /** `d[k] = v`. */
  function Put<K(==), V>(d: Dict<K, V>, k: K, v: V): (r: Dict<K, V>)
    ensures HasKey(d, k) ==> |r| == |d| && Keys(r) == Keys(d)
    ensures !HasKey(d, k) ==> Keys(r) == Keys(d) + [k]
    ensures DistinctKeys(d) ==> DistinctKeys(r)
  {
    match IndexOf(d, k)
    case Some(i) => d[i := (k, v)]
    case None => d + [(k, v)]
  }

  /** The first position holding key `k` is the one `IndexOf` finds. */
  lemma IndexOfFirst<K, V>(d: Dict<K, V>, k: K, i: nat)
    requires i < |d| && d[i].0 == k
    requires forall j :: 0 <= j < i ==> d[j].0 != k
    ensures IndexOf(d, k) == Some(i)
  {
  }

  /** Reading back after `d[k] = v`: `k` maps to `v` and every other key is as before. */
  lemma GetPut<K, V>(d: Dict<K, V>, k: K, v: V, k': K)
    ensures Get(Put(d, k, v), k') == if k' == k then Some(v) else Get(d, k')
  {
    var r := Put(d, k, v);
    assert forall j :: 0 <= j < |d| ==> r[j].0 == d[j].0;
    if k' == k {
      match IndexOf(d, k)
      case Some(i) => IndexOfFirst(r, k, i);
      case None => IndexOfFirst(r, k, |d|);
    } else {
      match IndexOf(d, k')
      case Some(i') =>
        assert r[i'] == d[i'];
        IndexOfFirst(r, k', i');
      case None =>
        assert forall j :: 0 <= j < |r| ==> r[j].0 != k';
    }
  }

  /** A second assignment to the same key overrides the first. */
  lemma PutPut<K, V>(d: Dict<K, V>, k: K, v1: V, v2: V)
    ensures Put(Put(d, k, v1), k, v2) == Put(d, k, v2)
  {
    var d1 := Put(d, k, v1);
    match IndexOf(d, k)
    case Some(i) =>
      assert forall j :: 0 <= j < |d| ==> d1[j].0 == d[j].0;
      IndexOfFirst(d1, k, i);
    case None =>
      IndexOfFirst(d1, k, |d|);
  }

  /** The sum of the values (`sum(d.values())`). */
  function SumValues<K>(d: Dict<K, int>): int
  {
    if d == [] then 0 else SumValues(d[..|d| - 1]) + d[|d| - 1].1
  }
}
