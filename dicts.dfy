/** Python dicts from string keys: the items in insertion order, keys
    distinct. Assigning to a present key overwrites its value in place;
    a new key goes to the end. */
module Dicts {
  import opened Wrappers

  type Dict<V> = seq<(string, V)>

  predicate DistinctKeys<V>(d: Dict<V>) {
    forall i, j :: 0 <= i < j < |d| ==> d[i].0 != d[j].0
  }

  /** The position of key `k`, if present. */
  function KeyIndex<V>(d: Dict<V>, k: string): (r: Option<nat>)
    ensures r.Some? ==> r.value < |d| && d[r.value].0 == k
    ensures r.None? ==> forall j :: 0 <= j < |d| ==> d[j].0 != k
  {
    if |d| == 0 then None
    else if d[0].0 == k then Some(0)
    else match KeyIndex(d[1..], k)
      case None => None
      case Some(i) => Some(i + 1)
  }

  /** `d[k]`, or `None` when `k` is absent. */
  function Lookup<V>(d: Dict<V>, k: string): Option<V> {
    match KeyIndex(d, k)
    case None => None
    case Some(i) => Some(d[i].1)
  }

  /** `d[k] = v`: overwrites in place when `k` is present, else appends. */
  function Put<V>(d: Dict<V>, k: string, v: V): (r: Dict<V>)
    ensures |r| == |d| || r == d + [(k, v)]
  {
    match KeyIndex(d, k)
    case None => d + [(k, v)]
    case Some(i) => d[i := (k, v)]
  }

  /** Assignment keeps keys distinct, makes `k` map to `v` and leaves every
      other key's value as it was. */
  lemma PutLaws<V>(d: Dict<V>, k: string, v: V)
    requires DistinctKeys(d)
    ensures DistinctKeys(Put(d, k, v))
    ensures Lookup(Put(d, k, v), k) == Some(v)
    ensures forall k' :: k' != k ==> Lookup(Put(d, k, v), k') == Lookup(d, k')
    ensures forall j :: 0 <= j < |d| ==> Put(d, k, v)[j].0 == d[j].0
  {
    var r := Put(d, k, v);
    forall k' | k' != k ensures Lookup(r, k') == Lookup(d, k') {
      match KeyIndex(d, k') {
        case None =>
          assert forall j :: 0 <= j < |r| ==> r[j].0 != k';
        case Some(i) =>
          UniqueIndex(r, k', i);
      }
    }
    UniqueIndex(r, k, if KeyIndex(d, k).Some? then KeyIndex(d, k).value else |d|);
  }

  /** In a dict with distinct keys, the position of a key is its index. */
  lemma UniqueIndex<V>(d: Dict<V>, k: string, i: nat)
    requires DistinctKeys(d) && i < |d| && d[i].0 == k
    ensures KeyIndex(d, k) == Some(i)
  {
  }

  /** The keys, in insertion order. */
  function Keys<V>(d: Dict<V>): (r: seq<string>)
    ensures |r| == |d| && forall i :: 0 <= i < |d| ==> r[i] == d[i].0
  {
    seq(|d|, i requires 0 <= i < |d| => d[i].0)
  }

  /** Assignment keeps the keys in place and appends a new key at the end. */
  lemma PutKeys<V>(d: Dict<V>, k: string, v: V)
    ensures Keys(Put(d, k, v)) == if KeyIndex(d, k).None? then Keys(d) + [k] else Keys(d)
  {
  }
}
