/** Python's `dict` as the modelled code uses it: an insertion-ordered
    sequence of key/value pairs with distinct keys. Assigning to an existing
    key keeps its position; assigning to a new key appends; `pop` removes. */
module ODict {
  import opened Base

  type Dict<K, V> = seq<(K, V)>

  /** `list(d.values())` */
  function Values<K, V>(d: Dict<K, V>): (r: seq<V>)
    ensures |r| == |d| && forall i :: 0 <= i < |d| ==> r[i] == d[i].1
  {
    seq(|d|, i requires 0 <= i < |d| => d[i].1)
  }

  predicate DistinctKeys<K(==,!new), V>(d: Dict<K, V>)
  {
    forall i, j :: 0 <= i < j < |d| ==> d[i].0 != d[j].0
  }

  function Keys<K, V>(d: Dict<K, V>): (r: seq<K>)
    ensures |r| == |d| && forall i :: 0 <= i < |d| ==> r[i] == d[i].0
  {
    seq(|d|, i requires 0 <= i < |d| => d[i].0)
  }

  function IndexFrom<K(==,!new), V>(d: Dict<K, V>, k: K, start: nat): (r: Option<nat>)
    ensures r.Some? ==> start <= r.value < |d| && d[r.value].0 == k
    ensures r.Some? ==> forall j :: start <= j < r.value ==> d[j].0 != k
    ensures r.None? ==> forall j :: start <= j < |d| ==> d[j].0 != k
    decreases |d| - start
  {
    if start >= |d| then None
    else if d[start].0 == k then Some(start)
    else IndexFrom(d, k, start + 1)
  }

  /** The position of key `k`, if present. */
  function IndexOfKey<K(==,!new), V>(d: Dict<K, V>, k: K): (r: Option<nat>)
    ensures r.Some? ==> r.value < |d| && d[r.value].0 == k
    ensures r.Some? ==> forall j :: 0 <= j < r.value ==> d[j].0 != k
    ensures r.None? ==> forall j :: 0 <= j < |d| ==> d[j].0 != k
  {
    IndexFrom(d, k, 0)
  }

  /** `k in d` */
  predicate HasKey<K(==,!new), V>(d: Dict<K, V>, k: K)
  {
    IndexOfKey(d, k).Some?
  }

  /** `d.get(k)` */
  function Get<K(==,!new), V>(d: Dict<K, V>, k: K): (r: Option<V>)
    ensures r.Some? <==> HasKey(d, k)
  {
    match IndexOfKey(d, k)
    case None => None
    case Some(i) => Some(d[i].1)
  }

  /** `d.get(k, default)` */
  function GetOr<K(==,!new), V>(d: Dict<K, V>, k: K, default: V): V
  {
    Get(d, k).GetOr(default)
  }

  lemma IndexOfKeyAt<K(!new), V>(d: Dict<K, V>, k: K, p: nat)
    requires p < |d| && d[p].0 == k
    requires forall j :: 0 <= j < p ==> d[j].0 != k
    ensures IndexOfKey(d, k) == Some(p)
  {
  }

  lemma IndexOfKeyAbsent<K(!new), V>(d: Dict<K, V>, k: K)
    requires forall j :: 0 <= j < |d| ==> d[j].0 != k
    ensures IndexOfKey(d, k) == None
  {
  }

  /** Dictionaries with the same keys in the same positions find every key
      at the same position. */
  lemma SameLookups<K(!new), V>(d: Dict<K, V>, r: Dict<K, V>, k: K)
    requires |r| == |d|
    requires forall j :: 0 <= j < |d| ==> r[j].0 == d[j].0
    ensures IndexOfKey(r, k) == IndexOfKey(d, k)
  {
    var a := IndexOfKey(d, k);
    if a.Some? {
      IndexOfKeyAt(r, k, a.value);
    } else {
      IndexOfKeyAbsent(r, k);
    }
  }

  /** `d[k] = v` */
  function Set<K(==,!new), V>(d: Dict<K, V>, k: K, v: V): (r: Dict<K, V>)
    ensures HasKey(d, k) ==> |r| == |d|
    ensures !HasKey(d, k) ==> r == d + [(k, v)]
  {
    match IndexOfKey(d, k)
    case None => d + [(k, v)]
    case Some(i) => d[i := (k, v)]
  }

  /** After `d[k] = v`, `k` maps to `v`, every other key maps to what it did,
      the keys stay distinct, and an existing key keeps its position. */
  lemma SetProps<K(!new), V>(d: Dict<K, V>, k: K, v: V)
    ensures Get(Set(d, k, v), k) == Some(v)
    ensures forall k' :: k' != k ==> Get(Set(d, k, v), k') == Get(d, k')
    ensures DistinctKeys(d) ==> DistinctKeys(Set(d, k, v))
    ensures HasKey(d, k) ==> Keys(Set(d, k, v)) == Keys(d)
  {
    var r := Set(d, k, v);
    var a := IndexOfKey(d, k);
    if a.None? {
      forall k' | k' != k ensures Get(r, k') == Get(d, k') {
        var b := IndexOfKey(d, k');
        if b.Some? {
          IndexOfKeyAt(r, k', b.value);
        } else {
          IndexOfKeyAbsent(r, k');
        }
      }
      IndexOfKeyAt(r, k, |d|);
    } else {
      var i := a.value;
      assert r == d[i := (k, v)];
      forall k' ensures IndexOfKey(r, k') == IndexOfKey(d, k') {
        SameLookups(d, r, k');
      }
      assert Keys(r) == Keys(d);
    }
  }

  /** `d.pop(k, None)` */
  function Remove<K(==,!new), V>(d: Dict<K, V>, k: K): (r: Dict<K, V>)
    ensures HasKey(d, k) ==> |r| == |d| - 1
    ensures !HasKey(d, k) ==> r == d
  {
    match IndexOfKey(d, k)
    case None => d
    case Some(i) => d[..i] + d[i + 1..]
  }

  /** After `d.pop(k)` on a dictionary, `k` is gone and every other key maps
      to what it did. */
  lemma RemoveProps<K(!new), V>(d: Dict<K, V>, k: K)
    requires DistinctKeys(d)
    ensures Get(Remove(d, k), k) == None
    ensures forall k' :: k' != k ==> Get(Remove(d, k), k') == Get(d, k')
    ensures DistinctKeys(Remove(d, k))
  {
    var r := Remove(d, k);
    var a := IndexOfKey(d, k);
    if a.Some? {
      var i := a.value;
      assert r == d[..i] + d[i + 1..];
      assert forall j :: 0 <= j < |r| ==> r[j] == (if j < i then d[j] else d[j + 1]);
      forall k' | k' != k ensures Get(r, k') == Get(d, k') {
        var b := IndexOfKey(d, k');
        if b.Some? {
          var p := b.value;
          if p < i {
            IndexOfKeyAt(r, k', p);
          } else {
            IndexOfKeyAt(r, k', p - 1);
          }
        } else {
          IndexOfKeyAbsent(r, k');
        }
      }
      IndexOfKeyAbsent(r, k);
    }
  }

  /** The keys mapped by `f`, in order (`{f(k): v for k, v in d.items()}`). */
  function MapKeys<K, V>(d: Dict<K, V>, f: K -> K): (r: Dict<K, V>)
    ensures |r| == |d| && forall i :: 0 <= i < |d| ==> r[i] == (f(d[i].0), d[i].1)
  {
    seq(|d|, i requires 0 <= i < |d| => (f(d[i].0), d[i].1))
  }
}
