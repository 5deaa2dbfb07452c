/** An insertion-ordered dictionary, as Python's `dict` and a JavaScript object
    behave: a sequence of key/value entries with distinct keys. Assigning to an
    existing key replaces its value where it stands; a new key goes at the end. */
module OrderedDict {
  import opened Options

  type Dict<K, V> = seq<(K, V)>

  function Keys<K, V>(d: Dict<K, V>): (r: seq<K>)
    ensures |r| == |d|
    ensures forall i :: 0 <= i < |d| ==> r[i] == d[i].0
  {
    seq(|d|, i requires 0 <= i < |d| => d[i].0)
  }

  function Values<K, V>(d: Dict<K, V>): (r: seq<V>)
    ensures |r| == |d|
    ensures forall i :: 0 <= i < |d| ==> r[i] == d[i].1
  {
    seq(|d|, i requires 0 <= i < |d| => d[i].1)
  }

  predicate DistinctKeys<K(==), V>(d: Dict<K, V>) {
    forall i, j :: 0 <= i < j < |d| ==> d[i].0 != d[j].0
  }

  predicate HasKey<K(==), V>(d: Dict<K, V>, k: K) {
    exists i :: 0 <= i < |d| && d[i].0 == k
  }

  /** The position of key `k`, if it is present. */
  function IndexOf<K(==), V>(d: Dict<K, V>, k: K): (r: Option<nat>)
    ensures r.Some? ==> r.value < |d| && d[r.value].0 == k
    ensures r.Some? ==> forall j :: 0 <= j < r.value ==> d[j].0 != k
    ensures r.None? <==> !HasKey(d, k)
  {
    if |d| == 0 then None
    else if d[0].0 == k then Some(0)
    else match IndexOf(d[1..], k)
      case None => None
      case Some(i) => Some(i + 1)
  }

  /** `d[k]` read with a default for a missing key (`d.get(k, dflt)`). */
  function Get<K(==), V>(d: Dict<K, V>, k: K, dflt: V): V {
    match IndexOf(d, k)
    case None => dflt
    case Some(i) => d[i].1
  }

  /** `d[k]` in JavaScript: `undefined` (here `None`) for a missing key. */
  function Lookup<K(==), V>(d: Dict<K, V>, k: K): (r: Option<V>)
    ensures r.Some? <==> HasKey(d, k)
  {
    match IndexOf(d, k)
    case None => None
    case Some(i) => Some(d[i].1)
  }

  /** `d[k] = v` */
  function Put<K(==), V>(d: Dict<K, V>, k: K, v: V): (r: Dict<K, V>)
    ensures HasKey(d, k) ==> |r| == |d|
    ensures !HasKey(d, k) ==> r == d + [(k, v)]
    ensures forall i :: 0 <= i < |d| ==> r[i].0 == d[i].0
    ensures forall i :: 0 <= i < |d| && d[i].0 != k ==> r[i] == d[i]
    ensures forall i :: 0 <= i < |r| ==> r[i] == (k, v) || (i < |d| && r[i] == d[i])
    ensures HasKey(r, k)
  {
    match IndexOf(d, k)
    case None =>
      var r := d + [(k, v)];
      assert r[|d|].0 == k;
      r
    case Some(i) => d[i := (k, v)]
  }

  lemma PutDistinct<K, V>(d: Dict<K, V>, k: K, v: V)
    requires DistinctKeys(d)
    ensures DistinctKeys(Put(d, k, v))
  {
  }

  /** The first position holding `k` is the one `IndexOf` reports. */
  lemma IndexOfFirst<K, V>(d: Dict<K, V>, k: K, i: nat)
    requires i < |d| && d[i].0 == k
    requires forall m :: 0 <= m < i ==> d[m].0 != k
    ensures IndexOf(d, k) == Some(i)
  {
    assert HasKey(d, k);
  }

  /** After `d[k] = v` the keys are those of `d` and `k`. */
  lemma HasKeyPut<K, V>(d: Dict<K, V>, k: K, v: V, k': K)
    ensures HasKey(Put(d, k, v), k') <==> HasKey(d, k') || k' == k
  {
    var r := Put(d, k, v);
    if HasKey(r, k') && k' != k {
      var i :| 0 <= i < |r| && r[i].0 == k';
      assert i < |d| && d[i].0 == k';
    }
    if HasKey(d, k') {
      var i :| 0 <= i < |d| && d[i].0 == k';
      assert r[i].0 == k';
    }
  }

  /** Reading back what was just assigned, and reading any other key. */
  lemma GetPut<K, V>(d: Dict<K, V>, k: K, v: V, k': K, dflt: V)
    requires DistinctKeys(d)
    ensures Get(Put(d, k, v), k', dflt) == if k' == k then v else Get(d, k', dflt)
  {
    var r := Put(d, k, v);
    if k' == k {
      match IndexOf(d, k)
      case None =>
        assert r[|d|] == (k, v);
        IndexOfFirst(r, k, |d|);
      case Some(j) =>
        assert r[j] == (k, v);
        IndexOfFirst(r, k, j);
    } else {
      match IndexOf(d, k')
      case None =>
        assert !HasKey(r, k');
      case Some(j) =>
        assert r[j] == d[j];
        IndexOfFirst(r, k', j);
    }
  }

  /** Reading back what was just assigned, whatever the rest of `d` holds. */
  lemma GetPutSame<K, V>(d: Dict<K, V>, k: K, v: V, dflt: V)
    ensures Get(Put(d, k, v), k, dflt) == v
  {
    var r := Put(d, k, v);
    match IndexOf(d, k)
    case None =>
      IndexOfFirst(r, k, |d|);
    case Some(j) =>
      IndexOfFirst(r, k, j);
  }

  /** A second assignment to the same key overwrites the first. */
  lemma PutPut<K, V>(d: Dict<K, V>, k: K, v: V, w: V)
    ensures Put(Put(d, k, v), k, w) == Put(d, k, w)
  {
    var p := Put(d, k, v);
    match IndexOf(d, k)
    case None =>
      IndexOfFirst(p, k, |d|);
    case Some(i) =>
      IndexOfFirst(p, k, i);
  }

  /** Reading back after an assignment, as `Lookup`. */
  lemma LookupPut<K, V>(d: Dict<K, V>, k: K, v: V, k': K)
    requires DistinctKeys(d)
    ensures Lookup(Put(d, k, v), k') == if k' == k then Some(v) else Lookup(d, k')
  {
    var r := Put(d, k, v);
    if k' == k {
      match IndexOf(d, k)
      case None =>
        IndexOfFirst(r, k, |d|);
      case Some(j) =>
        IndexOfFirst(r, k, j);
    } else {
      match IndexOf(d, k')
      case None =>
        assert !HasKey(r, k');
      case Some(j) =>
        assert r[j] == d[j];
        IndexOfFirst(r, k', j);
    }
  }

  function SumOf(s: seq<int>): int {
    if s == [] then 0 else SumOf(s[..|s| - 1]) + s[|s| - 1]
  }

  lemma {:induction false} SumOfConcat(a: seq<int>, b: seq<int>)
    ensures SumOf(a + b) == SumOf(a) + SumOf(b)
    decreases |b|
  {
    if b == [] {
      assert a + b == a;
    } else {
      assert (a + b)[..|a + b| - 1] == a + b[..|b| - 1];
      SumOfConcat(a, b[..|b| - 1]);
    }
  }

  lemma {:induction false} SumOfUpdate(s: seq<int>, i: nat, x: int)
    requires i < |s|
    ensures SumOf(s[i := x]) == SumOf(s) - s[i] + x
  {
    assert s == s[..i] + [s[i]] + s[i + 1..];
    assert s[i := x] == s[..i] + [x] + s[i + 1..];
    SumOfConcat(s[..i] + [s[i]], s[i + 1..]);
    SumOfConcat(s[..i] + [x], s[i + 1..]);
    SumOfConcat(s[..i], [s[i]]);
    SumOfConcat(s[..i], [x]);
  }

  /** The total of the values is that of all but the last entry plus the
      last value. */
  lemma SumValuesSnoc<K>(d: Dict<K, int>)
    requires d != []
    ensures SumOf(Values(d)) == SumOf(Values(d[..|d| - 1])) + d[|d| - 1].1
  {
    assert Values(d)[..|d| - 1] == Values(d[..|d| - 1]);
  }

  /** The total of a dictionary's values after `d[k] = v`: the old value of
      `k` (0 if absent) is taken out and `v` is added. */
  lemma SumAfterPut<K>(d: Dict<K, int>, k: K, v: int)
    requires DistinctKeys(d)
    ensures SumOf(Values(Put(d, k, v))) == SumOf(Values(d)) - Get(d, k, 0) + v
  {
    match IndexOf(d, k)
    case None =>
      assert Values(d + [(k, v)]) == Values(d) + [v];
      SumOfConcat(Values(d), [v]);
    case Some(i) =>
      assert Values(d[i := (k, v)]) == Values(d)[i := v];
      SumOfUpdate(Values(d), i, v);
  }
}
