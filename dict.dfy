/**
 * Python dictionaries with string keys, where insertion order is observable
 * (`dict.keys()`, `dict.items()`): a list of entries whose keys are distinct.
 * Assigning to an existing key keeps its position; a new key goes last.
 */
module OrderedDict {
  import opened Wrappers
  import Seqs

  type Entries<V> = seq<(string, V)>

  function Keys<V>(d: Entries<V>): (ks: seq<string>)
    ensures |ks| == |d|
    ensures forall i :: 0 <= i < |d| ==> ks[i] == d[i].0
  {
    if d == [] then [] else Keys(d[..|d| - 1]) + [d[|d| - 1].0]
  }

  /** `list(d.values())`. */
  function DictValues<V>(d: Entries<V>): (vs: seq<V>)
    ensures |vs| == |d|
    ensures forall i :: 0 <= i < |d| ==> vs[i] == d[i].1
  {
    if d == [] then [] else DictValues(d[..|d| - 1]) + [d[|d| - 1].1]
  }

  predicate UniqueKeys<V>(d: Entries<V>) {
    forall i, j :: 0 <= i < j < |d| ==> d[i].0 != d[j].0
  }

  predicate HasKey<V>(d: Entries<V>, k: string) {
    exists i :: 0 <= i < |d| && d[i].0 == k
  }

  /** `d.get(k)`: the value of the last entry with key `k` (the only one when keys are distinct). */
  function Get<V>(d: Entries<V>, k: string): (r: Option<V>)
    ensures r.None? <==> !HasKey(d, k)
    ensures r.Some? ==> exists i :: 0 <= i < |d| && d[i].0 == k && d[i].1 == r.value
  {
    if d == [] then None
    else if d[|d| - 1].0 == k then Some(d[|d| - 1].1)
    else
      var r := Get(d[..|d| - 1], k);
      assert forall i :: 0 <= i < |d| - 1 ==> d[..|d| - 1][i] == d[i];
      r
  }

  /** With distinct keys, the entry at `i` is what `Get` finds for its key. */
  lemma {:induction false} GetAt<V>(d: Entries<V>, i: int)
    requires UniqueKeys(d) && 0 <= i < |d|
    ensures Get(d, d[i].0) == Some(d[i].1)
  {
    if i < |d| - 1 {
      GetAt(d[..|d| - 1], i);
    }
  }

  /** `d[k] = v`. */
  function Put<V>(d: Entries<V>, k: string, v: V): (r: Entries<V>)
    requires UniqueKeys(d)
    ensures UniqueKeys(r)
    ensures Get(r, k) == Some(v)
    ensures forall j :: j != k ==> Get(r, j) == Get(d, j)
    ensures HasKey(d, k) ==> |r| == |d| && Keys(r) == Keys(d)
    ensures !HasKey(d, k) ==> r == d + [(k, v)]
  {
    if !HasKey(d, k) then
      PutNew(d, k, v);
      d + [(k, v)]
    else if d[|d| - 1].0 == k then
      PutOverLast(d, k, v);
      d[..|d| - 1] + [(k, v)]
    else
      var rest := Put(d[..|d| - 1], k, v);
      PutBeforeLast(d, k, v, rest);
      SnocSameGets(d, k, rest);
      rest + [d[|d| - 1]]
  }

  /** A new key goes last. */
  lemma PutNew<V>(d: Entries<V>, k: string, v: V)
    requires UniqueKeys(d) && !HasKey(d, k)
    ensures UniqueKeys(d + [(k, v)])
    ensures Get(d + [(k, v)], k) == Some(v)
    ensures forall j :: j != k ==> Get(d + [(k, v)], j) == Get(d, j)
  {
    SnocUnique(d, (k, v));
    SnocGet(d, (k, v));
  }

  /** Assigning to the last key replaces its entry in place. */
  lemma PutOverLast<V>(d: Entries<V>, k: string, v: V)
    requires UniqueKeys(d) && |d| > 0 && d[|d| - 1].0 == k
    ensures UniqueKeys(d[..|d| - 1] + [(k, v)])
    ensures Get(d[..|d| - 1] + [(k, v)], k) == Some(v)
    ensures forall j :: j != k ==> Get(d[..|d| - 1] + [(k, v)], j) == Get(d, j)
    ensures Keys(d[..|d| - 1] + [(k, v)]) == Keys(d)
  {
    var front := d[..|d| - 1];
    FrontLacksLastKey(d);
    SnocUnique(front, (k, v));
    SnocGet(front, (k, v));
    SnocKeys(front, (k, v));
  }

  /** Assigning to an earlier key changes the front and keeps the last entry. */
  lemma PutBeforeLast<V>(d: Entries<V>, k: string, v: V, rest: Entries<V>)
    requires UniqueKeys(d) && |d| > 0 && d[|d| - 1].0 != k
    requires UniqueKeys(rest) && Get(rest, k) == Some(v)
    requires Keys(rest) == Keys(d[..|d| - 1])
    ensures UniqueKeys(rest + [d[|d| - 1]])
    ensures Get(rest + [d[|d| - 1]], k) == Some(v)
    ensures Keys(rest + [d[|d| - 1]]) == Keys(d)
  {
    var last := d[|d| - 1];
    FrontLacksLastKey(d);
    SameKeysSameHas(rest, d[..|d| - 1], last.0);
    SnocUnique(rest, last);
    SnocGet(rest, last);
    SnocKeys(rest, last);
  }

  /** With distinct keys, the last key does not occur before it. */
  lemma FrontLacksLastKey<V>(d: Entries<V>)
    requires UniqueKeys(d) && |d| > 0
    ensures !HasKey(d[..|d| - 1], d[|d| - 1].0)
  {
  }

  /** A key is present exactly when it is among the keys. */
  lemma HasKeyInKeys<V>(d: Entries<V>, k: string)
    ensures HasKey(d, k) <==> k in Keys(d)
  {
    if HasKey(d, k) {
      var i :| 0 <= i < |d| && d[i].0 == k;
      assert Keys(d)[i] == k;
    }
  }

  /** Entries with the same keys have the same key set. */
  lemma SameKeysSameHas<V>(a: Entries<V>, b: Entries<V>, k: string)
    requires Keys(a) == Keys(b)
    ensures HasKey(a, k) <==> HasKey(b, k)
  {
    if HasKey(a, k) {
      var i :| 0 <= i < |a| && a[i].0 == k;
      assert Keys(b)[i] == k;
    }
    if HasKey(b, k) {
      var i :| 0 <= i < |b| && b[i].0 == k;
      assert Keys(a)[i] == k;
    }
  }

  /** Appending an entry with a new key keeps the keys distinct. */
  lemma SnocUnique<V>(d: Entries<V>, e: (string, V))
    requires UniqueKeys(d) && !HasKey(d, e.0)
    ensures UniqueKeys(d + [e])
  {
  }

  /** After appending, `Get` finds the new entry for its key and the old one for every other key. */
  lemma SnocGet<V>(d: Entries<V>, e: (string, V))
    ensures Get(d + [e], e.0) == Some(e.1)
    ensures forall j :: j != e.0 ==> Get(d + [e], j) == Get(d, j)
  {
    assert (d + [e])[..|d|] == d;
  }

  /** Appending an entry appends its key. */
  lemma SnocKeys<V>(d: Entries<V>, e: (string, V))
    ensures Keys(d + [e]) == Keys(d) + [e.0]
  {
    assert (d + [e])[..|d|] == d;
  }

  /** `d.pop(k, None)`: the entry for `k` goes, every other entry keeps its order. */
  function Pop<V>(d: Entries<V>, k: string): (r: Entries<V>)
    requires UniqueKeys(d)
    ensures UniqueKeys(r)
    ensures !HasKey(r, k)
    ensures forall j :: j != k ==> Get(r, j) == Get(d, j)
    ensures !HasKey(d, k) ==> r == d
    ensures |r| == if HasKey(d, k) then |d| - 1 else |d|
    ensures Seqs.SubsequenceOf(r, d)
  {
    if d == [] then []
    else if d[|d| - 1].0 == k then
      FrontLacksLastKey(d);
      DropLastSubsequence(d);
      d[..|d| - 1]
    else
      var rest := Pop(d[..|d| - 1], k);
      PopBeforeLast(d, k, rest);
      SnocSameGets(d, k, rest);
      Seqs.SubsequenceSnoc(rest, d[..|d| - 1], d[|d| - 1]);
      FrontPlusLast(d);
      rest + [d[|d| - 1]]
  }

  /** Dropping the last entry keeps the order of the others. */
  lemma DropLastSubsequence<V>(d: Entries<V>)
    requires |d| > 0
    ensures Seqs.SubsequenceOf(d[..|d| - 1], d)
  {
    Seqs.SubsequenceRefl(d[..|d| - 1]);
  }

  /** Popping an earlier key changes the front and keeps the last entry. */
  lemma PopBeforeLast<V>(d: Entries<V>, k: string, rest: Entries<V>)
    requires UniqueKeys(d) && |d| > 0 && d[|d| - 1].0 != k
    requires UniqueKeys(rest) && !HasKey(rest, k)
    requires Get(rest, d[|d| - 1].0) == Get(d[..|d| - 1], d[|d| - 1].0)
    requires !HasKey(d[..|d| - 1], k) ==> rest == d[..|d| - 1]
    requires |rest| == if HasKey(d[..|d| - 1], k) then |d| - 2 else |d| - 1
    ensures UniqueKeys(rest + [d[|d| - 1]])
    ensures !HasKey(rest + [d[|d| - 1]], k)
    ensures !HasKey(d, k) ==> rest + [d[|d| - 1]] == d
    ensures |rest + [d[|d| - 1]]| == if HasKey(d, k) then |d| - 1 else |d|
  {
    var last := d[|d| - 1];
    FrontLacksLastKey(d);
    SnocUnique(rest, last);
    SnocGet(rest, last);
    HasKeyFront(d, k);
    FrontPlusLast(d);
  }

  /**
   * When `rest` agrees with the front of `d` on every key but `k`, so do
   * `rest` and `d` once the last entry of `d` is appended to `rest`.
   */
  lemma SnocSameGets<V>(d: Entries<V>, k: string, rest: Entries<V>)
    requires |d| > 0 && d[|d| - 1].0 != k
    requires forall j :: j != k ==> Get(rest, j) == Get(d[..|d| - 1], j)
    ensures forall j :: j != k ==> Get(rest + [d[|d| - 1]], j) == Get(d, j)
  {
    SnocGet(rest, d[|d| - 1]);
  }

  /** A key other than the last one is a key of `d` exactly when it is one of the front. */
  lemma HasKeyFront<V>(d: Entries<V>, k: string)
    requires |d| > 0 && d[|d| - 1].0 != k
    ensures HasKey(d, k) <==> HasKey(d[..|d| - 1], k)
  {
    if HasKey(d, k) {
      var i :| 0 <= i < |d| && d[i].0 == k;
      assert d[..|d| - 1][i].0 == k;
    }
  }

  lemma FrontPlusLast<V>(d: Entries<V>)
    requires |d| > 0
    ensures d[..|d| - 1] + [d[|d| - 1]] == d
  {
  }
}
