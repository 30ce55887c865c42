/** Accumulation into a JavaScript object used as a dictionary:
    `acc[k] = (acc[k] || 0) + v`. The object is an association list whose
    keys keep the order of their first appearance, as `Object.entries`
    returns non-numeric keys. */
module Tally {

  type Tally<K> = seq<(K, int)>

  /** Sum of the amounts. */
  function Total<K>(t: seq<(K, int)>): int {
    if t == [] then 0 else Total(t[..|t| - 1]) + t[|t| - 1].1
  }

  /** Sum of the amounts filed under `k`: the reference meaning of a tally. */
  function SumFor<K(==,!new)>(items: seq<(K, int)>, k: K): int {
    if items == [] then 0
    else SumFor(items[..|items| - 1], k) + (if items[|items| - 1].0 == k then items[|items| - 1].1 else 0)
  }

  function Keys<K>(t: seq<(K, int)>): (r: seq<K>)
    ensures |r| == |t|
    ensures forall i :: 0 <= i < |t| ==> r[i] == t[i].0
  {
    if t == [] then [] else Keys(t[..|t| - 1]) + [t[|t| - 1].0]
  }

  predicate DistinctKeys<K(==,!new)>(t: seq<(K, int)>) {
    forall i, j :: 0 <= i < j < |t| ==> t[i].0 != t[j].0
  }

  /** Index of key `k`, or `|t|` when absent. */
  function IndexOf<K(==,!new)>(t: seq<(K, int)>, k: K): (i: nat)
    ensures i <= |t|
    ensures i < |t| ==> t[i].0 == k
    ensures forall j :: 0 <= j < i ==> t[j].0 != k
  {
    if t == [] then 0
    else if t[0].0 == k then 0
    else 1 + IndexOf(t[1..], k)
  }

  /** The amount filed under `k`, `0` when absent (`acc[k] || 0`). */
  function Get<K(==,!new)>(t: seq<(K, int)>, k: K): int {
    var i := IndexOf(t, k);
    if i < |t| then t[i].1 else 0
  }

  /** `acc[k] = (acc[k] || 0) + v`: update in place, or append a new key. */
  function Add<K(==,!new)>(t: seq<(K, int)>, k: K, v: int): (r: seq<(K, int)>)
    requires DistinctKeys(t)
    ensures DistinctKeys(r)
    ensures Get(r, k) == Get(t, k) + v
    ensures forall k' :: k' != k ==> Get(r, k') == Get(t, k')
    ensures Total(r) == Total(t) + v
    ensures k in Keys(t) ==> Keys(r) == Keys(t)
    ensures k !in Keys(t) ==> Keys(r) == Keys(t) + [k]
  {
    var i := IndexOf(t, k);
    if i < |t| then
      UpdateFacts(t, i, k, v);
      t[i := (k, t[i].1 + v)]
    else
      AppendFacts(t, k, v);
      t + [(k, v)]
  }

  lemma UpdateFacts<K(!new)>(t: seq<(K, int)>, i: nat, k: K, v: int)
    requires DistinctKeys(t) && i < |t| && t[i].0 == k
    ensures var r := t[i := (k, t[i].1 + v)];
      && DistinctKeys(r)
      && Get(r, k) == Get(t, k) + v
      && (forall k' :: k' != k ==> Get(r, k') == Get(t, k'))
      && Total(r) == Total(t) + v
      && k in Keys(t) && Keys(r) == Keys(t)
  {
    var p := t[i].1 + v;
    var r := t[i := (k, p)];
    UpdateDistinct(t, i, k, p);
    UpdateGet(t, i, k, p);
    assert Get(r, k) == Get(t, k) + v;
    assert r == t[i := (t[i].0, p)];
    TotalUpdate(t, i, p);
    UpdateKeys(t, i, k, p);
  }

  lemma UpdateDistinct<K(!new)>(t: seq<(K, int)>, i: nat, k: K, p: int)
    requires DistinctKeys(t) && i < |t| && t[i].0 == k
    ensures DistinctKeys(t[i := (k, p)])
  {
    var r := t[i := (k, p)];
    forall a, b | 0 <= a < b < |r| ensures r[a].0 != r[b].0 {
      assert r[a].0 == t[a].0 && r[b].0 == t[b].0;
    }
  }

  lemma UpdateGet<K(!new)>(t: seq<(K, int)>, i: nat, k: K, p: int)
    requires DistinctKeys(t) && i < |t| && t[i].0 == k
    ensures Get(t[i := (k, p)], k) == p && Get(t, k) == t[i].1
    ensures forall k' :: k' != k ==> Get(t[i := (k, p)], k') == Get(t, k')
  {
    var r := t[i := (k, p)];
    forall k' ensures IndexOf(r, k') == IndexOf(t, k') {
      IndexOfUpdate(t, i, k, p, k');
    }
    assert IndexOf(t, k) == i;
  }

  lemma UpdateKeys<K(!new)>(t: seq<(K, int)>, i: nat, k: K, p: int)
    requires i < |t| && t[i].0 == k
    ensures k in Keys(t) && Keys(t[i := (k, p)]) == Keys(t)
  {
    var r := t[i := (k, p)];
    assert Keys(t)[i] == k;
    assert forall j :: 0 <= j < |r| ==> Keys(r)[j] == r[j].0 == t[j].0 == Keys(t)[j];
  }

  lemma AppendFacts<K(!new)>(t: seq<(K, int)>, k: K, v: int)
    requires DistinctKeys(t) && IndexOf(t, k) == |t|
    ensures var r := t + [(k, v)];
      && DistinctKeys(r)
      && Get(r, k) == Get(t, k) + v
      && (forall k' :: k' != k ==> Get(r, k') == Get(t, k'))
      && Total(r) == Total(t) + v
      && k !in Keys(t) && Keys(r) == Keys(t) + [k]
  {
    AppendKeys(t, k, v);
    AppendAmounts(t, k, v);
  }

  lemma AppendKeys<K(!new)>(t: seq<(K, int)>, k: K, v: int)
    requires DistinctKeys(t) && IndexOf(t, k) == |t|
    ensures DistinctKeys(t + [(k, v)])
    ensures k !in Keys(t) && Keys(t + [(k, v)]) == Keys(t) + [k]
  {
    AppendDistinct(t, k, v);
    KeysAppend(t, k, v);
  }

  lemma AppendDistinct<K(!new)>(t: seq<(K, int)>, k: K, v: int)
    requires DistinctKeys(t) && IndexOf(t, k) == |t|
    ensures DistinctKeys(t + [(k, v)])
  {
    var r := t + [(k, v)];
    forall i, j | 0 <= i < j < |r| ensures r[i].0 != r[j].0 {
      assert r[i] == t[i];
      if j < |t| {
        assert r[j] == t[j];
      }
    }
  }

  lemma KeysAppend<K(!new)>(t: seq<(K, int)>, k: K, v: int)
    requires IndexOf(t, k) == |t|
    ensures k !in Keys(t) && Keys(t + [(k, v)]) == Keys(t) + [k]
  {
    var r := t + [(k, v)];
    forall j | 0 <= j < |t| ensures Keys(t)[j] != k {
      assert t[j].0 != k;
    }
    assert r[..|r| - 1] == t;
  }

  lemma AppendAmounts<K(!new)>(t: seq<(K, int)>, k: K, v: int)
    requires IndexOf(t, k) == |t|
    ensures var r := t + [(k, v)];
      && Get(r, k) == Get(t, k) + v
      && (forall k' :: k' != k ==> Get(r, k') == Get(t, k'))
      && Total(r) == Total(t) + v
  {
    var r := t + [(k, v)];
    assert r[..|r| - 1] == t;
    IndexOfAppend(t, k, v, k);
    forall k' | k' != k ensures Get(r, k') == Get(t, k') {
      IndexOfAppend(t, k, v, k');
    }
  }

  lemma {:induction false} IndexOfUpdate<K(!new)>(t: seq<(K, int)>, i: nat, k: K, v: int, k': K)
    requires DistinctKeys(t) && i < |t| && t[i].0 == k
    ensures IndexOf(t[i := (k, v)], k') == IndexOf(t, k')
  {
    if t[0].0 != k' && i > 0 {
      assert t[i := (k, v)][1..] == t[1..][i - 1 := (k, v)];
      IndexOfUpdate(t[1..], i - 1, k, v, k');
    }
  }

  lemma {:induction false} IndexOfAppend<K(!new)>(t: seq<(K, int)>, k: K, v: int, k': K)
    requires forall j :: 0 <= j < |t| ==> t[j].0 != k
    ensures IndexOf(t + [(k, v)], k') ==
      if IndexOf(t, k') < |t| then IndexOf(t, k') else if k' == k then |t| else |t| + 1
  {
    if t != [] {
      assert (t + [(k, v)])[1..] == t[1..] + [(k, v)];
      IndexOfAppend(t[1..], k, v, k');
    }
  }

  lemma {:induction false} TotalUpdate<K>(t: seq<(K, int)>, i: nat, p: int)
    requires i < |t|
    ensures Total(t[i := (t[i].0, p)]) == Total(t) - t[i].1 + p
    decreases |t|
  {
    var u := t[i := (t[i].0, p)];
    if i < |t| - 1 {
      assert u[..|u| - 1] == t[..|t| - 1][i := (t[i].0, p)];
      TotalUpdate(t[..|t| - 1], i, p);
    } else {
      assert u[..|u| - 1] == t[..|t| - 1];
    }
  }

  /** Accumulate every `(key, amount)` item, left to right. */
  function TallyOf<K(==,!new)>(items: seq<(K, int)>): (r: seq<(K, int)>)
    ensures DistinctKeys(r)
  {
    if items == [] then []
    else
      var last := items[|items| - 1];
      Add(TallyOf(items[..|items| - 1]), last.0, last.1)
  }

  /** One more item is one more `Add`. */
  lemma TallyOfAppend<K(!new)>(items: seq<(K, int)>, x: (K, int))
    ensures TallyOf(items + [x]) == Add(TallyOf(items), x.0, x.1)
  {
    assert (items + [x])[..|items|] == items;
  }

  /** The amount under each key is the sum of the items filed under it. */
  lemma {:induction false} TallyOfGet<K(!new)>(items: seq<(K, int)>, k: K)
    ensures Get(TallyOf(items), k) == SumFor(items, k)
  {
    if items != [] {
      TallyOfGet(items[..|items| - 1], k);
    }
  }

  /** Nothing is lost or invented: the tally's total is the items' total. */
  lemma {:induction false} TallyOfTotal<K(!new)>(items: seq<(K, int)>)
    ensures Total(TallyOf(items)) == Total(items)
  {
    if items != [] {
      TallyOfTotal(items[..|items| - 1]);
    }
  }

  /** A key is present exactly when some item carries it, and keys keep
      the order in which they first appear. */
  lemma {:induction false} TallyOfKeys<K(!new)>(items: seq<(K, int)>, k: K)
    ensures k in Keys(TallyOf(items)) <==> k in Keys(items)
  {
    if items != [] {
      var front := items[..|items| - 1];
      TallyOfKeys(front, k);
      assert Keys(items) == Keys(front) + [items[|items| - 1].0];
    }
  }

  /** Reading an entry's own key gives its amount. */
  lemma GetOfEntry<K(!new)>(t: seq<(K, int)>, i: nat)
    requires DistinctKeys(t) && i < |t|
    ensures Get(t, t[i].0) == t[i].1
  {
    var j := IndexOf(t, t[i].0);
    assert j <= i;
  }

  /** The keys of a count are exactly the counted keys. */
  lemma CountByKeys<K(!new)>(keys: seq<K>, k: K)
    ensures k in Keys(CountBy(keys)) <==> k in keys
  {
    TallyOfKeys(Ones(keys), k);
    assert Keys(Ones(keys)) == keys;
  }

  /** A count of items by key: every item contributes one. */
  function CountBy<K(==,!new)>(keys: seq<K>): (r: seq<(K, int)>)
    ensures DistinctKeys(r)
  {
    TallyOf(Ones(keys))
  }

  function Ones<K>(keys: seq<K>): (r: seq<(K, int)>)
    ensures |r| == |keys|
    ensures forall i :: 0 <= i < |keys| ==> r[i] == (keys[i], 1)
  {
    if keys == [] then [] else Ones(keys[..|keys| - 1]) + [(keys[|keys| - 1], 1)]
  }

  /** Occurrences of `k` in `keys`. */
  function Occurrences<K(==,!new)>(keys: seq<K>, k: K): nat {
    if keys == [] then 0
    else Occurrences(keys[..|keys| - 1], k) + (if keys[|keys| - 1] == k then 1 else 0)
  }

  /** Counting occurrences from the front. */
  lemma {:induction false} OccurrencesPrepend<K(!new)>(a: K, keys: seq<K>, k: K)
    ensures Occurrences([a] + keys, k) == (if a == k then 1 else 0) + Occurrences(keys, k)
    decreases |keys|
  {
    var ys := [a] + keys;
    if keys == [] {
      assert ys[..0] == [];
    } else {
      var front := keys[..|keys| - 1];
      assert ys[..|ys| - 1] == [a] + front;
      OccurrencesPrepend(a, front, k);
    }
  }

  /** A key occurs exactly when it is one of the keys. */
  lemma {:induction false} OccurrencesPositive<K(!new)>(keys: seq<K>, k: K)
    ensures Occurrences(keys, k) > 0 <==> k in keys
    decreases |keys|
  {
    if keys != [] {
      var front := keys[..|keys| - 1];
      OccurrencesPositive(front, k);
      assert keys == front + [keys[|keys| - 1]];
    }
  }

  /** Each key's count is its number of occurrences, and counts add up to
      the number of items. */
  lemma {:induction false} CountByMeaning<K(!new)>(keys: seq<K>, k: K)
    ensures Get(CountBy(keys), k) == Occurrences(keys, k)
    ensures Total(CountBy(keys)) == |keys|
  {
    TallyOfGet(Ones(keys), k);
    TallyOfTotal(Ones(keys));
    OnesSums(keys, k);
  }

  lemma {:induction false} OnesSums<K(!new)>(keys: seq<K>, k: K)
    ensures SumFor(Ones(keys), k) == Occurrences(keys, k)
    ensures Total(Ones(keys)) == |keys|
  {
    if keys != [] {
      var front := keys[..|keys| - 1];
      assert Ones(keys)[..|keys| - 1] == Ones(front);
      OnesSums(front, k);
    }
  }
  /** The amounts under `k` of two runs of items add up. */
  lemma {:induction false} SumForAppend<K(!new)>(a: seq<(K, int)>, b: seq<(K, int)>, k: K)
    ensures SumFor(a + b, k) == SumFor(a, k) + SumFor(b, k)
    decreases |b|
  {
    if b == [] {
      assert a + b == a;
    } else {
      var front := b[..|b| - 1];
      assert (a + b)[..|a + b| - 1] == a + front;
      SumForAppend(a, front, k);
    }
  }
}
