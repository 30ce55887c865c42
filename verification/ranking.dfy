/** Counting names and listing them largest count first, as the analytics
    screens do with `Object.entries(counts).sort((a, b) => b[1] - a[1])`. */
module Ranking {

  import Sorting
  import Tally

  function CountKey(e: (string, int)): Sorting.Key {
    Sorting.Num(e.1)
  }

  /** Each distinct name once with its number of occurrences, largest
      count first. */
  function Ranked(names: seq<string>): (r: seq<(string, int)>)
    ensures |r| == |Tally.CountBy(names)|
    ensures forall i, j :: 0 <= i < j < |r| ==> r[i].1 >= r[j].1
    ensures forall i, j :: 0 <= i < j < |r| ==> r[i].0 != r[j].0
    ensures forall i :: 0 <= i < |r| ==> r[i].0 in names && r[i].1 == Tally.Occurrences(names, r[i].0)
    ensures forall k :: k in names ==> exists i :: 0 <= i < |r| && r[i].0 == k
  {
    var counts := Tally.CountBy(names);
    var r := Sorting.SortBy(counts, CountKey, true);
    assert |r| == |multiset(r)| == |multiset(counts)| == |counts|;
    forall i, j | 0 <= i < j < |r| ensures r[i].1 >= r[j].1 {
      assert Sorting.InOrder(CountKey(r[i]), CountKey(r[j]), true);
    }
    forall i, j | 0 <= i < j < |r| ensures r[i].0 != r[j].0 {
      DistinctNames(counts, r, i, j);
    }
    forall i | 0 <= i < |r| ensures r[i].0 in names && r[i].1 == Tally.Occurrences(names, r[i].0) {
      EntryCounts(names, counts, r, i);
    }
    forall k | k in names ensures exists i :: 0 <= i < |r| && r[i].0 == k {
      var i := NameIsListed(names, counts, r, k);
    }
    r
  }

  lemma CountsMeaning(names: seq<string>, k: string)
    ensures Tally.Get(Tally.CountBy(names), k) == Tally.Occurrences(names, k)
    ensures Tally.Total(Tally.CountBy(names)) == |names|
    ensures k in Tally.Keys(Tally.CountBy(names)) <==> k in names
  {
    Tally.CountByMeaning(names, k);
    Tally.CountByKeys(names, k);
  }

  lemma EntryCounts(names: seq<string>, counts: seq<(string, int)>, sorted: seq<(string, int)>, i: nat)
    requires counts == Tally.CountBy(names)
    requires multiset(sorted) == multiset(counts) && i < |sorted|
    ensures sorted[i].0 in names && sorted[i].1 == Tally.Occurrences(names, sorted[i].0)
  {
    assert sorted[i] in multiset(counts);
    var j :| 0 <= j < |counts| && counts[j] == sorted[i];
    Tally.GetOfEntry(counts, j);
    CountsMeaning(names, sorted[i].0);
    assert Tally.Keys(counts)[j] == sorted[i].0;
  }

  lemma NameIsListed(names: seq<string>, counts: seq<(string, int)>, sorted: seq<(string, int)>, k: string) returns (i: nat)
    requires counts == Tally.CountBy(names)
    requires multiset(sorted) == multiset(counts) && k in names
    ensures i < |sorted| && sorted[i].0 == k
  {
    CountsMeaning(names, k);
    var j :| 0 <= j < |counts| && Tally.Keys(counts)[j] == k;
    assert counts[j] in multiset(sorted);
    i :| 0 <= i < |sorted| && sorted[i] == counts[j];
  }

  /** A reordering of a list with distinct names has distinct names. */
  lemma DistinctNames(counts: seq<(string, int)>, sorted: seq<(string, int)>, i: nat, j: nat)
    requires Tally.DistinctKeys(counts) && multiset(sorted) == multiset(counts)
    requires i < j < |sorted|
    ensures sorted[i].0 != sorted[j].0
  {
    if sorted[i].0 == sorted[j].0 {
      assert sorted[i] in multiset(counts) && sorted[j] in multiset(counts);
      var a :| 0 <= a < |counts| && counts[a] == sorted[i];
      var b :| 0 <= b < |counts| && counts[b] == sorted[j];
      if a == b {
        Sorting.MultisetCountTwo(sorted, i, j);
        Sorting.DistinctMultiset(counts, sorted[i]);
      }
      assert false;
    }
  }
}
