/** Ordering of list entries as the application's `Array.prototype.sort`
    calls produce it: a stable sort by a key that is either a number or a
    text, ascending or descending. Texts compare character by character. */
module Sorting {

  import Lists

  /** A sort key: numbers compare numerically, texts lexicographically.
      A number sorts before any text, which keeps the order total. */
  datatype Key = Num(n: int) | Text(s: string)

  /** Lexicographic order on texts, as JavaScript's default comparison. */
  predicate LexLe(a: string, b: string)
    decreases |a|
  {
    if a == [] then true
    else if b == [] then false
    else if a[0] < b[0] then true
    else if a[0] > b[0] then false
    else LexLe(a[1..], b[1..])
  }

  predicate Le(a: Key, b: Key) {
    match (a, b)
    case (Num(x), Num(y)) => x <= y
    case (Num(_), Text(_)) => true
    case (Text(_), Num(_)) => false
    case (Text(x), Text(y)) => LexLe(x, y)
  }

  /** `a` may stand before `b` in a list sorted in the given direction. */
  predicate InOrder(a: Key, b: Key, descending: bool) {
    if descending then Le(b, a) else Le(a, b)
  }

  lemma {:induction false} LexTotal(a: string, b: string)
    ensures LexLe(a, b) || LexLe(b, a)
    decreases |a|
  {
    if a != [] && b != [] && a[0] == b[0] {
      LexTotal(a[1..], b[1..]);
    }
  }

  lemma {:induction false} LexTransitive(a: string, b: string, c: string)
    requires LexLe(a, b) && LexLe(b, c)
    ensures LexLe(a, c)
    decreases |a|
  {
    if a != [] && b != [] && c != [] && a[0] == b[0] && b[0] == c[0] {
      LexTransitive(a[1..], b[1..], c[1..]);
    }
  }

  lemma {:induction false} LexAntisymmetric(a: string, b: string)
    requires LexLe(a, b) && LexLe(b, a)
    ensures a == b
    decreases |a|
  {
    if a != [] && b != [] {
      LexAntisymmetric(a[1..], b[1..]);
      assert a == [a[0]] + a[1..];
      assert b == [b[0]] + b[1..];
    }
  }

  lemma InOrderTotal(a: Key, b: Key, descending: bool)
    ensures InOrder(a, b, descending) || InOrder(b, a, descending)
  {
    if a.Text? && b.Text? {
      LexTotal(a.s, b.s);
    }
  }

  lemma InOrderTransitive(a: Key, b: Key, c: Key, descending: bool)
    requires InOrder(a, b, descending) && InOrder(b, c, descending)
    ensures InOrder(a, c, descending)
  {
    if a.Text? && b.Text? && c.Text? {
      if descending {
        LexTransitive(c.s, b.s, a.s);
      } else {
        LexTransitive(a.s, b.s, c.s);
      }
    }
  }

  /** Every entry may stand before every later one. */
  ghost predicate SortedBy<T>(xs: seq<T>, key: T -> Key, descending: bool) {
    forall i, j :: 0 <= i < j < |xs| ==> InOrder(key(xs[i]), key(xs[j]), descending)
  }

  /** Insert `x` before the first entry it may precede, so that `x` stays
      ahead of entries with an equal key. */
  function Insert<T>(x: T, xs: seq<T>, key: T -> Key, descending: bool): (r: seq<T>)
    requires SortedBy(xs, key, descending)
    ensures SortedBy(r, key, descending)
    ensures multiset(r) == multiset(xs) + multiset{x}
  {
    if xs == [] then [x]
    else if InOrder(key(x), key(xs[0]), descending) then
      forall k | 0 <= k < |xs| ensures InOrder(key(x), key(xs[k]), descending) {
        if k > 0 {
          InOrderTransitive(key(x), key(xs[0]), key(xs[k]), descending);
        }
      }
      PrependSorted(x, xs, key, descending);
      [x] + xs
    else
      InOrderTotal(key(x), key(xs[0]), descending);
      var rest := Insert(x, xs[1..], key, descending);
      assert xs == [xs[0]] + xs[1..];
      HeadPrecedesInsert(x, xs, rest, key, descending);
      PrependSorted(xs[0], rest, key, descending);
      [xs[0]] + rest
  }

  /** An entry that may precede every entry of a sorted list may lead it. */
  lemma PrependSorted<T>(x: T, xs: seq<T>, key: T -> Key, descending: bool)
    requires SortedBy(xs, key, descending)
    requires forall k :: 0 <= k < |xs| ==> InOrder(key(x), key(xs[k]), descending)
    ensures SortedBy([x] + xs, key, descending)
  {
    var r := [x] + xs;
    forall i, j | 0 <= i < j < |r| ensures InOrder(key(r[i]), key(r[j]), descending) {
      if i > 0 {
        assert r[i] == xs[i - 1] && r[j] == xs[j - 1];
      } else {
        assert r[j] == xs[j - 1];
      }
    }
  }

  /** The head of a sorted list may precede everything in the insertion
      into its tail of an entry it may precede. */
  lemma HeadPrecedesInsert<T>(x: T, xs: seq<T>, rest: seq<T>, key: T -> Key, descending: bool)
    requires xs != [] && SortedBy(xs, key, descending)
    requires InOrder(key(xs[0]), key(x), descending)
    requires multiset(rest) == multiset(xs[1..]) + multiset{x}
    ensures forall k :: 0 <= k < |rest| ==> InOrder(key(xs[0]), key(rest[k]), descending)
  {
    forall k | 0 <= k < |rest|
      ensures InOrder(key(xs[0]), key(rest[k]), descending)
    {
      assert rest[k] in multiset(rest);
      if rest[k] != x {
        assert rest[k] in multiset(xs[1..]);
        var m :| 0 <= m < |xs[1..]| && xs[1..][m] == rest[k];
        assert xs[m + 1] == rest[k];
      }
    }
  }

  /** Stable insertion sort in the given direction. */
  function SortBy<T>(xs: seq<T>, key: T -> Key, descending: bool): (r: seq<T>)
    ensures SortedBy(r, key, descending)
    ensures multiset(r) == multiset(xs)
    ensures |r| == |xs|
  {
    if xs == [] then []
    else
      assert xs == [xs[0]] + xs[1..];
      Insert(xs[0], SortBy(xs[1..], key, descending), key, descending)
  }

  /** The entries whose key is `k`. */
  function KeyIs<T>(key: T -> Key, k: Key): T -> bool {
    (x: T) => key(x) == k
  }

  lemma {:induction false} LexReflexive(a: string)
    ensures LexLe(a, a)
    decreases |a|
  {
    if a != [] {
      LexReflexive(a[1..]);
    }
  }

  lemma InOrderReflexive(a: Key, descending: bool)
    ensures InOrder(a, a, descending)
  {
    if a.Text? {
      LexReflexive(a.s);
    }
  }

  /** Inserting `x` leaves the entries of every other key as they were and
      puts `x` ahead of the entries that share its key. */
  lemma {:induction false} InsertFilter<T(!new)>(x: T, xs: seq<T>, key: T -> Key, descending: bool, k: Key)
    requires SortedBy(xs, key, descending)
    ensures Lists.Filter(Insert(x, xs, key, descending), KeyIs(key, k))
         == (if key(x) == k then [x] else []) + Lists.Filter(xs, KeyIs(key, k))
    decreases |xs|
  {
    var p := KeyIs(key, k);
    if xs == [] {
    } else if InOrder(key(x), key(xs[0]), descending) {
      Lists.FilterCons(x, xs, p);
    } else {
      var rest := Insert(x, xs[1..], key, descending);
      assert Insert(x, xs, key, descending) == [xs[0]] + rest;
      InsertFilter(x, xs[1..], key, descending, k);
      if key(x) == k {
        InOrderReflexive(key(x), descending);
      }
      Lists.FilterCons(xs[0], rest, p);
      assert xs == [xs[0]] + xs[1..];
      Lists.FilterCons(xs[0], xs[1..], p);
      SwapEmpty(if p(xs[0]) then [xs[0]] else [], if p(x) then [x] else [], Lists.Filter(xs[1..], p));
    }
  }

  /** Two parts of which one is empty may trade places. */
  lemma SwapEmpty<T>(h: seq<T>, x: seq<T>, f: seq<T>)
    requires h == [] || x == []
    ensures h + (x + f) == x + (h + f)
  {
  }

  /** Stability: the entries sharing any one key keep their original order. */
  lemma {:induction false} SortStable<T(!new)>(xs: seq<T>, key: T -> Key, descending: bool, k: Key)
    ensures Lists.Filter(SortBy(xs, key, descending), KeyIs(key, k)) == Lists.Filter(xs, KeyIs(key, k))
  {
    if xs != [] {
      SortStable(xs[1..], key, descending, k);
      InsertFilter(xs[0], SortBy(xs[1..], key, descending), key, descending, k);
    }
  }

  /** Texts sorted ascending, as `Array.prototype.sort()` without a comparator. */
  function SortTexts(xs: seq<string>): (r: seq<string>)
    ensures forall i, j :: 0 <= i < j < |r| ==> LexLe(r[i], r[j])
    ensures multiset(r) == multiset(xs)
  {
    var r := SortBy(xs, (s: string) => Text(s), false);
    assert forall i, j :: 0 <= i < j < |r| ==> InOrder(Text(r[i]), Text(r[j]), false);
    r
  }

  /** Without repeated texts the ascending order is strict. */
  lemma SortTextsStrict(xs: seq<string>)
    requires forall i, j :: 0 <= i < j < |xs| ==> xs[i] != xs[j]
    ensures var r := SortTexts(xs);
      forall i, j :: 0 <= i < j < |r| ==> LexLe(r[i], r[j]) && r[i] != r[j]
  {
    var r := SortTexts(xs);
    forall i, j | 0 <= i < j < |r| ensures r[i] != r[j] {
      DistinctMultiset(xs, r[i]);
      if r[i] == r[j] {
        MultisetCountTwo(r, i, j);
      }
    }
  }

  /** `[...xs].sort(byKeyDescending).slice(0, n)`: the `n` entries with the
      largest keys, largest first. */
  function Top<T>(xs: seq<T>, key: T -> Key, n: nat): (r: seq<T>)
    ensures |r| == if n < |xs| then n else |xs|
    ensures forall x :: x in r ==> x in xs
    ensures forall i, j :: 0 <= i < j < |r| ==> Le(key(r[j]), key(r[i]))
    ensures forall x, k :: x in xs && x !in r && 0 <= k < |r| ==> Le(key(x), key(r[k]))
    ensures multiset(r) <= multiset(xs)
    ensures r == SortBy(xs, key, true)[..|r|]
  {
    var s := SortBy(xs, key, true);
    TopOfSorted(xs, s, key, n);
    var r := if n < |s| then s[..n] else s;
    PrefixIncluded(s, |r|);
    assert r == s[..|r|];
    r
  }

  /** A prefix takes no more of any element than the whole sequence holds. */
  lemma PrefixIncluded<T>(s: seq<T>, k: nat)
    requires k <= |s|
    ensures multiset(s[..k]) <= multiset(s)
  {
    assert s == s[..k] + s[k..];
  }

  lemma TopOfSorted<T>(xs: seq<T>, s: seq<T>, key: T -> Key, n: nat)
    requires SortedBy(s, key, true) && multiset(s) == multiset(xs)
    ensures var r := if n < |s| then s[..n] else s;
      && |r| == (if n < |xs| then n else |xs|)
      && (forall x :: x in r ==> x in xs)
      && (forall i, j :: 0 <= i < j < |r| ==> Le(key(r[j]), key(r[i])))
      && (forall x, k :: x in xs && x !in r && 0 <= k < |r| ==> Le(key(x), key(r[k])))
  {
    var r := if n < |s| then s[..n] else s;
    assert |s| == |multiset(s)| == |multiset(xs)| == |xs|;
    forall x | x in r ensures x in xs {
      assert x in multiset(s);
    }
    forall i, j | 0 <= i < j < |r| ensures Le(key(r[j]), key(r[i])) {
      assert InOrder(key(s[i]), key(s[j]), true);
    }
    forall x, k | x in xs && x !in r && 0 <= k < |r|
      ensures Le(key(x), key(r[k]))
    {
      assert x in multiset(xs);
      var j :| 0 <= j < |s| && s[j] == x;
      assert j >= |r| by {
        assert forall t :: 0 <= t < |r| ==> r[t] in r;
      }
      assert InOrder(key(s[k]), key(s[j]), true);
    }
  }

  lemma {:induction false} DistinctMultiset<T>(xs: seq<T>, x: T)
    requires forall i, j :: 0 <= i < j < |xs| ==> xs[i] != xs[j]
    ensures multiset(xs)[x] <= 1
  {
    if xs != [] {
      assert xs == [xs[0]] + xs[1..];
      DistinctMultiset(xs[1..], x);
      if xs[0] == x {
        assert x !in xs[1..];
      }
    }
  }

  lemma {:induction false} MultisetCountTwo<T>(xs: seq<T>, i: int, j: int)
    requires 0 <= i < j < |xs| && xs[i] == xs[j]
    ensures multiset(xs)[xs[i]] >= 2
  {
    assert xs == xs[..i] + [xs[i]] + xs[i + 1..j] + [xs[j]] + xs[j + 1..];
  }
}
