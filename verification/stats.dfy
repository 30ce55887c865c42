/** Summary statistics the analytics screens compute over whole numbers:
    ascending sort, mean, median and Math.round percentages. */
module Stats {

  import Lists
  import Sorting

  function IntKey(x: int): Sorting.Key {
    Sorting.Num(x)
  }

  /** `sort((a, b) => a - b)`. */
  function SortAscending(xs: seq<int>): (r: seq<int>)
    ensures forall i, j :: 0 <= i < j < |r| ==> r[i] <= r[j]
    ensures multiset(r) == multiset(xs)
    ensures |r| == |xs|
  {
    var r := Sorting.SortBy(xs, IntKey, false);
    assert |r| == |multiset(r)| == |multiset(xs)| == |xs|;
    forall i, j | 0 <= i < j < |r| ensures r[i] <= r[j] {
      assert Sorting.InOrder(IntKey(r[i]), IntKey(r[j]), false);
    }
    r
  }

  /** Reordering a list does not change how many entries pass a test. */
  lemma {:induction false} CountPermutation<T(!new)>(xs: seq<T>, ys: seq<T>, p: T -> bool)
    requires multiset(xs) == multiset(ys)
    ensures Lists.Count(xs, p) == Lists.Count(ys, p)
    decreases |xs|
  {
    if xs == [] {
      assert |ys| == |multiset(ys)| == 0;
    } else {
      var x := xs[0];
      assert x in multiset(ys);
      var j :| 0 <= j < |ys| && ys[j] == x;
      var rest := ys[..j] + ys[j + 1..];
      MultisetRemove(ys, j);
      assert xs == [x] + xs[1..];
      assert multiset(xs[1..]) == multiset(xs) - multiset{x};
      CountPermutation(xs[1..], rest, p);
      CountRemove(ys, j, p);
    }
  }

  lemma {:induction false} MultisetRemove<T>(ys: seq<T>, j: nat)
    requires j < |ys|
    ensures multiset(ys[..j] + ys[j + 1..]) == multiset(ys) - multiset{ys[j]}
  {
    assert ys == ys[..j] + [ys[j]] + ys[j + 1..];
    assert multiset(ys) == multiset(ys[..j]) + multiset([ys[j]]) + multiset(ys[j + 1..]);
  }

  lemma {:induction false} CountRemove<T(!new)>(ys: seq<T>, j: nat, p: T -> bool)
    requires j < |ys|
    ensures Lists.Count(ys, p) == Lists.Count(ys[..j] + ys[j + 1..], p) + (if p(ys[j]) then 1 else 0)
  {
    assert ys == ys[..j] + ([ys[j]] + ys[j + 1..]);
    Lists.CountAppend(ys[..j], [ys[j]] + ys[j + 1..], p);
    Lists.CountAppend([ys[j]], ys[j + 1..], p);
    Lists.CountAppend(ys[..j], ys[j + 1..], p);
  }

  /** The first `k` entries all pass: at least `k` do. */
  lemma {:induction false} CountPrefix<T(!new)>(xs: seq<T>, k: nat, p: T -> bool)
    requires k <= |xs| && forall i :: 0 <= i < k ==> p(xs[i])
    ensures Lists.Count(xs, p) >= k
  {
    assert xs == xs[..k] + xs[k..];
    Lists.CountAppend(xs[..k], xs[k..], p);
    assert Lists.Filter(xs[..k], p) == xs[..k];
  }

  /** The entries from `k` on all pass: at least `|xs| - k` do. */
  lemma {:induction false} CountSuffix<T(!new)>(xs: seq<T>, k: nat, p: T -> bool)
    requires k <= |xs| && forall i :: k <= i < |xs| ==> p(xs[i])
    ensures Lists.Count(xs, p) >= |xs| - k
  {
    assert xs == xs[..k] + xs[k..];
    Lists.CountAppend(xs[..k], xs[k..], p);
    assert Lists.Filter(xs[k..], p) == xs[k..];
  }

  function NotAbove(m: real): int -> bool {
    (x: int) => x as real <= m
  }

  function NotBelow(m: real): int -> bool {
    (x: int) => x as real >= m
  }

  /** How many entries are at most `m`. */
  function AtMost(xs: seq<int>, m: real): nat {
    Lists.Count(xs, NotAbove(m))
  }

  /** How many entries are at least `m`. */
  function AtLeast(xs: seq<int>, m: real): nat {
    Lists.Count(xs, NotBelow(m))
  }

  /** The median: the middle entry of the sorted list, or the mean of the
      two middle entries for an even length; 0 for no entries. At least
      half the entries lie on each side of it. */
  function Median(xs: seq<int>): (m: real)
    ensures xs == [] ==> m == 0.0
    ensures xs != [] ==> 2 * AtMost(xs, m) >= |xs| && 2 * AtLeast(xs, m) >= |xs|
    ensures xs != [] ==> m == Middle(SortAscending(xs))
  {
    if xs == [] then 0.0
    else
      var s := SortAscending(xs);
      var m := Middle(s);
      MedianSplits(xs, s, m);
      m
  }

  /** The middle of a sorted list: its middle entry for an odd length, the
      mean of the two middle entries for an even one. */
  function Middle(s: seq<int>): real
    requires |s| >= 1
  {
    var h := |s| / 2;
    if |s| % 2 == 0 then (s[h - 1] + s[h]) as real / 2.0 else s[h] as real
  }

  ghost predicate Ascending(s: seq<int>) {
    forall i, j :: 0 <= i < j < |s| ==> s[i] <= s[j]
  }

  /** The median does not depend on how the list was sorted: it is the
      middle of every ascending arrangement of the entries. */
  lemma MedianOfSorted(xs: seq<int>, s: seq<int>)
    requires xs != [] && Ascending(s) && multiset(s) == multiset(xs)
    ensures |s| == |xs| && Median(xs) == Middle(s)
  {
    assert |s| == |multiset(s)| == |multiset(xs)| == |xs|;
    SortedUnique(s, SortAscending(xs));
  }

  /** Two ascending lists with the same entries are the same list. */
  lemma {:induction false} SortedUnique(s: seq<int>, t: seq<int>)
    requires Ascending(s) && Ascending(t) && multiset(s) == multiset(t)
    ensures s == t
    decreases |s|
  {
    assert |s| == |multiset(s)| == |multiset(t)| == |t|;
    if s != [] {
      assert s[0] in s && t[0] in t;
      HeadIsLeast(s, t[0]);
      HeadIsLeast(t, s[0]);
      var h := s[0];
      assert t[0] == h;
      TailOf(s);
      TailOf(t);
      assert multiset(s[1..]) == multiset(t[1..]);
      SortedUnique(s[1..], t[1..]);
      assert s == [h] + s[1..];
      assert t == [h] + t[1..];
    }
  }

  lemma HeadIsLeast(s: seq<int>, x: int)
    requires Ascending(s) && x in multiset(s)
    ensures s[0] <= x
  {
    var j :| 0 <= j < |s| && s[j] == x;
    assert j == 0 || s[0] <= s[j];
  }

  /** Dropping the head of an ascending list. */
  lemma TailOf(s: seq<int>)
    requires s != [] && Ascending(s)
    ensures Ascending(s[1..])
    ensures multiset(s[1..]) == multiset(s) - multiset{s[0]}
  {
    assert s == [s[0]] + s[1..];
    forall i, j | 0 <= i < j < |s| - 1 ensures s[1..][i] <= s[1..][j] {
      assert s[1..][i] == s[i + 1] && s[1..][j] == s[j + 1];
    }
  }


  lemma {:induction false} MedianSplits(xs: seq<int>, s: seq<int>, m: real)
    requires |s| >= 1 && multiset(s) == multiset(xs)
    requires forall i, j :: 0 <= i < j < |s| ==> s[i] <= s[j]
    requires m == if |s| % 2 == 0 then (s[|s| / 2 - 1] + s[|s| / 2]) as real / 2.0 else s[|s| / 2] as real
    ensures 2 * AtMost(xs, m) >= |xs| && 2 * AtLeast(xs, m) >= |xs|
  {
    assert |s| == |xs| by {
      assert |s| == |multiset(s)| == |multiset(xs)| == |xs|;
    }
    var h := |s| / 2;
    var lo := if |s| % 2 == 0 then h else h + 1;
    assert 2 * lo >= |s|;
    LowerPart(xs, s, m, lo);
    UpperPart(xs, s, m, h);
  }

  lemma {:induction false} LowerPart(xs: seq<int>, s: seq<int>, m: real, lo: nat)
    requires 1 <= lo <= |s| && multiset(s) == multiset(xs)
    requires forall i, j :: 0 <= i < j < |s| ==> s[i] <= s[j]
    requires (s[lo - 1] as real) <= m
    ensures AtMost(xs, m) >= lo
  {
    BelowMiddle(s, m, lo);
    CountPermutation(xs, s, NotAbove(m));
    CountPrefix(s, lo, NotAbove(m));
  }

  lemma {:induction false} UpperPart(xs: seq<int>, s: seq<int>, m: real, h: nat)
    requires h < |s| && multiset(s) == multiset(xs)
    requires forall i, j :: 0 <= i < j < |s| ==> s[i] <= s[j]
    requires (s[h] as real) >= m
    ensures AtLeast(xs, m) >= |s| - h
  {
    AboveMiddle(s, m, h);
    CountPermutation(xs, s, NotBelow(m));
    CountSuffix(s, h, NotBelow(m));
  }

  lemma {:induction false} BelowMiddle(s: seq<int>, m: real, lo: nat)
    requires 1 <= lo <= |s| && forall i, j :: 0 <= i < j < |s| ==> s[i] <= s[j]
    requires (s[lo - 1] as real) <= m
    ensures forall i :: 0 <= i < lo ==> s[i] as real <= m
  {
    forall i | 0 <= i < lo ensures s[i] as real <= m {
      assert s[i] <= s[lo - 1];
    }
  }

  lemma {:induction false} AboveMiddle(s: seq<int>, m: real, h: nat)
    requires h < |s| && forall i, j :: 0 <= i < j < |s| ==> s[i] <= s[j]
    requires (s[h] as real) >= m
    ensures forall i :: h <= i < |s| ==> s[i] as real >= m
  {
    forall i | h <= i < |s| ensures s[i] as real >= m {
      assert s[h] <= s[i];
    }
  }

  function Id(x: int): int {
    x
  }

  /** The sum of the entries. */
  function Sum(xs: seq<int>): int {
    Lists.SumOf(xs, Id)
  }

  /** `m` is the mean of `xs`, or 0 when there are no entries. */
  predicate IsMeanOf(m: real, xs: seq<int>) {
    if xs == [] then m == 0.0 else m * (|xs| as real) == Sum(xs) as real
  }

  /** The mean, 0 for no entries. */
  function Mean(xs: seq<int>): (m: real)
    ensures IsMeanOf(m, xs)
  {
    if xs == [] then 0.0 else Sum(xs) as real / (|xs| as real)
  }

  /** `r` is `part` as a percentage of `whole`, or 0 for an empty whole. */
  predicate IsRateOf(r: real, part: nat, whole: nat) {
    if whole == 0 then r == 0.0 else r * (whole as real) == 100.0 * (part as real)
  }

  /** `part / whole * 100` before rounding, 0 for an empty whole. */
  function Rate(part: nat, whole: nat): (r: real)
    ensures IsRateOf(r, part, whole)
    ensures part <= whole ==> 0.0 <= r <= 100.0
    ensures whole > 0 ==> (r == 100.0 <==> part == whole) && (r == 0.0 <==> part == 0)
  {
    if whole == 0 then 0.0 else 100.0 * (part as real) / (whole as real)
  }

  /** `Math.round(part / whole * 100)`, rounding halves up; 0 for an empty
      whole. The result is the whole number within half a unit of the exact
      percentage: `r - 1/2 <= 100 * part / whole < r + 1/2`. */
  function Percent(part: int, whole: nat): (r: int)
    ensures whole == 0 ==> r == 0
    ensures whole > 0 ==> (2 * r - 1) * whole <= 200 * part < (2 * r + 1) * whole
    ensures whole > 0 && 0 <= part <= whole ==> 0 <= r <= 100
  {
    if whole == 0 then 0
    else
      var r := (200 * part + whole) / (2 * whole);
      RoundBounds(part, whole, r);
      r
  }

  lemma RoundBounds(part: int, whole: nat, r: int)
    requires whole > 0 && r == (200 * part + whole) / (2 * whole)
    ensures (2 * r - 1) * whole <= 200 * part < (2 * r + 1) * whole
    ensures 0 <= part <= whole ==> 0 <= r <= 100
  {
    RoundNear(part, whole, r);
    if 0 <= part <= whole {
      RoundRange(part, whole, r);
    }
  }

  lemma RoundNear(part: int, whole: nat, r: int)
    requires whole > 0 && r == (200 * part + whole) / (2 * whole)
    ensures (2 * r - 1) * whole <= 200 * part < (2 * r + 1) * whole
  {
    var q := 200 * part + whole;
    var d := 2 * whole;
    var m := q % d;
    assert q == d * r + m && 0 <= m < d;
    var t := r * whole;
    assert d * r == 2 * t;
    assert (2 * r - 1) * whole == 2 * t - whole;
    assert (2 * r + 1) * whole == 2 * t + whole;
  }

  lemma RoundRange(part: int, whole: nat, r: int)
    requires whole > 0 && 0 <= part <= whole
    requires (2 * r - 1) * whole <= 200 * part < (2 * r + 1) * whole
    ensures 0 <= r <= 100
  {
    if r > 100 {
      ScaleAbove(2 * r - 1, 200, whole);
    }
    if r < 0 {
      ScaleAbove(0, 2 * r + 1, whole);
    }
  }

  lemma ScaleAbove(a: int, b: int, w: nat)
    requires a > b && w > 0
    ensures a * w > b * w
  {
    assert a * w - b * w == (a - b) * w;
  }

  /** `Math.max(...xs)`, 0 for no entries. */
  function Max(xs: seq<int>): (m: int)
    ensures xs == [] ==> m == 0
    ensures xs != [] ==> m in xs && forall i :: 0 <= i < |xs| ==> xs[i] <= m
  {
    if xs == [] then 0
    else if |xs| == 1 then xs[0]
    else
      var rest := Max(xs[1..]);
      assert forall i :: 1 <= i < |xs| ==> xs[i] == xs[1..][i - 1];
      if xs[0] >= rest then xs[0] else rest
  }

  /** `Math.min(...xs)`, 0 for no entries. */
  function Min(xs: seq<int>): (m: int)
    ensures xs == [] ==> m == 0
    ensures xs != [] ==> m in xs && forall i :: 0 <= i < |xs| ==> m <= xs[i]
  {
    if xs == [] then 0
    else if |xs| == 1 then xs[0]
    else
      var rest := Min(xs[1..]);
      assert forall i :: 1 <= i < |xs| ==> xs[i] == xs[1..][i - 1];
      if xs[0] <= rest then xs[0] else rest
  }

  /** A weaker test passes at least as often. */
  lemma {:induction false} CountMonotone<T(!new)>(xs: seq<T>, p: T -> bool, q: T -> bool)
    requires forall x :: p(x) ==> q(x)
    ensures Lists.Count(xs, p) <= Lists.Count(xs, q)
  {
    if xs != [] {
      CountMonotone(xs[1..], p, q);
    }
  }

  /** The sum lies between `|xs|` times the least and the greatest entry. */
  lemma {:induction false} SumBetween(xs: seq<int>, lo: int, hi: int)
    requires forall i :: 0 <= i < |xs| ==> lo <= xs[i] <= hi
    ensures |xs| * lo <= Sum(xs) <= |xs| * hi
  {
    if xs != [] {
      SumBetween(xs[1..], lo, hi);
    }
  }

  /** The mean lies between the least and the greatest entry. */
  lemma MeanBetween(xs: seq<int>)
    requires xs != []
    ensures Min(xs) as real <= Mean(xs) <= Max(xs) as real
  {
    MeanWithin(Mean(xs), xs, Min(xs), Max(xs));
  }

  lemma MeanWithin(m: real, xs: seq<int>, lo: int, hi: int)
    requires xs != [] && IsMeanOf(m, xs)
    requires forall i :: 0 <= i < |xs| ==> lo <= xs[i] <= hi
    ensures lo as real <= m <= hi as real
  {
    SumBetween(xs, lo, hi);
    ScaleBack(m, Sum(xs), |xs|, lo, hi);
  }

  lemma ScaleBack(m: real, s: int, n: int, lo: int, hi: int)
    requires n > 0 && n * lo <= s <= n * hi && m * (n as real) == s as real
    ensures lo as real <= m <= hi as real
  {
    var nr := n as real;
    assert (n * lo) as real == nr * (lo as real);
    assert (n * hi) as real == nr * (hi as real);
    assert m < lo as real ==> m * nr < (lo as real) * nr;
    assert m > hi as real ==> m * nr > (hi as real) * nr;
  }
}
