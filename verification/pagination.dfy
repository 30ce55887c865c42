/** Client-side pagination shared by the lab-work list and the generic data
    table: page count, the rows of one page, the five-page window of page
    buttons and the page-change buttons. */
module Pagination {

  /** `Math.ceil(n / k)` for a positive page size. */
  function TotalPages(n: nat, k: nat): (r: nat)
    requires k >= 1
    ensures (r - 1) * k < n <= r * k || (n == 0 && r == 0)
  {
    (n + k - 1) / k
  }

  /** Where `Array.prototype.slice` starts or stops for a possibly negative
      index: negative indices count from the end, and both are clamped. */
  function SliceIndex(i: int, len: nat): (r: nat)
    ensures r <= len
  {
    if i < 0 then (if len + i < 0 then 0 else len + i) else if i > len then len else i
  }

  /** `xs.slice(start, end)`. */
  function Slice<T>(xs: seq<T>, start: int, end: int): (r: seq<T>)
    ensures var s := SliceIndex(start, |xs|);
      var e := SliceIndex(end, |xs|);
      r == if s <= e then xs[s..e] else []
  {
    var s := SliceIndex(start, |xs|);
    var e := SliceIndex(end, |xs|);
    if s <= e then xs[s..e] else []
  }

  /** `xs.slice(start, start + k)`: at most `k` consecutive rows. */
  function Window<T>(xs: seq<T>, start: int, k: nat): (r: seq<T>)
    ensures |r| <= k
    ensures start >= 0 ==> forall i :: 0 <= i < |r| ==> start + i < |xs| && r[i] == xs[start + i]
    ensures 0 <= start < |xs| && k >= 1 ==> |r| >= 1
    ensures start >= |xs| ==> r == []
  {
    Slice(xs, start, start + k)
  }

  /** The rows shown on page `page`: `slice((page - 1) * k, (page - 1) * k + k)`. */
  function PageItems<T>(xs: seq<T>, page: int, k: nat): (r: seq<T>)
    requires k >= 1
    ensures |r| <= k
    ensures 1 <= page <= TotalPages(|xs|, k) ==> |r| >= 1
    ensures page > TotalPages(|xs|, k) ==> r == []
  {
    PageStart(|xs|, k, page);
    Window(xs, PageOffset(page, k), k)
  }

  /** Page `page` shows consecutive rows starting at its offset. */
  lemma PageRows<T>(xs: seq<T>, page: int, k: nat)
    requires k >= 1 && page >= 1
    ensures var r := PageItems(xs, page, k);
      forall i :: 0 <= i < |r| ==> 0 <= PageOffset(page, k) + i < |xs| && r[i] == xs[PageOffset(page, k) + i]
  {
    var o := PageOffset(page, k);
    PageStart(|xs|, k, page);
    assert o >= 0;
    assert PageItems(xs, page, k) == Window(xs, o, k);
  }

  /** A page holds only rows of the list it was cut from. */
  lemma PageMembers<T>(xs: seq<T>, page: int, k: nat)
    requires k >= 1
    ensures forall x :: x in PageItems(xs, page, k) ==> x in xs
  {
    var start := PageOffset(page, k);
    var lo := SliceIndex(start, |xs|);
    var hi := SliceIndex(start + k, |xs|);
    assert PageItems(xs, page, k) == Slice(xs, start, start + k);
    if lo <= hi {
      forall x | x in xs[lo..hi] ensures x in xs {
        var i :| 0 <= i < hi - lo && xs[lo..hi][i] == x;
        assert xs[lo + i] == x;
      }
    }
  }

  /** Index of the first row of page `page`. */
  function PageOffset(page: int, k: nat): int {
    (page - 1) * k
  }

  /** A page `p >= 1` starts inside the rows exactly when it exists. */
  lemma PageStart(n: nat, k: nat, page: int)
    requires k >= 1
    ensures page >= 1 ==> PageOffset(page, k) >= 0
    ensures page >= 1 ==> (PageOffset(page, k) < n <==> page <= TotalPages(n, k))
  {
    if page >= 1 {
      MulMonotone(0, page - 1, k);
    }
    var t := TotalPages(n, k);
    if 1 <= page <= t {
      MulMonotone(page - 1, t - 1, k);
    } else if page > t && page >= 1 {
      MulMonotone(t, page - 1, k);
    }
  }

  lemma MulMonotone(a: int, b: int, k: nat)
    requires a <= b
    ensures a * k <= b * k
  {
    assert b * k - a * k == (b - a) * k;
  }

  /** Pages 1..m laid end to end. */
  function PagesUpTo<T>(xs: seq<T>, k: nat, m: nat): seq<T>
    requires k >= 1
  {
    if m == 0 then [] else PagesUpTo(xs, k, m - 1) + PageItems(xs, m, k)
  }

  /** The pages, read in order, are exactly the rows: nothing is dropped or
      shown twice. */
  lemma {:induction false} PagesPartitionRows<T>(xs: seq<T>, k: nat)
    requires k >= 1
    ensures PagesUpTo(xs, k, TotalPages(|xs|, k)) == xs
  {
    var n := TotalPages(|xs|, k);
    PagesUpToPrefix(xs, k, n);
  }

  lemma {:induction false} PagesUpToPrefix<T>(xs: seq<T>, k: nat, m: nat)
    requires k >= 1
    ensures PagesUpTo(xs, k, m) == xs[..if m * k <= |xs| then m * k else |xs|]
  {
    if m > 0 {
      PagesUpToPrefix(xs, k, m - 1);
      var a := (m - 1) * k;
      MulMonotone(0, m - 1, k);
      PagesStep(xs, k, m, a);
      assert m * k == a + k;
    }
  }

  /** Adding page `m`, whose offset is `a`, extends the prefix by one page. */
  lemma PagesStep<T>(xs: seq<T>, k: nat, m: nat, a: nat)
    requires k >= 1 && m >= 1 && a == (m - 1) * k
    requires PagesUpTo(xs, k, m - 1) == xs[..if a <= |xs| then a else |xs|]
    ensures PagesUpTo(xs, k, m) == xs[..if a + k <= |xs| then a + k else |xs|]
  {
    var lo := if a <= |xs| then a else |xs|;
    var hi := if a + k <= |xs| then a + k else |xs|;
    PageItemsAt(xs, m, k, a);
    assert PagesUpTo(xs, k, m) == xs[..lo] + xs[lo..hi];
    assert xs[..lo] + xs[lo..hi] == xs[..hi];
  }

  /** The rows of page `m`, whose offset is `a`, as a slice of the list. */
  lemma PageItemsAt<T>(xs: seq<T>, m: int, k: nat, a: nat)
    requires k >= 1 && m >= 1 && a == (m - 1) * k
    ensures var lo := if a <= |xs| then a else |xs|;
      var hi := if a + k <= |xs| then a + k else |xs|;
      PageItems(xs, m, k) == xs[lo..hi]
  {
    assert PageOffset(m, k) == a;
    assert PageItems(xs, m, k) == Slice(xs, a, a + k);
  }

  /** Row `i` is shown on page `i / k + 1`, at position `i % k`. */
  lemma RowPage<T>(xs: seq<T>, k: nat, i: nat)
    requires k >= 1 && i < |xs|
    ensures var p := i / k + 1;
      1 <= p <= TotalPages(|xs|, k) && i % k < |PageItems(xs, p, k)| && PageItems(xs, p, k)[i % k] == xs[i]
  {
    var p := i / k + 1;
    assert PageOffset(p, k) + i % k == i;
    PageStart(|xs|, k, p);
    PageRows(xs, p, k);
  }

  /** The page buttons: at most five consecutive pages centred on the
      current one where possible (`getPageNumbers`). */
  function PageWindow(current: int, total: nat): (r: seq<int>)
    ensures |r| <= 5
    ensures forall i :: 0 <= i < |r| ==> 1 <= r[i] <= total
    ensures forall i :: 0 < i < |r| ==> r[i] == r[i - 1] + 1
    ensures total == 0 <==> r == []
    ensures 1 <= current <= total ==> current in r
    ensures total >= 5 ==> |r| == 5
  {
    var start := if current - 2 > 1 then current - 2 else 1;
    var end := start + 4;
    var (s, e) := if end > total then (if total - 4 > 1 then total - 4 else 1, total) else (start, end);
    var r := Range(s, e);
    assert 1 <= current <= total ==> r[current - s] == current;
    r
  }

  /** `[lo, lo + 1, ..., hi]`, empty when `hi < lo`. */
  function Range(lo: int, hi: int): (r: seq<int>)
    ensures |r| == if hi < lo then 0 else hi - lo + 1
    ensures forall i :: 0 <= i < |r| ==> r[i] == lo + i
    decreases hi - lo
  {
    if hi < lo then [] else [lo] + Range(lo + 1, hi)
  }

  /** `goToPage`: only pages that exist are accepted. */
  function GoToPage(current: int, page: int, total: nat): (r: int)
    ensures r == page <==> (1 <= page <= total || page == current)
    ensures r != page ==> r == current
  {
    if 1 <= page <= total then page else current
  }

  /** The "previous" button: `Math.max(p - 1, 1)`. */
  function PrevPage(current: int): (r: int)
    ensures r >= 1
    ensures current > 1 ==> r == current - 1
    ensures current <= 1 ==> r == 1
  {
    if current - 1 > 1 then current - 1 else 1
  }

  /** The "next" button: `Math.min(p + 1, totalPages)`; with no pages at
      all this yields page 0. */
  function NextPage(current: int, total: nat): (r: int)
    ensures r <= total
    ensures current < total ==> r == current + 1
    ensures current >= total ==> r == total
  {
    if current + 1 < total then current + 1 else total
  }
}
