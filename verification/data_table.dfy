/** The generic listing table (`src/app/components/DataTable.tsx`): the
    lenient date reader, search over the configured fields, the
    month/year date filter, the column sort, the page of rows shown and the
    page controls. Calendar arithmetic and date printing are inputs. */
module DataTable {

  import opened Wrappers
  import Text
  import Sorting
  import Lists
  import Pagination

  /** A cell value as the table sees it. A date object carries its time in
      milliseconds, `None` for an invalid date. */
  datatype Cell = Missing | Null | Bool(b: bool) | Num(n: int) | Str(s: string) | DateValue(time: Option<int>)

  type Row = map<string, Cell>

  function CellOf(row: Row, key: string): Cell {
    if key in row then row[key] else Missing
  }

  datatype FilterMode = ThisMonth | ThisYear | PastYear | All

  /** The local-time calendar: `new Date(y, m, d).getTime()` (month from 0,
      out-of-range parts rolled over), the generic string reader (`None`
      when invalid), the local year and month (from 0) of a time, and how a
      date prints. */
  datatype Calendar = Calendar(
    localTime: (int, int, int) -> int,
    parse: string -> Option<int>,
    yearOf: int -> int,
    monthOf: int -> int,
    dateText: int -> string)

  predicate Falsy(c: Cell) {
    c.Missing? || c.Null? || c == Bool(false) || c == Num(0) || c == Str("")
  }

  predicate IsSeparator(c: char) {
    c == '/' || c == '-'
  }

  /** A text of the form `D[D]{/|-}M[M]{/|-}YYYY`, read as
      (day, month, year); the two separators may differ. */
  function DayFirst(s: string): (r: Option<(nat, nat, nat)>)
    ensures r.Some? ==> r.value.0 <= 99 && r.value.1 <= 99 && r.value.2 <= 9999
  {
    var k1 := Text.DigitRun(s);
    if k1 < 1 || k1 > 2 || k1 >= |s| || !IsSeparator(s[k1]) then None
    else
      var t := s[k1 + 1..];
      var k2 := Text.DigitRun(t);
      if k2 < 1 || k2 > 2 || k2 >= |t| || !IsSeparator(t[k2]) then None
      else
        var u := t[k2 + 1..];
        if |u| != 4 || Text.DigitRun(u) != 4 then None
        else
          DigitsBound(s[..k1]);
          DigitsBound(t[..k2]);
          DigitsBound(u);
          Some((Text.DigitsValue(s[..k1]), Text.DigitsValue(t[..k2]), Text.DigitsValue(u)))
  }

  /** `k` digits are worth less than 10^k. */
  lemma {:induction false} DigitsBound(s: string)
    requires forall i :: 0 <= i < |s| ==> Text.IsDigit(s[i])
    requires |s| <= 4
    ensures Text.DigitsValue(s) < Pow10(|s|)
  {
    if |s| > 0 {
      DigitsBound(s[..|s| - 1]);
    }
  }

  function Pow10(n: nat): nat {
    if n == 0 then 1 else 10 * Pow10(n - 1)
  }

  /** `parseDate`: `None` for falsy values, numbers, booleans and invalid
      dates; a day-first text is read as a local calendar date; any other
      text goes to the generic reader. */
  function ParseDate(c: Cell, cal: Calendar): (r: Option<int>)
    ensures Falsy(c) ==> r.None?
    ensures c.Num? || c.Bool? ==> r.None?
    ensures c.DateValue? ==> r == c.time
    ensures c.Str? && DayFirst(c.s).Some? ==>
      var (d, m, y) := DayFirst(c.s).value;
      r == Some(cal.localTime(y, m - 1, d))
    ensures c.Str? && c.s != "" && DayFirst(c.s).None? ==> r == cal.parse(c.s)
  {
    match c
    case Str(s) =>
      if s == "" then None
      else
        (match DayFirst(s)
         case Some((d, m, y)) => Some(cal.localTime(y, m - 1, d))
         case None => cal.parse(s))
    case DateValue(t) => t
    case _ => None
  }

  predicate AllDigits(s: string) {
    forall i :: 0 <= i < |s| ==> Text.IsDigit(s[i])
  }

  /** Two-digit day and month and a four-digit year, slash-separated, are
      read as their values. */
  lemma DayFirstOfDigits(dd: string, mm: string, yy: string)
    requires |dd| == 2 && |mm| == 2 && |yy| == 4
    requires AllDigits(dd) && AllDigits(mm) && AllDigits(yy)
    ensures DayFirst(dd + "/" + mm + "/" + yy)
      == Some((Text.DigitsValue(dd), Text.DigitsValue(mm), Text.DigitsValue(yy)))
  {
    var s := dd + "/" + mm + "/" + yy;
    assert s == dd + ['/'] + (mm + "/" + yy);
    DigitRunStops(dd, '/', mm + "/" + yy);
    assert Text.DigitRun(s) == 2;
    var t := s[3..];
    assert t == mm + ['/'] + yy;
    DigitRunStops(mm, '/', yy);
    assert Text.DigitRun(t) == 2;
    assert t[3..] == yy;
    DigitRunAll(yy);
    assert s[..2] == dd && t[..2] == mm;
  }

  /** A date written `DD/MM/YYYY` is read back as that day. */
  lemma DayFirstReadsFormatted(d: nat, m: nat, y: nat)
    requires d <= 99 && m <= 99 && 1000 <= y <= 9999
    ensures DayFirst(Text.PadStart2(Text.NatToString(d)) + "/" + Text.PadStart2(Text.NatToString(m)) + "/" + Text.NatToString(y))
      == Some((d, m, y))
  {
    var dd, mm, yy := FormattedParts(d, m, y);
    DayFirstOfDigits(dd, mm, yy);
  }

  /** The padded day and month and the year of a formatted date, as digit
      texts with their values. */
  lemma FormattedParts(d: nat, m: nat, y: nat) returns (dd: string, mm: string, yy: string)
    requires d <= 99 && m <= 99 && 1000 <= y <= 9999
    ensures dd == Text.PadStart2(Text.NatToString(d)) && mm == Text.PadStart2(Text.NatToString(m))
    ensures yy == Text.NatToString(y)
    ensures |dd| == 2 && |mm| == 2 && |yy| == 4
    ensures AllDigits(dd) && AllDigits(mm) && AllDigits(yy)
    ensures Text.DigitsValue(dd) == d && Text.DigitsValue(mm) == m && Text.DigitsValue(yy) == y
  {
    dd, mm, yy := Text.PadStart2(Text.NatToString(d)), Text.PadStart2(Text.NatToString(m)), Text.NatToString(y);
    TwoDigits(d);
    TwoDigits(m);
    FourDigits(y);
    Text.NatToStringRoundTrip(y);
    assert AllDigits(dd) by {
      forall i | 0 <= i < |dd| ensures Text.IsDigit(dd[i]) {
        assert i == 0 || i == 1;
      }
    }
    assert AllDigits(mm) by {
      forall i | 0 <= i < |mm| ensures Text.IsDigit(mm[i]) {
        assert i == 0 || i == 1;
      }
    }
  }

  lemma TwoDigits(n: nat)
    requires n <= 99
    ensures var s := Text.PadStart2(Text.NatToString(n));
      |s| == 2 && Text.IsDigit(s[0]) && Text.IsDigit(s[1]) && Text.DigitsValue(s) == n
  {
    Text.NatToStringRoundTrip(n);
    var t := Text.NatToString(n);
    if n >= 10 {
      assert Text.NatToString(n / 10) == [Text.DigitChar(n / 10)];
    } else {
      var s := "0" + t;
      assert s[..1] == "0";
      assert s[..0] == [];
    }
  }

  lemma FourDigits(n: nat)
    requires 1000 <= n <= 9999
    ensures |Text.NatToString(n)| == 4
  {
    var d1 := n / 10;
    var d2 := d1 / 10;
    var d3 := d2 / 10;
    assert 100 <= d1 <= 999;
    assert 10 <= d2 <= 99;
    assert 1 <= d3 <= 9;
    assert |Text.NatToString(d2)| == 2 by {
      assert Text.NatToString(d2) == Text.NatToString(d3) + [Text.DigitChar(d2 % 10)];
    }
    assert |Text.NatToString(d1)| == 3 by {
      assert Text.NatToString(d1) == Text.NatToString(d2) + [Text.DigitChar(d1 % 10)];
    }
    assert Text.NatToString(n) == Text.NatToString(d1) + [Text.DigitChar(n % 10)];
  }


  lemma {:induction false} DigitRunStops(a: string, c: char, b: string)
    requires AllDigits(a)
    requires !Text.IsDigit(c)
    ensures Text.DigitRun(a + [c] + b) == |a|
  {
    if a != [] {
      assert (a + [c] + b)[1..] == a[1..] + [c] + b;
      DigitRunStops(a[1..], c, b);
    }
  }

  lemma {:induction false} DigitRunAll(a: string)
    requires AllDigits(a)
    ensures Text.DigitRun(a) == |a|
  {
    if a != [] {
      DigitRunAll(a[1..]);
    }
  }

  /** `String(value)`. */
  function Display(c: Cell, cal: Calendar): string {
    match c
    case Missing => "undefined"
    case Null => "null"
    case Bool(b) => if b then "true" else "false"
    case Num(n) => Text.IntToString(n)
    case Str(s) => s
    case DateValue(t) => if t.Some? then cal.dateText(t.value) else "Invalid Date"
  }

  /** The table's configuration. */
  datatype Config = Config(
    columns: seq<string>,
    searchFields: Option<seq<string>>,
    enableDateFilter: bool,
    dateField: Option<string>,
    itemsPerPage: nat)

  /** The user's choices. */
  datatype View = View(search: string, filterMode: FilterMode, sortKey: Option<string>, descending: bool, page: int)

  const InitialView := View("", All, None, false, 1)

  /** The fields searched: the configured ones, else every column. */
  function SearchKeys(cfg: Config): seq<string> {
    cfg.searchFields.GetOr(cfg.columns)
  }

  /** Some searched field contains the search text, ignoring case. */
  predicate MatchesSearch(row: Row, keys: seq<string>, search: string, cal: Calendar) {
    exists i :: 0 <= i < |keys| && Text.ContainsIgnoringCase(Display(CellOf(row, keys[i]), cal), search)
  }

  /** A row without a readable date is kept only under "all"; otherwise the
      mode compares its local month and year with today's. */
  predicate KeepByDate(mode: FilterMode, t: Option<int>, now: int, cal: Calendar) {
    if t.None? then mode == All
    else
      match mode
      case ThisMonth => cal.monthOf(t.value) == cal.monthOf(now) && cal.yearOf(t.value) == cal.yearOf(now)
      case ThisYear => cal.yearOf(t.value) == cal.yearOf(now)
      case PastYear => cal.yearOf(t.value) == cal.yearOf(now) - 1
      case All => true
  }

  predicate DateFilterOn(cfg: Config) {
    cfg.enableDateFilter && cfg.dateField.Some? && cfg.dateField.value != ""
  }

  predicate SortOn(view: View) {
    view.sortKey.Some? && view.sortKey.value != ""
  }

  /** Whether a row survives the search and the date filter. */
  predicate Selected(row: Row, cfg: Config, view: View, now: int, cal: Calendar) {
    && (view.search == "" || MatchesSearch(row, SearchKeys(cfg), view.search, cal))
    && (!DateFilterOn(cfg) || KeepByDate(view.filterMode, ParseDate(CellOf(row, cfg.dateField.value), cal), now, cal))
  }

  /** The sort key of a row: the date field sorts by time (0 when
      unreadable), a number by its value, anything else by its lower-cased
      text (empty for missing values). */
  function SortKeyOf(row: Row, key: string, cfg: Config, cal: Calendar): Sorting.Key {
    var c := CellOf(row, key);
    if cfg.dateField == Some(key) then Sorting.Num(ParseDate(c, cal).GetOr(0))
    else if c.Num? then Sorting.Num(c.n)
    else Sorting.Text(Text.ToLower(if c.Missing? || c.Null? then "" else Display(c, cal)))
  }

  /** The rows that survive the search and then the date filter, in
      their original order. */
  function SelectedRows(rows: seq<Row>, cfg: Config, view: View, now: int, cal: Calendar): (r: seq<Row>)
    ensures forall x :: x in r <==> x in rows && Selected(x, cfg, view, now, cal)
    ensures Lists.IsSubsequence(r, rows)
    ensures view.search == "" && !DateFilterOn(cfg) ==> r == rows
  {
    var searched := Searched(rows, cfg, view, cal);
    if DateFilterOn(cfg) then
      var dated := Lists.Filter(searched, (x: Row) => KeepByDate(view.filterMode, ParseDate(CellOf(x, cfg.dateField.value), cal), now, cal));
      SubsequenceTransitive(dated, searched, rows);
      dated
    else searched
  }

  /** The rows matching the search text (all of them when it is empty). */
  function Searched(rows: seq<Row>, cfg: Config, view: View, cal: Calendar): (r: seq<Row>)
    ensures forall x :: x in r <==> x in rows && (view.search == "" || MatchesSearch(x, SearchKeys(cfg), view.search, cal))
    ensures Lists.IsSubsequence(r, rows)
    ensures view.search == "" ==> r == rows
  {
    if view.search != "" then Lists.Filter(rows, (x: Row) => MatchesSearch(x, SearchKeys(cfg), view.search, cal))
    else Lists.SubsequenceOfSelf(rows); rows
  }

  /** `filteredData`: search, then the date filter, then the sort. */
  function FilteredRows(rows: seq<Row>, cfg: Config, view: View, now: int, cal: Calendar): (r: seq<Row>)
    ensures forall x :: x in r <==> x in rows && Selected(x, cfg, view, now, cal)
    ensures !SortOn(view) ==> Lists.IsSubsequence(r, rows)
    ensures SortOn(view) ==> Sorting.SortedBy(r, (x: Row) => SortKeyOf(x, view.sortKey.value, cfg, cal), view.descending)
    ensures view.search == "" && !DateFilterOn(cfg) && !SortOn(view) ==> r == rows
    ensures multiset(r) == multiset(SelectedRows(rows, cfg, view, now, cal))
    ensures !SortOn(view) ==> r == SelectedRows(rows, cfg, view, now, cal)
  {
    var kept := SelectedRows(rows, cfg, view, now, cal);
    if !SortOn(view) then kept
    else
      var sorted := Sorting.SortBy(kept, (x: Row) => SortKeyOf(x, view.sortKey.value, cfg, cal), view.descending);
      assert forall x :: x in sorted <==> x in multiset(kept);
      sorted
  }

  /** The column sort is stable: rows with equal sort keys keep the order
      in which the search and the date filter left them. */
  lemma SortKeepsTies(rows: seq<Row>, cfg: Config, view: View, now: int, cal: Calendar, k: Sorting.Key)
    requires SortOn(view)
    ensures var key := (x: Row) => SortKeyOf(x, view.sortKey.value, cfg, cal);
      Lists.Filter(FilteredRows(rows, cfg, view, now, cal), Sorting.KeyIs(key, k))
        == Lists.Filter(SelectedRows(rows, cfg, view, now, cal), Sorting.KeyIs(key, k))
  {
    var key := (x: Row) => SortKeyOf(x, view.sortKey.value, cfg, cal);
    Sorting.SortStable(SelectedRows(rows, cfg, view, now, cal), key, view.descending, k);
  }

  lemma {:induction false} SubsequenceTransitive<T>(a: seq<T>, b: seq<T>, c: seq<T>)
    requires Lists.IsSubsequence(a, b) && Lists.IsSubsequence(b, c)
    ensures Lists.IsSubsequence(a, c)
    decreases |c|
  {
    if a != [] && b != [] && c != [] {
      if b[0] == c[0] && Lists.IsSubsequence(b[1..], c[1..]) {
        if a[0] == b[0] && Lists.IsSubsequence(a[1..], b[1..]) {
          SubsequenceTransitive(a[1..], b[1..], c[1..]);
        } else {
          SubsequenceTransitive(a, b[1..], c[1..]);
        }
      } else {
        SubsequenceTransitive(a, b, c[1..]);
      }
    }
  }

  /** The rows on the current page. */
  function PaginatedRows(rows: seq<Row>, cfg: Config, view: View, now: int, cal: Calendar): (r: seq<Row>)
    requires cfg.itemsPerPage >= 1
    ensures |r| <= cfg.itemsPerPage
    ensures var all := FilteredRows(rows, cfg, view, now, cal);
      && (1 <= view.page <= Pagination.TotalPages(|all|, cfg.itemsPerPage) ==> |r| >= 1)
      && (forall x :: x in r ==> x in rows && Selected(x, cfg, view, now, cal))
    ensures r == Pagination.PageItems(FilteredRows(rows, cfg, view, now, cal), view.page, cfg.itemsPerPage)
  {
    var all := FilteredRows(rows, cfg, view, now, cal);
    Pagination.PageMembers(all, view.page, cfg.itemsPerPage);
    Pagination.PageItems(all, view.page, cfg.itemsPerPage)
  }

  /** `handleSort`: the active column flips direction, another column
      becomes active ascending. */
  function HandleSort(view: View, key: string): (r: View)
    ensures r.sortKey == Some(key)
    ensures view.sortKey == Some(key) ==> r.descending == !view.descending
    ensures view.sortKey != Some(key) ==> !r.descending
    ensures r.search == view.search && r.filterMode == view.filterMode && r.page == view.page
  {
    if view.sortKey == Some(key) then view.(descending := !view.descending)
    else view.(sortKey := Some(key), descending := false)
  }

  /** Two clicks on the active column restore its direction. */
  lemma SortTwiceRestores(view: View, key: string)
    requires view.sortKey == Some(key)
    ensures HandleSort(HandleSort(view, key), key) == view
  {
  }

  /** A new search text returns to page 1. */
  function SetSearch(view: View, search: string): (r: View)
    ensures r.search == search
    ensures search != view.search ==> r.page == 1
    ensures search == view.search ==> r == view
  {
    if search != view.search then view.(search := search, page := 1) else view
  }

  /** A new filter mode returns to page 1. */
  function SetFilterMode(view: View, mode: FilterMode): (r: View)
    ensures r.filterMode == mode
    ensures mode != view.filterMode ==> r.page == 1
    ensures mode == view.filterMode ==> r == view
  {
    if mode != view.filterMode then view.(filterMode := mode, page := 1) else view
  }

  /** The previous-page button never goes below page 1. */
  function Previous(view: View): (r: View)
    ensures r.page >= 1 && r.page <= (if view.page > 1 then view.page else 1)
    ensures r == view.(page := Pagination.PrevPage(view.page))
  {
    view.(page := Pagination.PrevPage(view.page))
  }

  /** The next-page button never goes past the last page. */
  function Next(view: View, totalPages: nat): (r: View)
    ensures r.page <= totalPages
    ensures r == view.(page := Pagination.NextPage(view.page, totalPages))
  {
    view.(page := Pagination.NextPage(view.page, totalPages))
  }
}
