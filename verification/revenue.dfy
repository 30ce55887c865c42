/** The revenue dashboard (`src/app/dashboard/pages/Doctor/revenue/page.tsx`):
    the totals, counts and rates over all bills, revenue by payment mode,
    by month and by patient, the bill list with its search and filters,
    and the CSV export. Amounts are whole rupees. */
module Revenue {

  import opened Wrappers
  import Text
  import Lists
  import Tally
  import Sorting
  import Ranking
  import Pagination
  import Patients

  /** A bill as the revenue page reads it; `date` is a timestamp. */
  datatype Billing = Billing(
    invoiceId: Option<string>,
    patientId: string,
    date: int,
    totalAmount: int,
    amountReceived: int,
    amountDue: int,
    discount: Option<int>,
    modeOfPayment: string,
    status: string)

  /** The growth periods: the last month up to now, and the month before
      it. `currentStart` is a month before `now`, `previousStart` two. */
  datatype Periods = Periods(now: int, currentStart: int, previousStart: int)

  function Amount(b: Billing): int { b.totalAmount }
  function Received(b: Billing): int { b.amountReceived }
  function Due(b: Billing): int { b.amountDue }

  /** `billing.discount || 0`. */
  function Discount(b: Billing): int { b.discount.GetOr(0) }

  predicate IsPaid(b: Billing) { b.status == "Paid" }
  predicate IsPending(b: Billing) { b.status == "Pending" }

  /** The bill's amount when it falls in the current period, else 0. */
  function CurrentAmount(p: Periods): Billing -> int {
    (b: Billing) => if p.currentStart <= b.date <= p.now then b.totalAmount else 0
  }

  /** The bill's amount when it falls in the previous period, else 0. */
  function PreviousAmount(p: Periods): Billing -> int {
    (b: Billing) => if p.previousStart <= b.date < p.currentStart then b.totalAmount else 0
  }

  /** `(mode, amount)` for each bill, in order. */
  function ModeItems(bs: seq<Billing>): (r: seq<(string, int)>)
    ensures |r| == |bs|
  {
    if bs == [] then []
    else ModeItems(bs[..|bs| - 1]) + [(bs[|bs| - 1].modeOfPayment, bs[|bs| - 1].totalAmount)]
  }

  /** `(month, amount)` for each bill, in order; `monthOf` formats a
      timestamp as `yyyy-MM` in local time. */
  function MonthItems(bs: seq<Billing>, monthOf: int -> string): (r: seq<(string, int)>)
    ensures |r| == |bs|
  {
    if bs == [] then []
    else MonthItems(bs[..|bs| - 1], monthOf) + [(monthOf(bs[|bs| - 1].date), bs[|bs| - 1].totalAmount)]
  }

  /** `(patient name, amount)` for each bill whose patient is known, in
      order; bills of unknown patients are skipped. */
  function PatientItems(bs: seq<Billing>, patients: seq<Patients.Patient>): (r: seq<(string, int)>)
    ensures |r| <= |bs|
  {
    if bs == [] then []
    else
      var last := bs[|bs| - 1];
      PatientItems(bs[..|bs| - 1], patients) +
        match Patients.FindById(patients, last.patientId)
        case Some(p) => [(p.fullName, last.totalAmount)]
        case None => []
  }

  /** `r` is `x` as a percentage of `whole`, or 0 when `whole` is not
      positive. */
  predicate IsPercentOf(r: real, x: int, whole: int) {
    && (whole > 0 ==> r * (whole as real) == 100.0 * (x as real))
    && (whole <= 0 ==> r == 0.0)
  }

  /** `r` is the mean of `count` values adding up to `total`, or 0 without
      values. */
  predicate IsAverageOf(a: real, total: int, count: nat) {
    && (count > 0 ==> a * (count as real) == total as real)
    && (count == 0 ==> a == 0.0)
  }

  /** `x / whole * 100` when `whole` is positive, else 0. */
  function Percentage(x: int, whole: int): (r: real)
    ensures IsPercentOf(r, x, whole)
  {
    if whole > 0 then 100.0 * (x as real) / (whole as real) else 0.0
  }

  /** `count ? total / count : 0`. */
  function Average(total: int, count: nat): (a: real)
    ensures IsAverageOf(a, total, count)
  {
    if count > 0 then (total as real) / (count as real) else 0.0
  }

  /** Growth is positive exactly when the current period earned more than
      a previous period that earned something. */
  lemma GrowthSign(current: int, previous: int)
    ensures previous > 0 ==> (Percentage(current - previous, previous) > 0.0 <==> current > previous)
    ensures previous > 0 ==> (Percentage(current - previous, previous) == 0.0 <==> current == previous)
  {
    if previous > 0 {
      var g := Percentage(current - previous, previous);
      var p := previous as real;
      assert IsPercentOf(g, current - previous, previous);
      assert g * p == 100.0 * ((current - previous) as real);
      assert g > 0.0 ==> g * p > 0.0;
      assert g < 0.0 ==> g * p < 0.0;
    }
  }

  /** The dashboard's figures. */
  datatype RevenueStats = RevenueStats(
    totalRevenue: int,
    totalReceived: int,
    totalDue: int,
    averageInvoice: real,
    averageDiscount: real,
    invoiceCount: nat,
    paidInvoices: nat,
    pendingInvoices: nat,
    revenueByPaymentMode: seq<(string, int)>,
    monthlyRevenue: seq<(string, int)>,
    topPatients: seq<(string, int)>,
    revenueGrowth: real,
    collectionEfficiency: real)

  const EmptyStats := RevenueStats(0, 0, 0, 0.0, 0.0, 0, 0, 0, [], [], [], 0.0, 0.0)

  /** The five patients who brought the most revenue, most first. */
  function TopPatients(byPatient: seq<(string, int)>): (r: seq<(string, int)>)
    ensures |r| == if |byPatient| < 5 then |byPatient| else 5
    ensures forall e :: e in r ==> e in byPatient
    ensures forall i, j :: 0 <= i < j < |r| ==> r[i].1 >= r[j].1
    ensures forall e, k :: e in byPatient && e !in r && 0 <= k < |r| ==> e.1 <= r[k].1
    ensures multiset(r) <= multiset(byPatient)
    ensures r == Sorting.SortBy(byPatient, Ranking.CountKey, true)[..|r|]
  {
    var r := Sorting.Top(byPatient, Ranking.CountKey, 5);
    ByRevenue(byPatient, r);
    r
  }

  /** Keys compared as amounts. */
  lemma ByRevenue(all: seq<(string, int)>, r: seq<(string, int)>)
    requires forall i, j :: 0 <= i < j < |r| ==> Sorting.Le(Ranking.CountKey(r[j]), Ranking.CountKey(r[i]))
    requires forall e, k :: e in all && e !in r && 0 <= k < |r| ==> Sorting.Le(Ranking.CountKey(e), Ranking.CountKey(r[k]))
    ensures forall i, j :: 0 <= i < j < |r| ==> r[i].1 >= r[j].1
    ensures forall e, k :: e in all && e !in r && 0 <= k < |r| ==> e.1 <= r[k].1
  {
  }

  /** The running numbers of the pass over the bills. */
  datatype Totals = Totals(
    revenue: int,
    received: int,
    due: int,
    discount: int,
    count: nat,
    paid: nat,
    pending: nat,
    current: int,
    previous: int)

  /** The running maps of the pass over the bills. */
  datatype Maps = Maps(byMode: seq<(string, int)>, monthly: seq<(string, int)>, byPatient: seq<(string, int)>)

  /** The lookups and clock the pass depends on. */
  datatype Context = Context(patients: seq<Patients.Patient>, monthOf: int -> string, periods: Periods)

  /** One bill's contribution to the numbers: the arithmetic of the
      `forEach` body. */
  function AddToTotals(t: Totals, b: Billing, p: Periods): Totals {
    Totals(
      t.revenue + b.totalAmount,
      t.received + b.amountReceived,
      t.due + b.amountDue,
      t.discount + Discount(b),
      t.count + 1,
      if b.status == "Paid" then t.paid + 1 else t.paid,
      if b.status != "Paid" && b.status == "Pending" then t.pending + 1 else t.pending,
      if p.currentStart <= b.date <= p.now then t.current + b.totalAmount else t.current,
      if p.previousStart <= b.date < p.currentStart then t.previous + b.totalAmount else t.previous)
  }

  predicate Distinct(m: Maps) {
    Tally.DistinctKeys(m.byMode) && Tally.DistinctKeys(m.monthly) && Tally.DistinctKeys(m.byPatient)
  }

  /** One bill's contribution to the maps: the three `acc[k] = (acc[k] || 0)
      + amount` lines of the `forEach` body; a bill whose patient is not
      found adds nothing by patient. */
  function AddToMaps(m: Maps, b: Billing, c: Context): (r: Maps)
    requires Distinct(m)
    ensures Distinct(r)
  {
    Maps(
      Tally.Add(m.byMode, b.modeOfPayment, b.totalAmount),
      Tally.Add(m.monthly, c.monthOf(b.date), b.totalAmount),
      match Patients.FindById(c.patients, b.patientId)
      case Some(p) => Tally.Add(m.byPatient, p.fullName, b.totalAmount)
      case None => m.byPatient)
  }

  /** The numbers after the bills, in order. */
  function TotalsOf(bs: seq<Billing>, p: Periods): Totals {
    if bs == [] then Totals(0, 0, 0, 0, 0, 0, 0, 0, 0)
    else AddToTotals(TotalsOf(bs[..|bs| - 1], p), bs[|bs| - 1], p)
  }

  /** The maps after the bills, in order. */
  function MapsOf(bs: seq<Billing>, c: Context): (m: Maps)
    ensures Distinct(m)
  {
    if bs == [] then Maps([], [], [])
    else AddToMaps(MapsOf(bs[..|bs| - 1], c), bs[|bs| - 1], c)
  }

  /** The running numbers are the sums and counts over the bills seen. */
  lemma TotalsMeaning(bs: seq<Billing>, p: Periods)
    ensures var t := TotalsOf(bs, p);
      && t.revenue == Lists.SumOf(bs, Amount)
      && t.received == Lists.SumOf(bs, Received)
      && t.due == Lists.SumOf(bs, Due)
      && t.discount == Lists.SumOf(bs, Discount)
      && t.count == |bs|
      && t.paid == Lists.Count(bs, IsPaid)
      && t.pending == Lists.Count(bs, IsPending)
      && t.current == Lists.SumOf(bs, CurrentAmount(p))
      && t.previous == Lists.SumOf(bs, PreviousAmount(p))
  {
    TotalsAmounts(bs, p);
    TotalsDues(bs, p);
    TotalsCounts(bs, p);
    TotalsPeriods(bs, p);
  }

  lemma {:induction false} TotalsAmounts(bs: seq<Billing>, p: Periods)
    ensures TotalsOf(bs, p).revenue == Lists.SumOf(bs, Amount)
    ensures TotalsOf(bs, p).received == Lists.SumOf(bs, Received)
  {
    if bs != [] {
      var i := |bs| - 1;
      TotalsAmounts(bs[..i], p);
      assert bs[..i + 1] == bs;
      Lists.SumStep(bs, i, Amount);
      Lists.SumStep(bs, i, Received);
    }
  }

  lemma {:induction false} TotalsDues(bs: seq<Billing>, p: Periods)
    ensures TotalsOf(bs, p).due == Lists.SumOf(bs, Due)
    ensures TotalsOf(bs, p).discount == Lists.SumOf(bs, Discount)
  {
    if bs != [] {
      var i := |bs| - 1;
      TotalsDues(bs[..i], p);
      assert bs[..i + 1] == bs;
      Lists.SumStep(bs, i, Due);
      Lists.SumStep(bs, i, Discount);
    }
  }

  lemma {:induction false} TotalsCounts(bs: seq<Billing>, p: Periods)
    ensures TotalsOf(bs, p).count == |bs|
    ensures TotalsOf(bs, p).paid == Lists.Count(bs, IsPaid)
    ensures TotalsOf(bs, p).pending == Lists.Count(bs, IsPending)
  {
    if bs != [] {
      var i := |bs| - 1;
      TotalsCounts(bs[..i], p);
      assert bs[..i + 1] == bs;
      Lists.CountStep(bs, i, IsPaid);
      Lists.CountStep(bs, i, IsPending);
    }
  }

  lemma {:induction false} TotalsPeriods(bs: seq<Billing>, p: Periods)
    ensures TotalsOf(bs, p).current == Lists.SumOf(bs, CurrentAmount(p))
    ensures TotalsOf(bs, p).previous == Lists.SumOf(bs, PreviousAmount(p))
  {
    if bs != [] {
      var i := |bs| - 1;
      TotalsPeriods(bs[..i], p);
      assert bs[..i + 1] == bs;
      Lists.SumStep(bs, i, CurrentAmount(p));
      Lists.SumStep(bs, i, PreviousAmount(p));
    }
  }

  /** The maps are the tallies of the bills' items. */
  lemma {:induction false} MapsMeaning(bs: seq<Billing>, c: Context)
    ensures var m := MapsOf(bs, c);
      && m.byMode == Tally.TallyOf(ModeItems(bs))
      && m.monthly == Tally.TallyOf(MonthItems(bs, c.monthOf))
      && m.byPatient == Tally.TallyOf(PatientItems(bs, c.patients))
  {
    if bs != [] {
      var i := |bs| - 1;
      var b := bs[i];
      MapsMeaning(bs[..i], c);
      Tally.TallyOfAppend(ModeItems(bs[..i]), (b.modeOfPayment, b.totalAmount));
      Tally.TallyOfAppend(MonthItems(bs[..i], c.monthOf), (c.monthOf(b.date), b.totalAmount));
      match Patients.FindById(c.patients, b.patientId)
      case Some(p) =>
        Tally.TallyOfAppend(PatientItems(bs[..i], c.patients), (p.fullName, b.totalAmount));
      case None =>
        assert PatientItems(bs[..i], c.patients) + [] == PatientItems(bs[..i], c.patients);
    }
  }

  /** The mode and month maps each distribute the whole revenue, and each
      key holds the amounts filed under it. */
  lemma MapsAddUp(bs: seq<Billing>, c: Context)
    ensures var m := MapsOf(bs, c);
      && Tally.Total(m.byMode) == Lists.SumOf(bs, Amount)
      && Tally.Total(m.monthly) == Lists.SumOf(bs, Amount)
      && (forall k :: Tally.Get(m.byMode, k) == Tally.SumFor(ModeItems(bs), k))
      && (forall k :: Tally.Get(m.monthly, k) == Tally.SumFor(MonthItems(bs, c.monthOf), k))
  {
    MapsMeaning(bs, c);
    Tally.TallyOfTotal(ModeItems(bs));
    Tally.TallyOfTotal(MonthItems(bs, c.monthOf));
    ItemTotals(bs, c.monthOf);
    forall k ensures Tally.Get(Tally.TallyOf(ModeItems(bs)), k) == Tally.SumFor(ModeItems(bs), k) {
      Tally.TallyOfGet(ModeItems(bs), k);
    }
    forall k ensures Tally.Get(Tally.TallyOf(MonthItems(bs, c.monthOf)), k) == Tally.SumFor(MonthItems(bs, c.monthOf), k) {
      Tally.TallyOfGet(MonthItems(bs, c.monthOf), k);
    }
  }

  /** Every bill yields one mode item and one month item with its amount. */
  lemma {:induction false} ItemTotals(bs: seq<Billing>, monthOf: int -> string)
    ensures Tally.Total(ModeItems(bs)) == Lists.SumOf(bs, Amount)
    ensures Tally.Total(MonthItems(bs, monthOf)) == Lists.SumOf(bs, Amount)
  {
    if bs != [] {
      var i := |bs| - 1;
      ItemTotals(bs[..i], monthOf);
      assert bs[..i + 1] == bs;
      Lists.SumStep(bs, i, Amount);
    }
  }

  /** The figures the dashboard derives from the pass. */
  function StatsOf(t: Totals, m: Maps): RevenueStats {
    RevenueStats(
      t.revenue, t.received, t.due,
      Average(t.revenue, t.count), Average(t.discount, t.count),
      t.count, t.paid, t.pending,
      m.byMode, m.monthly, TopPatients(m.byPatient),
      Percentage(t.current - t.previous, t.previous),
      Percentage(t.received, t.revenue))
  }

  /** `analytics`: one pass over the bills; without bills every figure is
      0 and every map empty. */
  function Analytics(billings: seq<Billing>, c: Context): (s: RevenueStats)
    ensures billings == [] ==> s == EmptyStats
    ensures s.invoiceCount == |billings|
  {
    if billings == [] then EmptyStats
    else
      TotalsCounts(billings, c.periods);
      StatsOf(TotalsOf(billings, c.periods), MapsOf(billings, c))
  }

  /** The figures: the totals are sums over the bills, the counts count
      paid and pending bills (no bill is both), the averages are per bill,
      growth is the change from the previous period as a percentage of it,
      and efficiency is the share of the revenue received. */
  lemma AnalyticsFigures(billings: seq<Billing>, c: Context)
    ensures var s := Analytics(billings, c);
      && s.totalRevenue == Lists.SumOf(billings, Amount)
      && s.totalReceived == Lists.SumOf(billings, Received)
      && s.totalDue == Lists.SumOf(billings, Due)
      && IsAverageOf(s.averageInvoice, s.totalRevenue, s.invoiceCount)
      && IsAverageOf(s.averageDiscount, Lists.SumOf(billings, Discount), s.invoiceCount)
      && s.paidInvoices == Lists.Count(billings, IsPaid)
      && s.pendingInvoices == Lists.Count(billings, IsPending)
      && s.paidInvoices + s.pendingInvoices <= s.invoiceCount
      && IsPercentOf(s.revenueGrowth,
           Lists.SumOf(billings, CurrentAmount(c.periods)) - Lists.SumOf(billings, PreviousAmount(c.periods)),
           Lists.SumOf(billings, PreviousAmount(c.periods)))
      && IsPercentOf(s.collectionEfficiency, s.totalReceived, s.totalRevenue)
  {
    TotalsMeaning(billings, c.periods);
    PaidOrPending(billings);
  }

  /** The maps: each payment mode and month holds the amounts filed under
      it and each map adds up to the revenue; the top patients are the
      five best of the per-patient tally. */
  lemma AnalyticsMaps(billings: seq<Billing>, c: Context)
    ensures var s := Analytics(billings, c);
      && Tally.DistinctKeys(s.revenueByPaymentMode) && Tally.Total(s.revenueByPaymentMode) == s.totalRevenue
      && (forall m :: Tally.Get(s.revenueByPaymentMode, m) == Tally.SumFor(ModeItems(billings), m))
      && Tally.DistinctKeys(s.monthlyRevenue) && Tally.Total(s.monthlyRevenue) == s.totalRevenue
      && (forall m :: Tally.Get(s.monthlyRevenue, m) == Tally.SumFor(MonthItems(billings, c.monthOf), m))
      && s.topPatients == TopPatients(Tally.TallyOf(PatientItems(billings, c.patients)))
  {
    TotalsAmounts(billings, c.periods);
    MapsMeaning(billings, c);
    MapsAddUp(billings, c);
  }

  /** A bill is counted as paid, as pending, or neither. */
  lemma {:induction false} PaidOrPending(bs: seq<Billing>)
    ensures Lists.Count(bs, IsPaid) + Lists.Count(bs, IsPending) <= |bs|
  {
    if bs != [] {
      PaidOrPending(bs[1..]);
    }
  }

  // ------------------------------------------------------ the bill list

  /** A bill with the name of its patient, or "Unknown". */
  datatype Row = Row(billing: Billing, patientName: string)

  /** `mappedBillings`. */
  function Rows(billings: seq<Billing>, patients: seq<Patients.Patient>): (r: seq<Row>)
    ensures |r| == |billings|
    ensures forall i :: 0 <= i < |r| ==> r[i].billing == billings[i]
    ensures forall i :: 0 <= i < |r| ==>
      r[i].patientName == match Patients.FindById(patients, billings[i].patientId)
                          case Some(p) => p.fullName
                          case None => "Unknown"
  {
    seq(|billings|, i requires 0 <= i < |billings| =>
      Row(billings[i], match Patients.FindById(patients, billings[i].patientId)
                       case Some(p) => p.fullName
                       case None => "Unknown"))
  }

  /** The search term occurs, ignoring case, in the invoice id, the
      patient's name or the payment mode. */
  predicate MatchesSearch(r: Row, term: string) {
    || (r.billing.invoiceId.Some? && Text.ContainsIgnoringCase(r.billing.invoiceId.value, term))
    || Text.ContainsIgnoringCase(r.patientName, term)
    || Text.ContainsIgnoringCase(r.billing.modeOfPayment, term)
  }

  predicate Shown(r: Row, term: string, status: string, mode: string) {
    && MatchesSearch(r, term)
    && (status == "All" || r.billing.status == status)
    && (mode == "All" || r.billing.modeOfPayment == mode)
  }

  /** `filteredBillings`. */
  function Filtered(rows: seq<Row>, term: string, status: string, mode: string): (r: seq<Row>)
    ensures forall x :: x in r <==> x in rows && Shown(x, term, status, mode)
    ensures Lists.IsSubsequence(r, rows)
  {
    Lists.Filter(rows, (x: Row) => Shown(x, term, status, mode))
  }

  /** The page never changes its search term or filters from "", "All"
      and "All", so every bill is listed. */
  lemma PageListsEverything(rows: seq<Row>)
    ensures Filtered(rows, "", "All", "All") == rows
  {
    forall i | 0 <= i < |rows| ensures Shown(rows[i], "", "All", "All") {
      Text.EmptyIsContainedIgnoringCase(rows[i].patientName);
    }
  }

  /** `currentItems` on the page's fixed first page of ten. */
  function CurrentItems(filtered: seq<Row>): (r: seq<Row>)
    ensures |r| == if |filtered| < 10 then |filtered| else 10
    ensures r == filtered[..|r|]
  {
    Pagination.PageRows(filtered, 1, 10);
    Pagination.PageItems(filtered, 1, 10)
  }

  // ------------------------------------------------------------ CSV

  const CsvHeaders: seq<string> := [
    "Invoice ID", "Date", "Patient", "Total Amount", "Discount", "Received", "Due", "Payment Mode", "Status"]

  /** `String(x)` inside `Array.prototype.join`: a missing value is empty. */
  function OptionalText(x: Option<string>): string { x.GetOr("") }

  function OptionalNumber(x: Option<int>): string {
    match x
    case Some(n) => Text.IntToString(n)
    case None => ""
  }

  /** The nine cells of a bill; `dateText` is `toLocaleDateString`. */
  function CsvCells(r: Row, dateText: int -> string): (cells: seq<string>)
    ensures |cells| == |CsvHeaders| == 9
  {
    [OptionalText(r.billing.invoiceId), dateText(r.billing.date), r.patientName,
     Text.IntToString(r.billing.totalAmount), OptionalNumber(r.billing.discount),
     Text.IntToString(r.billing.amountReceived), Text.IntToString(r.billing.amountDue),
     r.billing.modeOfPayment, r.billing.status]
  }

  function CsvLines(rows: seq<Row>, dateText: int -> string): (lines: seq<string>)
    ensures |lines| == |rows| + 1
    ensures lines[0] == Text.Join(CsvHeaders, ",")
    ensures forall i :: 0 <= i < |rows| ==> lines[i + 1] == Text.Join(CsvCells(rows[i], dateText), ",")
  {
    var body := seq(|rows|, i requires 0 <= i < |rows| => Text.Join(CsvCells(rows[i], dateText), ","));
    assert forall i :: 0 <= i < |rows| ==> ([Text.Join(CsvHeaders, ",")] + body)[i + 1] == body[i];
    [Text.Join(CsvHeaders, ",")] + body
  }

  /** `exportToCSV`'s content: the header line, then one line per listed
      bill, joined by newlines. */
  function Csv(rows: seq<Row>, dateText: int -> string): string {
    Text.Join(CsvLines(rows, dateText), "\n")
  }

  /** The texts of a bill that end up in its line carry no comma and no
      line break. */
  predicate CsvSafe(r: Row, dateText: int -> string) {
    && Text.Free(OptionalText(r.billing.invoiceId), ',') && Text.Free(OptionalText(r.billing.invoiceId), '\n')
    && Text.Free(dateText(r.billing.date), ',') && Text.Free(dateText(r.billing.date), '\n')
    && Text.Free(r.patientName, ',') && Text.Free(r.patientName, '\n')
    && Text.Free(r.billing.modeOfPayment, ',') && Text.Free(r.billing.modeOfPayment, '\n')
    && Text.Free(r.billing.status, ',') && Text.Free(r.billing.status, '\n')
  }

  /** Reading the file back: when no text contains a comma or a line break,
      splitting at newlines gives the header and one line per bill, and
      splitting a line at commas gives back its nine cells. */
  lemma CsvRoundTrip(rows: seq<Row>, dateText: int -> string)
    requires forall i :: 0 <= i < |rows| ==> CsvSafe(rows[i], dateText)
    ensures var lines := Text.Split(Csv(rows, dateText), '\n');
      && |lines| == |rows| + 1
      && Text.Split(lines[0], ',') == CsvHeaders
      && forall i :: 0 <= i < |rows| ==> Text.Split(lines[i + 1], ',') == CsvCells(rows[i], dateText)
  {
    var lines := CsvLines(rows, dateText);
    LinesFree(rows, dateText);
    Text.SplitJoin(lines, '\n');
    HeaderLine();
    forall i | 0 <= i < |rows| ensures Text.Split(lines[i + 1], ',') == CsvCells(rows[i], dateText) {
      BillLine(rows[i], dateText);
    }
  }

  lemma HeaderLine()
    ensures Text.Split(Text.Join(CsvHeaders, ","), ',') == CsvHeaders
  {
    HeadersSafe();
    Text.SplitJoin(CsvHeaders, ',');
  }

  lemma BillLine(r: Row, dateText: int -> string)
    requires CsvSafe(r, dateText)
    ensures Text.Split(Text.Join(CsvCells(r, dateText), ","), ',') == CsvCells(r, dateText)
  {
    CellsSafe(r, dateText);
    Text.SplitJoin(CsvCells(r, dateText), ',');
  }

  /** No line of the file contains a line break. */
  lemma LinesFree(rows: seq<Row>, dateText: int -> string)
    requires forall i :: 0 <= i < |rows| ==> CsvSafe(rows[i], dateText)
    ensures var lines := CsvLines(rows, dateText);
      forall i :: 0 <= i < |lines| ==> Text.Free(lines[i], '\n')
  {
    var lines := CsvLines(rows, dateText);
    forall i | 0 <= i < |lines| ensures Text.Free(lines[i], '\n') {
      if i == 0 {
        HeaderLineFree();
      } else {
        BillLineFree(rows[i - 1], dateText);
      }
    }
  }

  lemma HeaderLineFree()
    ensures Text.Free(Text.Join(CsvHeaders, ","), '\n')
  {
    HeadersSafe();
    Text.JoinFree(CsvHeaders, ",", '\n');
  }

  lemma BillLineFree(r: Row, dateText: int -> string)
    requires CsvSafe(r, dateText)
    ensures Text.Free(Text.Join(CsvCells(r, dateText), ","), '\n')
  {
    CellsSafe(r, dateText);
    Text.JoinFree(CsvCells(r, dateText), ",", '\n');
  }

  lemma HeadersSafe()
    ensures forall i :: 0 <= i < |CsvHeaders| ==> Text.Free(CsvHeaders[i], ',') && Text.Free(CsvHeaders[i], '\n')
  {
  }

  lemma CellsSafe(r: Row, dateText: int -> string)
    requires CsvSafe(r, dateText)
    ensures var cells := CsvCells(r, dateText);
      forall i :: 0 <= i < |cells| ==> Text.Free(cells[i], ',') && Text.Free(cells[i], '\n')
  {
    Text.NumberFree(r.billing.totalAmount);
    Text.NumberFree(r.billing.amountReceived);
    Text.NumberFree(r.billing.amountDue);
    if r.billing.discount.Some? {
      Text.NumberFree(r.billing.discount.value);
    }
  }
}
