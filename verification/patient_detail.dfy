/** The patient detail view (`src/app/components/doctor/PatientDetailView.tsx`):
    the records of one patient, the upcoming-appointment and treatment
    cards, the monthly or yearly activity chart and the tolerant date
    formatting of its tables. Dates are instants with their local calendar
    year and month; the clock and the locale's date text are inputs. */
module PatientDetail {

  import opened Wrappers
  import Text
  import Lists
  import Tally
  import Sorting
  import DataTable

  /** A parsed date: its instant and its local year and month (0 to 11).
      An unparsable date is `None`. */
  datatype Moment = Moment(at: int, year: int, month: nat)

  datatype Appointment = Appointment(patient: string, date: Option<Moment>, status: string)

  /** A bill; a missing treatment list is `None`. */
  datatype Billing = Billing(patientId: string, date: Option<Moment>, treatments: Option<seq<string>>)

  /** A lab order; `patient` is the populated patient's `_id`, `None`
      when the reference is missing. */
  datatype LabWork = LabWork(patient: Option<string>, labName: string)

  // -------------------------------------------------- the patient's own

  function PatientAppointments(appointments: seq<Appointment>, id: string): (r: seq<Appointment>)
    ensures forall a :: a in r <==> a in appointments && a.patient == id
    ensures Lists.IsSubsequence(r, appointments)
  {
    Lists.Filter(appointments, (a: Appointment) => a.patient == id)
  }

  function PatientBillings(billings: seq<Billing>, id: string): (r: seq<Billing>)
    ensures forall b :: b in r <==> b in billings && b.patientId == id
    ensures Lists.IsSubsequence(r, billings)
  {
    Lists.Filter(billings, (b: Billing) => b.patientId == id)
  }

  /** An order whose patient reference is missing belongs to nobody. */
  function PatientLabWorks(labs: seq<LabWork>, id: string): (r: seq<LabWork>)
    ensures forall l :: l in r <==> l in labs && l.patient == Some(id)
    ensures Lists.IsSubsequence(r, labs)
  {
    Lists.Filter(labs, (l: LabWork) => l.patient == Some(id))
  }

  // ------------------------------------------------------------ cards

  /** Dated no earlier than `now`, and neither completed nor cancelled; an
      unparsable date is never upcoming. */
  predicate IsUpcoming(a: Appointment, now: int) {
    a.date.Some? && a.date.value.at >= now && a.status != "Completed" && a.status != "Cancelled"
  }

  function UpcomingAt(now: int): Appointment -> bool {
    a => IsUpcoming(a, now)
  }

  /** The "Upcoming Appointments" card. */
  function UpcomingCount(appointments: seq<Appointment>, id: string, now: int): nat {
    |Lists.Filter(PatientAppointments(appointments, id), UpcomingAt(now))|
  }

  /** The card counts the patient's appointments that are upcoming, and
      only those. */
  lemma UpcomingCountMeaning(appointments: seq<Appointment>, id: string, now: int)
    ensures UpcomingCount(appointments, id, now) ==
      Lists.Count(appointments, (a: Appointment) => a.patient == id && IsUpcoming(a, now))
  {
    Lists.FilterThenCount(appointments, (a: Appointment) => a.patient == id, UpcomingAt(now),
                          (a: Appointment) => a.patient == id && IsUpcoming(a, now));
  }

  /** `list?.length || 0`: the medical-history and medication cards. */
  function LengthOrZero(xs: Option<seq<string>>): (n: nat)
    ensures xs.None? ==> n == 0
    ensures xs.Some? ==> n == |xs.value|
  {
    if xs.None? then 0 else |xs.value|
  }

  /** `billing.treatments?.length || 0`. */
  function TreatmentsOf(b: Billing): int {
    LengthOrZero(b.treatments)
  }

  /** The running total of the `reduce` over a list of bills. */
  function TreatmentTotal(billings: seq<Billing>): int {
    if billings == [] then 0
    else
      var n := |billings| - 1;
      TreatmentTotal(billings[..n]) + TreatmentsOf(billings[n])
  }

  /** The "Total Treatments" card. */
  function TotalTreatments(billings: seq<Billing>, id: string): int {
    TreatmentTotal(PatientBillings(billings, id))
  }

  /** The running total is the sum of the list lengths. */
  lemma {:induction false} TreatmentTotalIsSum(billings: seq<Billing>)
    ensures TreatmentTotal(billings) == Lists.SumOf(billings, TreatmentsOf)
  {
    if billings != [] {
      var n := |billings| - 1;
      TreatmentTotalIsSum(billings[..n]);
      assert billings[..n + 1] == billings;
      Lists.SumStep(billings, n, TreatmentsOf);
    }
  }

  // ------------------------------------------------------------ chart

  datatype TimeFrame = Monthly | Yearly

  /** `formatDate`: "YYYY" by year, otherwise "YYYY-MM" with the month
      from 01; an unparsable date gives "NaN" or "NaN-NaN". */
  function DateKey(d: Option<Moment>, f: TimeFrame): string {
    match d
    case None => if f == Yearly then "NaN" else "NaN-NaN"
    case Some(m) =>
      if f == Yearly then Text.IntToString(m.year)
      else Text.IntToString(m.year) + "-" + Text.PadStart2(Text.NatToString(m.month + 1))
  }

  /** `appointmentCounts`: appointments by key. */
  function AppointmentCounts(appointments: seq<Appointment>, f: TimeFrame): (r: Tally.Tally<string>)
    ensures Tally.DistinctKeys(r)
  {
    Tally.CountBy(AppointmentKeys(appointments, f))
  }

  function AppointmentKeys(appointments: seq<Appointment>, f: TimeFrame): (r: seq<string>)
    ensures |r| == |appointments|
    ensures forall i :: 0 <= i < |r| ==> r[i] == DateKey(appointments[i].date, f)
  {
    seq(|appointments|, i requires 0 <= i < |appointments| => DateKey(appointments[i].date, f))
  }

  /** `treatmentCounts`: treatments billed by key. */
  function TreatmentCounts(billings: seq<Billing>, f: TimeFrame): (r: Tally.Tally<string>)
    ensures Tally.DistinctKeys(r)
  {
    Tally.TallyOf(BillingItems(billings, f))
  }

  function BillingItems(billings: seq<Billing>, f: TimeFrame): (r: seq<(string, int)>)
    ensures |r| == |billings|
    ensures forall i :: 0 <= i < |r| ==> r[i] == (DateKey(billings[i].date, f), TreatmentsOf(billings[i]))
  {
    seq(|billings|, i requires 0 <= i < |billings| => (DateKey(billings[i].date, f), TreatmentsOf(billings[i])))
  }

  /** One point of the chart; a key missing on one side shows 0. */
  datatype Point = Point(date: string, appointments: int, treatments: int)

  /** `allMonths`: the keys of both counts, once each, sorted as texts. */
  function ChartKeys(a: Tally.Tally<string>, t: Tally.Tally<string>): (r: seq<string>)
    ensures forall i, j :: 0 <= i < j < |r| ==> Sorting.LexLe(r[i], r[j]) && r[i] != r[j]
    ensures forall k :: k in r <==> k in Tally.Keys(a) || k in Tally.Keys(t)
  {
    var u := Lists.AddNew([], Tally.Keys(a) + Tally.Keys(t));
    Sorting.SortTextsStrict(u);
    var r := Sorting.SortTexts(u);
    assert forall k :: k in r <==> k in u by {
      forall k ensures k in r <==> k in u {
        assert k in r <==> k in multiset(r);
        assert k in u <==> k in multiset(u);
      }
    }
    r
  }

  /** `processChartData`. */
  function ChartData(appointments: seq<Appointment>, billings: seq<Billing>, f: TimeFrame): seq<Point> {
    var a := AppointmentCounts(appointments, f);
    var t := TreatmentCounts(billings, f);
    var keys := ChartKeys(a, t);
    seq(|keys|, i requires 0 <= i < |keys| => Point(keys[i], Tally.Get(a, keys[i]), Tally.Get(t, keys[i])))
  }

  function KeyIs(k: string, f: TimeFrame): Appointment -> bool {
    (a: Appointment) => DateKey(a.date, f) == k
  }

  function TreatmentsUnder(k: string, f: TimeFrame): Billing -> int {
    (b: Billing) => if DateKey(b.date, f) == k then TreatmentsOf(b) else 0
  }

  lemma {:induction false} AppointmentsUnder(appointments: seq<Appointment>, f: TimeFrame, k: string)
    ensures Tally.Occurrences(AppointmentKeys(appointments, f), k) == Lists.Count(appointments, KeyIs(k, f))
  {
    if appointments != [] {
      var n := |appointments| - 1;
      AppointmentsUnder(appointments[..n], f, k);
      assert AppointmentKeys(appointments, f)[..n] == AppointmentKeys(appointments[..n], f);
      assert appointments[..n + 1] == appointments;
      Lists.CountStep(appointments, n, KeyIs(k, f));
    }
  }

  lemma {:induction false} BillingsUnder(billings: seq<Billing>, f: TimeFrame, k: string)
    ensures Tally.SumFor(BillingItems(billings, f), k) == Lists.SumOf(billings, TreatmentsUnder(k, f))
  {
    if billings != [] {
      var n := |billings| - 1;
      BillingsUnder(billings[..n], f, k);
      assert BillingItems(billings, f)[..n] == BillingItems(billings[..n], f);
      assert billings[..n + 1] == billings;
      Lists.SumStep(billings, n, TreatmentsUnder(k, f));
    }
  }

  /** The chart runs through the keys in ascending text order, each once;
      a key appears exactly when some appointment or bill falls under it;
      each point counts the appointments and sums the treatments under its
      key. */
  lemma ChartDataMeaning(appointments: seq<Appointment>, billings: seq<Billing>, f: TimeFrame, i: nat)
    requires i < |ChartData(appointments, billings, f)|
    ensures var r := ChartData(appointments, billings, f);
      && (forall j :: 0 <= j < i ==> Sorting.LexLe(r[j].date, r[i].date) && r[j].date != r[i].date)
      && (r[i].date in AppointmentKeys(appointments, f) || exists b :: b in billings && DateKey(b.date, f) == r[i].date)
      && r[i].appointments == Lists.Count(appointments, KeyIs(r[i].date, f))
      && r[i].treatments == Lists.SumOf(billings, TreatmentsUnder(r[i].date, f))
  {
    var a := AppointmentCounts(appointments, f);
    var t := TreatmentCounts(billings, f);
    var keys := ChartKeys(a, t);
    var k := keys[i];
    KeyOrigin(appointments, billings, f, k);
    AppointmentPoint(appointments, f, k);
    TreatmentPoint(billings, f, k);
  }

  /** A key of either count comes from some appointment or some bill. */
  lemma KeyOrigin(appointments: seq<Appointment>, billings: seq<Billing>, f: TimeFrame, k: string)
    requires k in Tally.Keys(AppointmentCounts(appointments, f)) || k in Tally.Keys(TreatmentCounts(billings, f))
    ensures k in AppointmentKeys(appointments, f) || exists b :: b in billings && DateKey(b.date, f) == k
  {
    Tally.CountByKeys(AppointmentKeys(appointments, f), k);
    Tally.TallyOfKeys(BillingItems(billings, f), k);
    if k in Tally.Keys(BillingItems(billings, f)) {
      var j :| 0 <= j < |billings| && Tally.Keys(BillingItems(billings, f))[j] == k;
      assert billings[j] in billings;
    }
  }

  /** The appointment count of a key counts the appointments under it. */
  lemma AppointmentPoint(appointments: seq<Appointment>, f: TimeFrame, k: string)
    ensures Tally.Get(AppointmentCounts(appointments, f), k) == Lists.Count(appointments, KeyIs(k, f))
  {
    Tally.CountByMeaning(AppointmentKeys(appointments, f), k);
    AppointmentsUnder(appointments, f, k);
  }

  /** The treatment count of a key sums the treatments billed under it. */
  lemma TreatmentPoint(billings: seq<Billing>, f: TimeFrame, k: string)
    ensures Tally.Get(TreatmentCounts(billings, f), k) == Lists.SumOf(billings, TreatmentsUnder(k, f))
  {
    Tally.TallyOfGet(BillingItems(billings, f), k);
    BillingsUnder(billings, f, k);
  }

  /** Every appointment and bill has a point. */
  lemma ChartCoversAll(appointments: seq<Appointment>, billings: seq<Billing>, f: TimeFrame, k: string)
    requires k in AppointmentKeys(appointments, f) || exists b :: b in billings && DateKey(b.date, f) == k
    ensures exists i :: 0 <= i < |ChartData(appointments, billings, f)| && ChartData(appointments, billings, f)[i].date == k
  {
    var a := AppointmentCounts(appointments, f);
    var t := TreatmentCounts(billings, f);
    var keys := ChartKeys(a, t);
    Tally.CountByKeys(AppointmentKeys(appointments, f), k);
    Tally.TallyOfKeys(BillingItems(billings, f), k);
    if k !in AppointmentKeys(appointments, f) {
      var b :| b in billings && DateKey(b.date, f) == k;
      var j :| 0 <= j < |billings| && billings[j] == b;
      assert Tally.Keys(BillingItems(billings, f))[j] == k;
    }
    assert k in keys;
    var i :| 0 <= i < |keys| && keys[i] == k;
    assert ChartData(appointments, billings, f)[i].date == k;
  }

  /** The treatments on the chart add up to the total-treatments card
      (over the same bills), whatever the time frame. */
  lemma ChartTreatmentsTotal(billings: seq<Billing>, f: TimeFrame)
    ensures Tally.Total(TreatmentCounts(billings, f)) == TreatmentTotal(billings)
  {
    Tally.TallyOfTotal(BillingItems(billings, f));
    ItemsTotal(billings, f);
  }

  lemma {:induction false} ItemsTotal(billings: seq<Billing>, f: TimeFrame)
    ensures Tally.Total(BillingItems(billings, f)) == TreatmentTotal(billings)
  {
    if billings != [] {
      var n := |billings| - 1;
      ItemsTotal(billings[..n], f);
      assert BillingItems(billings, f)[..n] == BillingItems(billings[..n], f);
    }
  }

  /** For years of four digits, ordering the keys as texts orders them in
      time: month keys by year and then month, year keys by year. So the
      chart, which sorts its keys as texts, runs forward in time. */
  lemma ChartKeysChronological(a: Moment, b: Moment)
    requires 1000 <= a.year <= 9999 && 1000 <= b.year <= 9999
    requires a.month < 12 && b.month < 12
    ensures Sorting.LexLe(DateKey(Some(a), Yearly), DateKey(Some(b), Yearly)) <==> a.year <= b.year
    ensures Sorting.LexLe(DateKey(Some(a), Monthly), DateKey(Some(b), Monthly)) <==>
      a.year < b.year || (a.year == b.year && a.month <= b.month)
  {
    var ya, ma := KeyParts(a);
    var yb, mb := KeyParts(b);
    DigitsOrder(ya, yb);
    MonthKeyOrder(ya, yb, ma, mb);
  }

  /** The year and month texts of a key, for a four-digit year. */
  lemma KeyParts(m: Moment) returns (y: string, mm: string)
    requires 1000 <= m.year <= 9999 && m.month < 12
    ensures |y| == 4 && |mm| == 2
    ensures forall i :: 0 <= i < |y| ==> Text.IsDigit(y[i])
    ensures forall i :: 0 <= i < |mm| ==> Text.IsDigit(mm[i])
    ensures Text.DigitsValue(y) == m.year && Text.DigitsValue(mm) == m.month + 1
    ensures DateKey(Some(m), Yearly) == y && DateKey(Some(m), Monthly) == (y + "-") + mm
  {
    y := Text.NatToString(m.year);
    mm := Text.PadStart2(Text.NatToString(m.month + 1));
    DataTable.FourDigits(m.year);
    Text.NatToStringRoundTrip(m.year);
    DataTable.TwoDigits(m.month + 1);
  }

  /** A month key "yyyy-mm" compares as texts by year and then by month. */
  lemma MonthKeyOrder(ya: string, yb: string, ma: string, mb: string)
    requires |ya| == |yb| && |ma| == |mb|
    requires forall i :: 0 <= i < |ya| ==> Text.IsDigit(ya[i])
    requires forall i :: 0 <= i < |yb| ==> Text.IsDigit(yb[i])
    requires forall i :: 0 <= i < |ma| ==> Text.IsDigit(ma[i])
    requires forall i :: 0 <= i < |mb| ==> Text.IsDigit(mb[i])
    ensures Sorting.LexLe((ya + "-") + ma, (yb + "-") + mb) <==>
      || Text.DigitsValue(ya) < Text.DigitsValue(yb)
      || (Text.DigitsValue(ya) == Text.DigitsValue(yb) && Text.DigitsValue(ma) <= Text.DigitsValue(mb))
  {
    DigitsOrder(ya, yb);
    DigitsOrder(yb, ya);
    DigitsOrder(ma, mb);
    LexConcat(ya + "-", yb + "-", ma, mb);
    LexConcat(ya, yb, "-", "-");
    assert ya + "-" == yb + "-" <==> ya == yb by {
      if ya + "-" == yb + "-" {
        assert ya == (ya + "-")[..|ya|] && yb == (yb + "-")[..|yb|];
      }
    }
    if Text.DigitsValue(ya) == Text.DigitsValue(yb) {
      Sorting.LexAntisymmetric(ya, yb);
    }
  }

  /** Texts of equal length compare by their first difference: a common
      prefix hands the comparison to the rest. */
  lemma {:induction false} LexConcat(p: string, q: string, s: string, t: string)
    requires |p| == |q|
    ensures Sorting.LexLe(p + s, q + t) <==> (p != q && Sorting.LexLe(p, q)) || (p == q && Sorting.LexLe(s, t))
    decreases |p|
  {
    if p != [] {
      assert (p + s)[0] == p[0] && (q + t)[0] == q[0];
      assert (p + s)[1..] == p[1..] + s && (q + t)[1..] == q[1..] + t;
      LexConcat(p[1..], q[1..], s, t);
      if p[0] == q[0] {
        assert p == [p[0]] + p[1..] && q == [q[0]] + q[1..];
        assert p == q <==> p[1..] == q[1..];
        assert Sorting.LexLe(p, q) == Sorting.LexLe(p[1..], q[1..]);
        assert Sorting.LexLe(p + s, q + t) == Sorting.LexLe(p[1..] + s, q[1..] + t);
      } else {
        assert p != q;
      }
    } else {
      assert p == q && p + s == s && q + t == t;
    }
  }

  /** Digit texts of equal length compare as texts exactly as their values
      compare. */
  lemma {:induction false} DigitsOrder(a: string, b: string)
    requires |a| == |b|
    requires forall i :: 0 <= i < |a| ==> Text.IsDigit(a[i])
    requires forall i :: 0 <= i < |b| ==> Text.IsDigit(b[i])
    ensures Sorting.LexLe(a, b) <==> Text.DigitsValue(a) <= Text.DigitsValue(b)
    decreases |a|
  {
    if a != [] {
      var n := |a| - 1;
      var a', b' := a[..n], b[..n];
      DigitsOrder(a', b');
      DigitsOrder(b', a');
      assert a == a' + [a[n]] && b == b' + [b[n]];
      LexConcat(a', b', [a[n]], [b[n]]);
      if a' != b' {
        if Sorting.LexLe(b', a') && Sorting.LexLe(a', b') {
          Sorting.LexAntisymmetric(a', b');
        }
        Sorting.LexTotal(a', b');
      }
    }
  }

  // ------------------------------------------------------ date display

  /** The values `safeFormatDate` may receive. */
  datatype DateValue =
    | Null
    | Undefined
    | Flag(b: bool)
    | Number(n: int)
    | Text(s: string)
    | DateObject(time: Option<int>)
    | OtherObject

  /** The largest distance from the epoch, in milliseconds, that a
      JavaScript date can hold (section 21.4.1.1 of ECMA-262). */
  const MaxTime := 8_640_000_000_000_000

  predicate Falsy(v: DateValue) {
    v == Null || v == Undefined || v == Flag(false) || v == Number(0) || v == Text("")
  }

  /** The instant a value stands for: a `Date` object's own time, the
      parse of a text, or a number of milliseconds within range. */
  function Instant(v: DateValue, parse: string -> Option<int>): Option<int> {
    match v
    case DateObject(time) => time
    case Text(s) => parse(s)
    case Number(n) => if -MaxTime <= n <= MaxTime then Some(n) else None
    case _ => None
  }

  /** `safeFormatDate`: "N/A" for a falsy value, an unparsable text or
      number and anything not date-like; otherwise the locale's date text
      (`local`), which a `Date` object that is itself invalid renders as
      "Invalid Date". `parse` is the platform's date parser. */
  function SafeFormatDate(v: DateValue, parse: string -> Option<int>, local: int -> string): (r: string)
    ensures Falsy(v) || v.Flag? || v == OtherObject ==> r == "N/A"
    ensures !Falsy(v) && Instant(v, parse).Some? ==> r == local(Instant(v, parse).value)
    ensures !v.DateObject? && Instant(v, parse).None? ==> r == "N/A"
    ensures v.DateObject? && v.time.None? ==> r == "Invalid Date"
  {
    if Falsy(v) then "N/A"
    else
      match v
      case DateObject(time) => if time.Some? then local(time.value) else "Invalid Date"
      case Text(s) => if parse(s).Some? then local(parse(s).value) else "N/A"
      case Number(n) => if -MaxTime <= n <= MaxTime then local(n) else "N/A"
      case _ => "N/A"
  }

  /** When the locale never writes "N/A", the table shows "N/A" exactly
      for falsy values and for values that do not stand for an instant and
      are not `Date` objects. */
  lemma NotAvailableIff(v: DateValue, parse: string -> Option<int>, local: int -> string)
    requires forall t :: local(t) != "N/A"
    ensures SafeFormatDate(v, parse, local) == "N/A" <==> Falsy(v) || (!v.DateObject? && Instant(v, parse).None?)
  {
    var i := Instant(v, parse);
    if !Falsy(v) && i.Some? {
      var t := i.value;
      assert local(t) != "N/A";
    }
  }
}
