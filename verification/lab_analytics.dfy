/** The lab-work analytics hook (`src/app/components/doctor/LabWorkAnalytics.tsx`):
    counts by status, order type and lab, the turnaround of orders with both
    dates, its six bins, mean, median and on-time rate, the weekly delivery
    trend and the fixed benchmark tables. Dates are calendar-day numbers in
    local time; the month and week labels of a day are parameters. */
module LabAnalytics {

  import opened Wrappers
  import Lists
  import Sorting
  import Tally
  import Stats
  import Ranking

  /** The part of a lab order the analytics read; a missing date is `None`. */
  datatype LabWork = LabWork(
    status: Option<string>,
    orderType: string,
    labName: string,
    sentToLabOn: Option<int>,
    receivedFromLabOn: Option<int>)

  /** `lab.status || "Pending"`. */
  function StatusOf(l: LabWork): (s: string)
    ensures s != ""
    ensures l.status.Some? && l.status.value != "" ==> s == l.status.value
  {
    if l.status.None? || l.status.value == "" then "Pending" else l.status.value
  }

  /** Received and fitted orders count as completed. */
  predicate Completed(l: LabWork) {
    StatusOf(l) == "Fitted" || StatusOf(l) == "Received"
  }

  /** `getStatusDate`: received and fitted orders are dated by their
      return from the lab, every other order by its dispatch. */
  function StatusDate(l: LabWork): Option<int> {
    match l.status
    case Some("Pending") => l.sentToLabOn
    case Some("Cancelled") => l.sentToLabOn
    case Some("Received") => l.receivedFromLabOn
    case Some("Fitted") => l.receivedFromLabOn
    case _ => l.sentToLabOn
  }

  /** The date chosen agrees with the defaulted status: completed orders
      are dated on return, the others on dispatch. */
  lemma StatusDateFollowsCompletion(l: LabWork)
    ensures Completed(l) ==> StatusDate(l) == l.receivedFromLabOn
    ensures !Completed(l) ==> StatusDate(l) == l.sentToLabOn
  {
  }

  /** `lab.labName || "Unspecified Lab"`. */
  function LabNameOf(l: LabWork): (s: string)
    ensures s != ""
  {
    if l.labName == "" then "Unspecified Lab" else l.labName
  }

  function Statuses(labs: seq<LabWork>): (r: seq<string>)
    ensures |r| == |labs| && forall i :: 0 <= i < |labs| ==> r[i] == StatusOf(labs[i])
  {
    if labs == [] then [] else [StatusOf(labs[0])] + Statuses(labs[1..])
  }

  function LabNames(labs: seq<LabWork>): (r: seq<string>)
    ensures |r| == |labs| && forall i :: 0 <= i < |labs| ==> r[i] == LabNameOf(labs[i])
  {
    if labs == [] then [] else [LabNameOf(labs[0])] + LabNames(labs[1..])
  }

  function OrderTypes(labs: seq<LabWork>): (r: seq<string>)
    ensures |r| == |labs| && forall i :: 0 <= i < |labs| ==> r[i] == labs[i].orderType
  {
    if labs == [] then [] else [labs[0].orderType] + OrderTypes(labs[1..])
  }

  /** A chart row: a name, its count and its share in whole per cent. */
  datatype Share = Share(name: string, count: int, percentage: int)

  /** `statusData` and the order of `labDistribution`: each counted name
      once, largest count first, with its share of `n` orders. */
  function Shares(names: seq<string>, n: nat): (r: seq<Share>)
    ensures |r| == |Tally.CountBy(names)|
    ensures forall i, j :: 0 <= i < j < |r| ==> r[i].count >= r[j].count && r[i].name != r[j].name
    ensures forall i :: 0 <= i < |r| ==>
      && r[i].name in names
      && r[i].count == Tally.Occurrences(names, r[i].name)
      && r[i].percentage == Stats.Percent(r[i].count, n)
    ensures forall k :: k in names ==> exists i :: 0 <= i < |r| && r[i].name == k
  {
    var ranked := Ranking.Ranked(names);
    var r := SharesOf(ranked, n);
    forall i, j | 0 <= i < j < |r| ensures r[i].count >= r[j].count && r[i].name != r[j].name {
      assert ranked[i].1 >= ranked[j].1 && ranked[i].0 != ranked[j].0;
    }
    forall k | k in names ensures exists i :: 0 <= i < |r| && r[i].name == k {
      var i :| 0 <= i < |ranked| && ranked[i].0 == k;
      assert r[i].name == k;
    }
    r
  }

  /** One chart row per ranked entry, in order. */
  function SharesOf(ranked: seq<(string, int)>, n: nat): (r: seq<Share>)
    ensures |r| == |ranked|
    ensures forall i :: 0 <= i < |r| ==>
      r[i].name == ranked[i].0 && r[i].count == ranked[i].1 && r[i].percentage == Stats.Percent(ranked[i].1, n)
  {
    if ranked == [] then []
    else [Share(ranked[0].0, ranked[0].1, Stats.Percent(ranked[0].1, n))] + SharesOf(ranked[1..], n)
  }

  /** The status counts add up to the number of orders, and a status is
      charted exactly when some order has it. */
  lemma StatusCountsCoverOrders(labs: seq<LabWork>, status: string)
    ensures Tally.Total(Tally.CountBy(Statuses(labs))) == |labs|
    ensures (exists i :: 0 <= i < |Shares(Statuses(labs), |labs|)| && Shares(Statuses(labs), |labs|)[i].name == status)
      <==> exists j :: 0 <= j < |labs| && StatusOf(labs[j]) == status
  {
    var st := Statuses(labs);
    Ranking.CountsMeaning(st, status);
    var sh := Shares(st, |labs|);
    assert (exists i :: 0 <= i < |sh| && sh[i].name == status) <==> status in st;
    if status in st {
      var j :| 0 <= j < |st| && st[j] == status;
      assert StatusOf(labs[j]) == status;
    }
  }

  /** `completionRate` before rounding: the percentage of completed
      orders, 0 for no orders. */
  function CompletionRate(labs: seq<LabWork>): (r: real)
    ensures 0.0 <= r <= 100.0
    ensures labs != [] ==> (r == 100.0 <==> forall i :: 0 <= i < |labs| ==> Completed(labs[i]))
    ensures labs != [] ==> (r == 0.0 <==> forall i :: 0 <= i < |labs| ==> !Completed(labs[i]))
  {
    CountExtremes(labs);
    Stats.Rate(Lists.Count(labs, Completed), |labs|)
  }

  lemma {:induction false} CountExtremes(labs: seq<LabWork>)
    ensures Lists.Count(labs, Completed) == |labs| <==> forall i :: 0 <= i < |labs| ==> Completed(labs[i])
    ensures Lists.Count(labs, Completed) == 0 <==> forall i :: 0 <= i < |labs| ==> !Completed(labs[i])
  {
    if labs != [] {
      CountExtremes(labs[1..]);
      assert forall i :: 0 < i < |labs| ==> labs[i] == labs[1..][i - 1];
    }
  }

  predicate HasBothDates(l: LabWork) {
    l.sentToLabOn.Some? && l.receivedFromLabOn.Some?
  }

  /** `differenceInCalendarDays(receivedDate, sentDate)`. */
  function Turnaround(l: LabWork): int
    requires HasBothDates(l)
  {
    l.receivedFromLabOn.value - l.sentToLabOn.value
  }

  /** The turnaround of an order that has both dates. */
  function TurnaroundOf(l: LabWork): Option<int> {
    if HasBothDates(l) then Some(Turnaround(l)) else None
  }

  /** `processingTimes`: the turnaround in calendar days of every order
      with both dates, in order: entry i belongs to the i-th such order. */
  function ProcessingDays(labs: seq<LabWork>): (r: seq<int>)
    ensures |r| == Lists.Count(labs, HasBothDates)
    ensures Lists.MapsOnto(Lists.Filter(labs, HasBothDates), TurnaroundOf, r)
  {
    if labs == [] then []
    else
      var rest := ProcessingDays(labs[1..]);
      var r := if HasBothDates(labs[0]) then [Turnaround(labs[0])] + rest else rest;
      Lists.FilterMapStep(labs, HasBothDates, TurnaroundOf, rest, r);
      r
  }

  const BinLabels: seq<string> := ["0-3", "4-7", "8-14", "15-21", "22-30", "31+"]

  /** The bin of a turnaround: up to 3, 7, 14, 21, 30 days, or more. */
  function Bin(d: int): (b: nat)
    ensures b < 6
    ensures b == 0 <==> d <= 3
    ensures b == 5 <==> d > 30
    ensures 0 < b < 5 ==> [3, 7, 14, 21, 30][b - 1] < d <= [3, 7, 14, 21, 30][b]
  {
    if d <= 3 then 0 else if d <= 7 then 1 else if d <= 14 then 2
    else if d <= 21 then 3 else if d <= 30 then 4 else 5
  }

  function InBin(b: nat): int -> bool {
    (d: int) => Bin(d) == b
  }

  /** `processingTimeBins`: the number of turnarounds in each bin. */
  function Bins(days: seq<int>): (r: seq<nat>)
    ensures |r| == 6
    ensures forall b :: 0 <= b < 6 ==> r[b] == Lists.Count(days, InBin(b))
  {
    seq(6, b requires 0 <= b < 6 => Lists.Count(days, InBin(b)))
  }

  /** Every turnaround falls in exactly one bin: the bins add up to the
      number of turnarounds. */
  lemma {:induction false} BinsCoverAll(days: seq<int>)
    ensures var r := Bins(days); r[0] + r[1] + r[2] + r[3] + r[4] + r[5] == |days|
  {
    if days != [] {
      BinsCoverAll(days[1..]);
      var r := Bins(days);
      var q := Bins(days[1..]);
      var b := Bin(days[0]);
      forall c | 0 <= c < 6 ensures r[c] == q[c] + (if c == b then 1 else 0) {
        assert InBin(c)(days[0]) <==> c == b;
      }
    }
  }

  /** A row of `processingTimeAnalysis`; only the second bin, "4-7", has
      a target (65). */
  datatype BinRow = BinRow(bin: string, count: int, percentage: int, target: int)

  function ProcessingTimeAnalysis(labs: seq<LabWork>): (r: seq<BinRow>)
    ensures |r| == 6
    ensures forall b :: 0 <= b < 6 ==>
      var days := ProcessingDays(labs);
      && r[b].bin == BinLabels[b]
      && r[b].count == Lists.Count(days, InBin(b))
      && r[b].percentage == Stats.Percent(r[b].count, |days|)
      && (r[b].target == 65 <==> b == 1)
  {
    var days := ProcessingDays(labs);
    var c := Bins(days);
    seq(6, b requires 0 <= b < 6 => BinRow(BinLabels[b], c[b], Stats.Percent(c[b], |days|), if b == 1 then 65 else 0))
  }

  function OnTime(): int -> bool {
    (d: int) => d <= 7
  }

  /** `onTimeRate` before rounding: the percentage of turnarounds of at
      most seven days, 0 when none is known. */
  function OnTimeRate(days: seq<int>): (r: real)
    ensures Stats.IsRateOf(r, Lists.Count(days, OnTime()), |days|)
    ensures 0.0 <= r <= 100.0
  {
    Stats.Rate(Lists.Count(days, OnTime()), |days|)
  }

  /** The on-time orders are exactly those of the first two bins. */
  lemma {:induction false} OnTimeIsFirstTwoBins(days: seq<int>)
    ensures Lists.Count(days, OnTime()) == Bins(days)[0] + Bins(days)[1]
  {
    if days != [] {
      OnTimeIsFirstTwoBins(days[1..]);
      assert OnTime()(days[0]) <==> InBin(0)(days[0]) || InBin(1)(days[0]);
    }
  }

  /** `avgProcessingTime` and `medianProcessingTime` (before rounding). */
  function AverageTurnaround(labs: seq<LabWork>): (m: real)
    ensures Stats.IsMeanOf(m, ProcessingDays(labs))
  {
    Stats.Mean(ProcessingDays(labs))
  }

  function MedianTurnaround(labs: seq<LabWork>): (m: real)
    ensures ProcessingDays(labs) == [] ==> m == 0.0
    ensures var days := ProcessingDays(labs);
      days != [] ==> 2 * Stats.AtMost(days, m) >= |days| && 2 * Stats.AtLeast(days, m) >= |days|
    ensures var days := ProcessingDays(labs);
      days != [] ==> m == Stats.Middle(Stats.SortAscending(days))
  {
    Stats.Median(ProcessingDays(labs))
  }

  /** `calculateOrderTypeAvgTime` before rounding: the mean turnaround of
      the orders of one type. */
  function OrderTypeTurnaround(labs: seq<LabWork>, orderType: string): (m: real)
    ensures var days := ProcessingDays(Lists.Filter(labs, (l: LabWork) => l.orderType == orderType));
      Stats.IsMeanOf(m, days)
  {
    Stats.Mean(ProcessingDays(Lists.Filter(labs, (l: LabWork) => l.orderType == orderType)))
  }

  /** `calculateLabTurnaround` as written: it selects orders by their raw
      `labName`, while the distribution it annotates groups unnamed orders
      under "Unspecified Lab". */
  function LabTurnaroundAsWritten(labs: seq<LabWork>, labName: string): real {
    Stats.Mean(ProcessingDays(Lists.Filter(labs, (l: LabWork) => l.labName == labName)))
  }

  /** The turnaround of a distribution entry, selecting orders by the name
      the distribution shows. */
  function LabTurnaround(labs: seq<LabWork>, labName: string): (m: real)
    ensures var days := ProcessingDays(Lists.Filter(labs, (l: LabWork) => LabNameOf(l) == labName));
      Stats.IsMeanOf(m, days)
  {
    Stats.Mean(ProcessingDays(Lists.Filter(labs, (l: LabWork) => LabNameOf(l) == labName)))
  }

  /** One unnamed order returned after five days: the distribution lists it
      under "Unspecified Lab" with a turnaround of 0 as written, 5 when the
      orders are selected by the shown name. */
  lemma UnspecifiedLabTurnaround()
    ensures var labs := [LabWork(Some("Received"), "Crown", "", Some(10), Some(15))];
      && LabNames(labs) == ["Unspecified Lab"]
      && LabTurnaroundAsWritten(labs, "Unspecified Lab") == 0.0
      && LabTurnaround(labs, "Unspecified Lab") == 5.0
  {
    var labs := [LabWork(Some("Received"), "Crown", "", Some(10), Some(15))];
    assert Lists.Filter(labs, (l: LabWork) => l.labName == "Unspecified Lab") == [];
    assert Lists.Filter(labs, (l: LabWork) => LabNameOf(l) == "Unspecified Lab") == labs;
    assert ProcessingDays(labs) == [5];
  }

  /** `calculateOrderTypeProfitability`: the benchmark table, 70 otherwise. */
  function Profitability(orderType: string): (r: int)
    ensures r == 70 <==> orderType !in ["Crown", "Bridge", "Denture", "Aligner", "Implant", "Inlay/Onlay", "Veneer", "Others"]
  {
    match orderType
    case "Crown" => 78
    case "Bridge" => 82
    case "Denture" => 65
    case "Aligner" => 92
    case "Implant" => 85
    case "Inlay/Onlay" => 75
    case "Veneer" => 88
    case "Others" => 60
    case _ => 70
  }

  const RatedLabs: seq<string> := ["DentalWorks Inc.", "Precision Dental Labs", "Crown Specialists", "OrthoLab Pro"]

  /** `calculateLabQualityRating`: the table, 85 otherwise. */
  function QualityRating(labName: string): (r: int)
    ensures r == 85 <==> labName !in RatedLabs
  {
    match labName
    case "DentalWorks Inc." => 94
    case "Precision Dental Labs" => 88
    case "Crown Specialists" => 91
    case "OrthoLab Pro" => 86
    case _ => 85
  }

  /** `calculateLabReworkRate`: the table, 8 otherwise. */
  function ReworkRate(labName: string): (r: int)
    ensures r == 8 <==> labName !in RatedLabs
  {
    match labName
    case "DentalWorks Inc." => 3
    case "Precision Dental Labs" => 7
    case "Crown Specialists" => 4
    case "OrthoLab Pro" => 9
    case _ => 8
  }

  /** The (month, status) items `statusOverTime` accumulates, as written:
      one at the month of the status date, and a second at the month of
      return for every order with both dates. */
  function MonthItemsAsWritten(labs: seq<LabWork>, monthOf: int -> string): (r: seq<((string, string), int)>)
    ensures |r| == Lists.Count(labs, (l: LabWork) => StatusDate(l).Some?) + Lists.Count(labs, HasBothDates)
  {
    if labs == [] then []
    else AsWrittenItems(labs[0], monthOf) + MonthItemsAsWritten(labs[1..], monthOf)
  }

  /** One item per dated order, at the month of its status date. */
  function MonthItems(labs: seq<LabWork>, monthOf: int -> string): (r: seq<((string, string), int)>)
    ensures |r| == Lists.Count(labs, (l: LabWork) => StatusDate(l).Some?)
  {
    if labs == [] then []
    else
      var l := labs[0];
      (if StatusDate(l).Some? then [((monthOf(StatusDate(l).value), StatusOf(l)), 1)] else [])
      + MonthItems(labs[1..], monthOf)
  }

  lemma {:induction false} OnesTotal(items: seq<((string, string), int)>)
    requires forall i :: 0 <= i < |items| ==> items[i].1 == 1
    ensures Tally.Total(items) == |items|
  {
    if items != [] {
      OnesTotal(items[..|items| - 1]);
    }
  }

  lemma {:induction false} MonthItemsOnes(labs: seq<LabWork>, monthOf: int -> string)
    ensures forall i :: 0 <= i < |MonthItems(labs, monthOf)| ==> MonthItems(labs, monthOf)[i].1 == 1
  {
    if labs != [] {
      MonthItemsOnes(labs[1..], monthOf);
    }
  }

  /** `statusOverTime` with each dated order counted once: the counts over
      all months and statuses add up to the number of dated orders. */
  function StatusOverTime(labs: seq<LabWork>, monthOf: int -> string): (r: Tally.Tally<(string, string)>)
    ensures Tally.DistinctKeys(r)
    ensures Tally.Total(r) == Lists.Count(labs, (l: LabWork) => StatusDate(l).Some?)
    ensures forall key :: Tally.Get(r, key) == Lists.Count(labs, DatedIn(monthOf, key))
  {
    var items := MonthItems(labs, monthOf);
    MonthItemsOnes(labs, monthOf);
    OnesTotal(items);
    Tally.TallyOfTotal(items);
    forall key ensures Tally.Get(Tally.TallyOf(items), key) == Lists.Count(labs, DatedIn(monthOf, key)) {
      Tally.TallyOfGet(items, key);
      MonthItemsSum(labs, monthOf, key);
    }
    Tally.TallyOf(items)
  }

  /** `statusOverTime` as written: under each (month, status) the orders of
      that status dated in that month, plus those of that status with both
      dates that came back in that month. */
  function StatusOverTimeAsWritten(labs: seq<LabWork>, monthOf: int -> string): (r: Tally.Tally<(string, string)>)
    ensures Tally.DistinctKeys(r)
    ensures forall key ::
      Tally.Get(r, key) == Lists.Count(labs, DatedIn(monthOf, key)) + Lists.Count(labs, ReturnedInMonth(monthOf, key))
  {
    var items := MonthItemsAsWritten(labs, monthOf);
    forall key ensures Tally.Get(Tally.TallyOf(items), key)
      == Lists.Count(labs, DatedIn(monthOf, key)) + Lists.Count(labs, ReturnedInMonth(monthOf, key))
    {
      Tally.TallyOfGet(items, key);
      MonthItemsAsWrittenSum(labs, monthOf, key);
    }
    Tally.TallyOf(items)
  }

  /** The orders of status `key.1` whose status date falls in month `key.0`. */
  function DatedIn(monthOf: int -> string, key: (string, string)): LabWork -> bool {
    (l: LabWork) => StatusDate(l).Some? && monthOf(StatusDate(l).value) == key.0 && StatusOf(l) == key.1
  }

  /** The orders of status `key.1` with both dates that came back in month `key.0`. */
  function ReturnedInMonth(monthOf: int -> string, key: (string, string)): LabWork -> bool {
    (l: LabWork) => HasBothDates(l) && monthOf(l.receivedFromLabOn.value) == key.0 && StatusOf(l) == key.1
  }

  /** The amount under `key` of at most one unit item. */
  lemma UnitSum(item: seq<((string, string), int)>, key: (string, string), k: (string, string), b: bool)
    requires item == if b then [(k, 1)] else []
    ensures Tally.SumFor(item, key) == if b && k == key then 1 else 0
  {
    if b {
      assert item[..0] == [];
    }
  }

  lemma {:induction false} MonthItemsSum(labs: seq<LabWork>, monthOf: int -> string, key: (string, string))
    ensures Tally.SumFor(MonthItems(labs, monthOf), key) == Lists.Count(labs, DatedIn(monthOf, key))
  {
    if labs != [] {
      var l := labs[0];
      var head := if StatusDate(l).Some? then [((monthOf(StatusDate(l).value), StatusOf(l)), 1)] else [];
      var rest := MonthItems(labs[1..], monthOf);
      assert MonthItems(labs, monthOf) == head + rest;
      Tally.SumForAppend(head, rest, key);
      UnitSum(head, key, (monthOf(StatusDate(l).GetOr(0)), StatusOf(l)), StatusDate(l).Some?);
      MonthItemsSum(labs[1..], monthOf, key);
    }
  }

  lemma {:induction false} MonthItemsAsWrittenSum(labs: seq<LabWork>, monthOf: int -> string, key: (string, string))
    ensures Tally.SumFor(MonthItemsAsWritten(labs, monthOf), key)
      == Lists.Count(labs, DatedIn(monthOf, key)) + Lists.Count(labs, ReturnedInMonth(monthOf, key))
  {
    if labs != [] {
      var l := labs[0];
      var head := AsWrittenItems(l, monthOf);
      var rest := MonthItemsAsWritten(labs[1..], monthOf);
      Tally.SumForAppend(head, rest, key);
      AsWrittenItemsSum(l, monthOf, key);
      MonthItemsAsWrittenSum(labs[1..], monthOf, key);
    }
  }

  /** The items one order adds as written. */
  function AsWrittenItems(l: LabWork, monthOf: int -> string): seq<((string, string), int)> {
    (if StatusDate(l).Some? then [((monthOf(StatusDate(l).value), StatusOf(l)), 1)] else [])
    + (if HasBothDates(l) then [((monthOf(l.receivedFromLabOn.value), StatusOf(l)), 1)] else [])
  }

  lemma AsWrittenItemsSum(l: LabWork, monthOf: int -> string, key: (string, string))
    ensures Tally.SumFor(AsWrittenItems(l, monthOf), key)
      == (if DatedIn(monthOf, key)(l) then 1 else 0) + (if ReturnedInMonth(monthOf, key)(l) then 1 else 0)
  {
    var first := if StatusDate(l).Some? then [((monthOf(StatusDate(l).value), StatusOf(l)), 1)] else [];
    var second := if HasBothDates(l) then [((monthOf(l.receivedFromLabOn.value), StatusOf(l)), 1)] else [];
    Tally.SumForAppend(first, second, key);
    UnitSum(first, key, (monthOf(StatusDate(l).GetOr(0)), StatusOf(l)), StatusDate(l).Some?);
    UnitSum(second, key, (monthOf(l.receivedFromLabOn.GetOr(0)), StatusOf(l)), HasBothDates(l));
  }

  /** One received order: as written its month shows two "Received"
      orders; counted once, one. */
  lemma ReceivedOrderCountedTwice(monthOf: int -> string)
    ensures var labs := [LabWork(Some("Received"), "Crown", "Lab", Some(1), Some(9))];
      var key := (monthOf(9), "Received");
      && Tally.Get(StatusOverTimeAsWritten(labs, monthOf), key) == 2
      && Tally.Get(StatusOverTime(labs, monthOf), key) == 1
  {
    var labs := [LabWork(Some("Received"), "Crown", "Lab", Some(1), Some(9))];
    var key := (monthOf(9), "Received");
    ReceivedOrderItems(labs, monthOf);
    Tally.TallyOfGet(MonthItemsAsWritten(labs, monthOf), key);
    Tally.TallyOfGet(MonthItems(labs, monthOf), key);
    assert Tally.SumFor([(key, 1), (key, 1)], key) == 2 by {
      assert [(key, 1), (key, 1)][..1] == [(key, 1)];
    }
  }

  lemma ReceivedOrderItems(labs: seq<LabWork>, monthOf: int -> string)
    requires labs == [LabWork(Some("Received"), "Crown", "Lab", Some(1), Some(9))]
    ensures MonthItemsAsWritten(labs, monthOf) == [((monthOf(9), "Received"), 1), ((monthOf(9), "Received"), 1)]
    ensures MonthItems(labs, monthOf) == [((monthOf(9), "Received"), 1)]
  {
    assert StatusDate(labs[0]) == Some(9);
    assert StatusOf(labs[0]) == "Received";
    assert labs[1..] == [];
  }

  /** The orders with both dates returned in week `w`. */
  function ReturnedIn(weekOf: int -> string, w: string): LabWork -> bool {
    (l: LabWork) => HasBothDates(l) && weekOf(l.receivedFromLabOn.value) == w
  }

  /** `weeklyDeliveries`: one delivery per order with both dates, filed
      under the ISO week of its return. A week is listed exactly when some
      order came back in it, and its count is the number of such orders. */
  function WeeklyDeliveries(labs: seq<LabWork>, weekOf: int -> string): (r: Tally.Tally<string>)
    ensures Tally.DistinctKeys(r)
    ensures Tally.Total(r) == Lists.Count(labs, HasBothDates)
    ensures forall w :: Tally.Get(r, w) == Lists.Count(labs, ReturnedIn(weekOf, w))
    ensures forall w :: w in Tally.Keys(r) <==> Lists.Count(labs, ReturnedIn(weekOf, w)) > 0
  {
    var weeks := ReturnWeeks(labs, weekOf);
    Tally.CountByMeaning(weeks, "");
    forall w ensures Tally.Get(Tally.CountBy(weeks), w) == Lists.Count(labs, ReturnedIn(weekOf, w))
      && (w in Tally.Keys(Tally.CountBy(weeks)) <==> Lists.Count(labs, ReturnedIn(weekOf, w)) > 0)
    {
      Tally.CountByMeaning(weeks, w);
      ReturnWeeksCount(labs, weekOf, w);
      Tally.CountByKeys(weeks, w);
      Tally.OccurrencesPositive(weeks, w);
    }
    Tally.CountBy(weeks)
  }

  /** The week of return of every order with both dates, in order. */
  function ReturnWeeks(labs: seq<LabWork>, weekOf: int -> string): (r: seq<string>)
    ensures |r| == Lists.Count(labs, HasBothDates)
  {
    if labs == [] then []
    else if HasBothDates(labs[0]) then [weekOf(labs[0].receivedFromLabOn.value)] + ReturnWeeks(labs[1..], weekOf)
    else ReturnWeeks(labs[1..], weekOf)
  }

  lemma {:induction false} ReturnWeeksCount(labs: seq<LabWork>, weekOf: int -> string, w: string)
    ensures Tally.Occurrences(ReturnWeeks(labs, weekOf), w) == Lists.Count(labs, ReturnedIn(weekOf, w))
  {
    if labs != [] {
      ReturnWeeksCount(labs[1..], weekOf, w);
      if HasBothDates(labs[0]) {
        Tally.OccurrencesPrepend(weekOf(labs[0].receivedFromLabOn.value), ReturnWeeks(labs[1..], weekOf), w);
      }
    }
  }

  /** The week's entry of a tally entry: its count is the week's count. */
  lemma WeekEntry(labs: seq<LabWork>, weekOf: int -> string, e: (string, int))
    requires e in WeeklyDeliveries(labs, weekOf)
    ensures e.1 == Lists.Count(labs, ReturnedIn(weekOf, e.0)) > 0
  {
    var t := WeeklyDeliveries(labs, weekOf);
    var k :| 0 <= k < |t| && t[k] == e;
    Tally.GetOfEntry(t, k);
    assert e.0 in Tally.Keys(t) by {
      assert Tally.Keys(t)[k] == e.0;
    }
  }

  /** The start of the `i`-th four-week window: `Math.max(0, i - 3)`. */
  function WindowStart(i: nat): (s: nat)
    ensures s <= i && i - s <= 3
  {
    if i >= 3 then i - 3 else 0
  }

  /** `movingAverage` before rounding: the mean of the delivery counts of
      the week and the up to three weeks before it. */
  function MovingAverages(counts: seq<int>): (r: seq<real>)
    ensures |r| == |counts|
    ensures forall i :: 0 <= i < |r| ==>
      r[i] * ((i + 1 - WindowStart(i)) as real) == Stats.Sum(counts[WindowStart(i)..i + 1]) as real
  {
    seq(|counts|, i requires 0 <= i < |counts| =>
      Stats.Sum(counts[WindowStart(i)..i + 1]) as real / ((i + 1 - WindowStart(i)) as real))
  }

  /** Steady deliveries give a flat moving average. */
  lemma SteadyDeliveries(counts: seq<int>, c: int)
    requires forall i :: 0 <= i < |counts| ==> counts[i] == c
    ensures forall i :: 0 <= i < |counts| ==> MovingAverages(counts)[i] == c as real
  {
    forall i | 0 <= i < |counts| ensures MovingAverages(counts)[i] == c as real {
      var w := counts[WindowStart(i)..i + 1];
      SumOfConstant(w, c);
    }
  }

  lemma {:induction false} SumOfConstant(xs: seq<int>, c: int)
    requires forall i :: 0 <= i < |xs| ==> xs[i] == c
    ensures Stats.Sum(xs) == |xs| * c
  {
    if xs != [] {
      SumOfConstant(xs[1..], c);
    }
  }

  /** `forecastedVolume` before rounding: 10% over the last moving average,
      0 without deliveries. */
  function ForecastedVolume(counts: seq<int>): (f: real)
    ensures counts == [] ==> f == 0.0
    ensures counts != [] ==> f == MovingAverages(counts)[|counts| - 1] * 1.1
  {
    if counts == [] then 0.0 else MovingAverages(counts)[|counts| - 1] * 1.1
  }

  /** `deliveryEntries`: the weekly counts sorted by the first day of
      their week, `weekStart` reading a week label's first day. */
  function WeekEntries(labs: seq<LabWork>, weekOf: int -> string, weekStart: string -> int): (r: seq<(string, int)>)
    ensures multiset(r) == multiset(WeeklyDeliveries(labs, weekOf))
    ensures forall i, j :: 0 <= i < j < |r| ==> weekStart(r[i].0) <= weekStart(r[j].0)
  {
    var key := (e: (string, int)) => Sorting.Num(weekStart(e.0));
    var r := Sorting.SortBy(WeeklyDeliveries(labs, weekOf), key, false);
    assert forall i, j :: 0 <= i < j < |r| ==> Sorting.InOrder(key(r[i]), key(r[j]), false);
    r
  }

  /** The delivery counts in week order: one count per week with a
      return, each the number of orders returned that week, the weeks'
      first days ascending. */
  function WeekCounts(labs: seq<LabWork>, weekOf: int -> string, weekStart: string -> int): (r: seq<int>)
    ensures |r| == |WeeklyDeliveries(labs, weekOf)|
    ensures var e := WeekEntries(labs, weekOf, weekStart);
      && |e| == |r|
      && (forall i :: 0 <= i < |r| ==> r[i] == Lists.Count(labs, ReturnedIn(weekOf, e[i].0)) > 0)
      && (forall i, j :: 0 <= i < j < |r| ==> weekStart(e[i].0) <= weekStart(e[j].0))
  {
    var e := WeekEntries(labs, weekOf, weekStart);
    WeekEntriesCount(labs, weekOf, weekStart);
    seq(|e|, i requires 0 <= i < |e| => e[i].1)
  }

  lemma WeekEntriesCount(labs: seq<LabWork>, weekOf: int -> string, weekStart: string -> int)
    ensures var e := WeekEntries(labs, weekOf, weekStart);
      && |e| == |WeeklyDeliveries(labs, weekOf)|
      && forall i :: 0 <= i < |e| ==> e[i].1 == Lists.Count(labs, ReturnedIn(weekOf, e[i].0)) > 0
  {
    var t := WeeklyDeliveries(labs, weekOf);
    var e := WeekEntries(labs, weekOf, weekStart);
    assert |e| == |multiset(e)| == |multiset(t)| == |t|;
    forall i | 0 <= i < |e| ensures e[i].1 == Lists.Count(labs, ReturnedIn(weekOf, e[i].0)) > 0 {
      assert e[i] in multiset(t);
      WeekEntry(labs, weekOf, e[i]);
    }
  }

  /** `statsSummary`; all zero for no orders. */
  datatype Summary = Summary(
    totalOrders: nat,
    avgProcessingTime: real,
    medianProcessingTime: real,
    onTimeRate: real,
    completionRate: real,
    forecastedVolume: real)

  function Summarize(labs: seq<LabWork>, weekOf: int -> string, weekStart: string -> int): (r: Summary)
    ensures labs == [] ==> r == Summary(0, 0.0, 0.0, 0.0, 0.0, 0.0)
    ensures labs != [] ==>
      && r.totalOrders == |labs|
      && r.avgProcessingTime == AverageTurnaround(labs)
      && r.medianProcessingTime == MedianTurnaround(labs)
      && r.onTimeRate == OnTimeRate(ProcessingDays(labs))
      && 0.0 <= r.completionRate <= 100.0
      && r.completionRate == CompletionRate(labs)
      && r.forecastedVolume == ForecastedVolume(WeekCounts(labs, weekOf, weekStart))
  {
    if labs == [] then Summary(0, 0.0, 0.0, 0.0, 0.0, 0.0)
    else
      Summary(|labs|, AverageTurnaround(labs), MedianTurnaround(labs), OnTimeRate(ProcessingDays(labs)),
              CompletionRate(labs), ForecastedVolume(WeekCounts(labs, weekOf, weekStart)))
  }
}
