/** The billing analytics screen (`src/app/components/doctor/BillingAnalytics.tsx`):
    bills per patient, the frequency statistics, the search over patients,
    the cohorts and tiers by number of bills, and the growth rate. */
module BillingAnalytics {

  import opened Wrappers
  import Text
  import Lists
  import Tally
  import Stats
  import Ranking

  /** A bill: the patient it was issued to and its date as a timestamp. */
  datatype Bill = Bill(patientId: string, date: int)

  /** A patient as the screen looks them up: by printed id. */
  datatype Patient = Patient(patientCode: string, fullName: string)

  datatype PatientRow = PatientRow(patientId: string, name: string, count: int, lastBillingDate: Option<int>)

  function PatientIds(bills: seq<Bill>): (r: seq<string>)
    ensures |r| == |bills| && forall i :: 0 <= i < |bills| ==> r[i] == bills[i].patientId
  {
    if bills == [] then [] else [bills[0].patientId] + PatientIds(bills[1..])
  }

  /** The name shown: that of the first patient whose printed id is the
      bill's patient id, or the id itself. */
  function NameFor(patients: seq<Patient>, id: string): (r: string)
    ensures (forall i :: 0 <= i < |patients| ==> patients[i].patientCode != id) ==> r == id
    ensures forall i :: (0 <= i < |patients| && patients[i].patientCode == id &&
      (forall j :: 0 <= j < i ==> patients[j].patientCode != id)) ==> r == patients[i].fullName
  {
    if patients == [] then id
    else if patients[0].patientCode == id then patients[0].fullName
    else
      var r := NameFor(patients[1..], id);
      NameForTail(patients, id, r);
      r
  }

  /** When the first patient does not match, the tail's answer is the
      answer. */
  lemma NameForTail(patients: seq<Patient>, id: string, r: string)
    requires patients != [] && patients[0].patientCode != id
    requires var tail := patients[1..];
      && ((forall i :: 0 <= i < |tail| ==> tail[i].patientCode != id) ==> r == id)
      && (forall i :: (0 <= i < |tail| && tail[i].patientCode == id &&
            (forall j :: 0 <= j < i ==> tail[j].patientCode != id)) ==> r == tail[i].fullName)
    ensures (forall i :: 0 <= i < |patients| ==> patients[i].patientCode != id) ==> r == id
    ensures forall i :: (0 <= i < |patients| && patients[i].patientCode == id &&
      (forall j :: 0 <= j < i ==> patients[j].patientCode != id)) ==> r == patients[i].fullName
  {
    var tail := patients[1..];
    if forall i :: 0 <= i < |patients| ==> patients[i].patientCode != id {
      forall i | 0 <= i < |tail| ensures tail[i].patientCode != id {
        assert tail[i] == patients[i + 1];
      }
    }
    forall i | 0 <= i < |patients| && patients[i].patientCode == id &&
      (forall j :: 0 <= j < i ==> patients[j].patientCode != id)
      ensures r == patients[i].fullName
    {
      assert i >= 1 && tail[i - 1] == patients[i];
      forall j | 0 <= j < i - 1 ensures tail[j].patientCode != id {
        assert tail[j] == patients[j + 1];
      }
    }
  }

  /** The date of the patient's newest bill, if any. */
  function LastBillingDate(bills: seq<Bill>, id: string): (r: Option<int>)
    ensures r.None? <==> forall i :: 0 <= i < |bills| ==> bills[i].patientId != id
    ensures r.Some? ==> exists i :: 0 <= i < |bills| && bills[i].patientId == id && bills[i].date == r.value
    ensures r.Some? ==> forall i :: 0 <= i < |bills| && bills[i].patientId == id ==> bills[i].date <= r.value
  {
    if bills == [] then None
    else
      var rest := LastBillingDate(bills[1..], id);
      assert forall i :: 1 <= i < |bills| ==> bills[i] == bills[1..][i - 1];
      if bills[0].patientId != id then rest
      else if rest.None? || rest.value <= bills[0].date then Some(bills[0].date)
      else rest
  }

  /** `patientData`: one row per billed patient, most bills first. */
  function PatientData(bills: seq<Bill>, patients: seq<Patient>): (r: seq<PatientRow>)
    ensures |r| == |Tally.CountBy(PatientIds(bills))|
    ensures forall i, j :: 0 <= i < j < |r| ==> r[i].count >= r[j].count && r[i].patientId != r[j].patientId
    ensures forall i :: 0 <= i < |r| ==>
      && r[i].patientId in PatientIds(bills)
      && r[i].count == Tally.Occurrences(PatientIds(bills), r[i].patientId)
      && r[i].name == NameFor(patients, r[i].patientId)
      && r[i].lastBillingDate == LastBillingDate(bills, r[i].patientId)
    ensures forall b :: b in bills ==> exists i :: 0 <= i < |r| && r[i].patientId == b.patientId
  {
    var ids := PatientIds(bills);
    var ranked := Ranking.Ranked(ids);
    var r := seq(|ranked|, i requires 0 <= i < |ranked| =>
      PatientRow(ranked[i].0, NameFor(patients, ranked[i].0), ranked[i].1, LastBillingDate(bills, ranked[i].0)));
    forall b | b in bills ensures exists i :: 0 <= i < |r| && r[i].patientId == b.patientId {
      var i := BilledPatientRanked(bills, ranked, b);
      assert r[i].patientId == b.patientId;
    }
    r
  }

  lemma BilledPatientRanked(bills: seq<Bill>, ranked: seq<(string, int)>, b: Bill) returns (i: nat)
    requires ranked == Ranking.Ranked(PatientIds(bills)) && b in bills
    ensures i < |ranked| && ranked[i].0 == b.patientId
  {
    var ids := PatientIds(bills);
    var k :| 0 <= k < |bills| && bills[k] == b;
    assert ids[k] == b.patientId;
    assert b.patientId in ids;
    i :| 0 <= i < |ranked| && ranked[i].0 == b.patientId;
  }

  /** Every row counts at least one bill. */
  lemma RowsCountBills(bills: seq<Bill>, patients: seq<Patient>)
    ensures forall i :: 0 <= i < |PatientData(bills, patients)| ==> PatientData(bills, patients)[i].count >= 1
  {
    var r := PatientData(bills, patients);
    forall i | 0 <= i < |r| ensures r[i].count >= 1 {
      OccursOnce(PatientIds(bills), r[i].patientId);
    }
  }

  lemma {:induction false} OccursOnce<K(!new)>(keys: seq<K>, k: K)
    requires k in keys
    ensures Tally.Occurrences(keys, k) >= 1
  {
    var front := keys[..|keys| - 1];
    if keys[|keys| - 1] != k {
      assert k in front by {
        var i :| 0 <= i < |keys| && keys[i] == k;
        assert front[i] == k;
      }
      OccursOnce(front, k);
    }
  }

  function Counts(rows: seq<PatientRow>): (r: seq<int>)
    ensures |r| == |rows| && forall i :: 0 <= i < |rows| ==> r[i] == rows[i].count
  {
    if rows == [] then [] else [rows[0].count] + Counts(rows[1..])
  }

  function Above(threshold: real): int -> bool {
    (c: int) => c as real > threshold
  }

  /** How many patients have more bills than `threshold`. */
  function Exceeding(counts: seq<int>, threshold: real): nat {
    Lists.Count(counts, Above(threshold))
  }

  /** The high-frequency cut-off, one and a half times the mean. */
  function HighCutoff(avg: real): real { avg * 1.5 }

  /** The low-frequency cut-off, half the mean. */
  function LowCutoff(avg: real): real { avg * 0.5 }

  /** The frequency statistics; all 0 without bills. */
  datatype FrequencyStats = FrequencyStats(
    maxFrequency: int,
    minFrequency: int,
    avgFrequency: real,
    patientCount: nat,
    highFrequencyPatients: nat,
    mediumFrequencyPatients: nat,
    lowFrequencyPatients: nat)

  /** `stats`: the largest, smallest and mean number of bills per patient,
      and how many patients exceed 1.5, 1 and 0.5 times the mean. */
  function Frequencies(rows: seq<PatientRow>): (s: FrequencyStats)
    ensures s.patientCount == |rows|
    ensures rows == [] ==> s == FrequencyStats(0, 0, 0.0, 0, 0, 0, 0)
    ensures rows != [] ==>
      && (forall i :: 0 <= i < |rows| ==> s.minFrequency <= rows[i].count <= s.maxFrequency)
      && (exists i :: 0 <= i < |rows| && rows[i].count == s.maxFrequency)
      && (exists i :: 0 <= i < |rows| && rows[i].count == s.minFrequency)
      && s.minFrequency as real <= s.avgFrequency <= s.maxFrequency as real
    ensures Stats.IsMeanOf(s.avgFrequency, Counts(rows))
    ensures s.highFrequencyPatients == Exceeding(Counts(rows), HighCutoff(s.avgFrequency))
    ensures s.mediumFrequencyPatients == Exceeding(Counts(rows), s.avgFrequency)
    ensures s.lowFrequencyPatients == Exceeding(Counts(rows), LowCutoff(s.avgFrequency))
  {
    var cs := Counts(rows);
    var avg := Stats.Mean(cs);
    ExtremesAreRows(rows);
    FrequencyStats(Stats.Max(cs), Stats.Min(cs), avg, |rows|,
      Exceeding(cs, HighCutoff(avg)), Exceeding(cs, avg), Exceeding(cs, LowCutoff(avg)))
  }

  lemma ExtremesAreRows(rows: seq<PatientRow>)
    ensures var cs := Counts(rows);
      rows != [] ==>
        && (exists i :: 0 <= i < |rows| && rows[i].count == Stats.Max(cs))
        && (exists i :: 0 <= i < |rows| && rows[i].count == Stats.Min(cs))
        && Stats.Min(cs) as real <= Stats.Mean(cs) <= Stats.Max(cs) as real
  {
    var cs := Counts(rows);
    if cs != [] {
      Stats.MeanBetween(cs);
      var a :| 0 <= a < |cs| && cs[a] == Stats.Max(cs);
      var b :| 0 <= b < |cs| && cs[b] == Stats.Min(cs);
      assert rows[a].count == Stats.Max(cs) && rows[b].count == Stats.Min(cs);
    }
  }

  /** The three frequency counts are nested: every high-frequency patient
      is also a medium one, and every medium one a low one. */
  lemma FrequencyCountsNested(bills: seq<Bill>, patients: seq<Patient>)
    ensures var s := Frequencies(PatientData(bills, patients));
      s.highFrequencyPatients <= s.mediumFrequencyPatients <= s.lowFrequencyPatients <= s.patientCount
  {
    var rows := PatientData(bills, patients);
    var s := Frequencies(rows);
    var cs := Counts(rows);
    if rows != [] {
      RowsCountBills(bills, patients);
      assert s.minFrequency >= 1;
      assert s.avgFrequency >= 0.0;
    }
    Stats.CountMonotone(cs, Above(HighCutoff(s.avgFrequency)), Above(s.avgFrequency));
    Stats.CountMonotone(cs, Above(s.avgFrequency), Above(LowCutoff(s.avgFrequency)));
  }

  /** The patient search: everything for an empty query, otherwise the
      rows whose name or id contains it, ignoring case. */
  function Search(rows: seq<PatientRow>, query: string): (r: seq<PatientRow>)
    ensures query == "" ==> r == rows
    ensures query != "" ==> forall p :: p in r <==> (p in rows && Matches(p, query))
    ensures Lists.IsSubsequence(r, rows)
  {
    if query == "" then
      Lists.SubsequenceOfSelf(rows);
      rows
    else Lists.Filter(rows, (p: PatientRow) => Matches(p, query))
  }

  predicate Matches(p: PatientRow, query: string) {
    Text.ContainsIgnoringCase(p.name, query) || Text.ContainsIgnoringCase(p.patientId, query)
  }

  /** The four bands of bills per patient the cohort chart and the tier
      column share. */
  datatype Band = TenPlus | FiveToNine | ThreeToFour | OneToTwo

  /** A patient's band by number of bills. */
  function BandOf(count: int): Band {
    if count >= 10 then TenPlus else if count >= 5 then FiveToNine else if count >= 3 then ThreeToFour else OneToTwo
  }

  /** The cohort label of a band. */
  function Cohort(b: Band): string {
    match b
    case TenPlus => "10+"
    case FiveToNine => "5-9"
    case ThreeToFour => "3-4"
    case OneToTwo => "1-2"
  }

  /** The tier shown in the patient table. */
  function Tier(b: Band): string {
    match b
    case TenPlus => "VIP"
    case FiveToNine => "Frequent"
    case ThreeToFour => "Regular"
    case OneToTwo => "Occasional"
  }

  /** The leading number of a cohort label, as `parseInt` reads it. */
  function Lead(b: Band): int {
    match b
    case TenPlus => 10
    case FiveToNine => 5
    case ThreeToFour => 3
    case OneToTwo => 1
  }

  /** Bands in the order the chart sorts them, largest leading number first. */
  const Bands: seq<Band> := [TenPlus, FiveToNine, ThreeToFour, OneToTwo]

  /** A band is the one of every count between its leading number and the
      next band's, labels and tiers tell bands apart, and the chart order is
      by leading number, descending. */
  lemma BandsMeaning(count: int, b: Band, c: Band)
    ensures BandOf(count) == TenPlus <==> count >= 10
    ensures BandOf(count) == OneToTwo <==> count < 3
    ensures count >= 1 ==> Lead(BandOf(count)) <= count
    ensures Cohort(b) == Cohort(c) <==> b == c
    ensures Tier(b) == Tier(c) <==> b == c
    ensures forall i, j :: 0 <= i < j < |Bands| ==> Lead(Bands[i]) > Lead(Bands[j])
  {
  }

  function BandsOf(rows: seq<PatientRow>): (r: seq<Band>)
    ensures |r| == |rows| && forall i :: 0 <= i < |rows| ==> r[i] == BandOf(rows[i].count)
  {
    if rows == [] then [] else [BandOf(rows[0].count)] + BandsOf(rows[1..])
  }

  /** A chart row: a cohort, its number of patients and its share. */
  datatype CohortRow = CohortRow(band: Band, patients: int, percentage: real)

  /** `patientCohorts`: the non-empty cohorts, largest leading number
      first, each with its number of patients and its percentage. */
  function Cohorts(rows: seq<PatientRow>): (r: seq<CohortRow>)
    ensures forall i :: 0 <= i < |r| ==>
      && r[i].patients == Tally.Occurrences(BandsOf(rows), r[i].band) > 0
      && Stats.IsRateOf(r[i].percentage, r[i].patients, |rows|)
    ensures forall i :: 0 <= i < |rows| ==> HasRow(r, BandOf(rows[i].count))
    ensures InBandOrder(r)
  {
    var bs := BandsOf(rows);
    CohortRowsFromOrdered(0, bs, |rows|);
    EveryBandListed(bs, |rows|);
    CohortRowsFrom(0, bs, |rows|)
  }

  /** The chart lists the cohorts by leading number, largest first, as the
      sort on `parseInt` of the label orders them. */
  lemma CohortsByLead(rows: seq<PatientRow>)
    ensures var r := Cohorts(rows);
      forall i, j :: 0 <= i < j < |r| ==> Lead(r[i].band) > Lead(r[j].band)
  {
    LeadOrdered(Cohorts(rows));
  }

  lemma EveryBandListed(bs: seq<Band>, total: nat)
    ensures forall i :: 0 <= i < |bs| ==> HasRow(CohortRowsFrom(0, bs, total), bs[i])
  {
    forall i | 0 <= i < |bs| ensures HasRow(CohortRowsFrom(0, bs, total), bs[i]) {
      OccursOnce(bs, bs[i]);
      PositionOf(bs[i]);
      CohortRowsFromComplete(0, bs, total, Position(bs[i]));
    }
  }

  /** Rows listed in the order of `Bands`, each band at most once. */
  predicate InBandOrder(r: seq<CohortRow>) {
    forall i, j :: 0 <= i < j < |r| ==> Position(r[i].band) < Position(r[j].band)
  }

  /** Some chart row is for band `b`. */
  predicate HasRow(r: seq<CohortRow>, b: Band) {
    exists j :: 0 <= j < |r| && r[j].band == b
  }

  /** A band's place in `Bands`. */
  function Position(b: Band): (k: nat)
    ensures k < 4
  {
    match b
    case TenPlus => 0
    case FiveToNine => 1
    case ThreeToFour => 2
    case OneToTwo => 3
  }

  lemma PositionOf(b: Band)
    ensures Bands[Position(b)] == b
  {
  }

  /** Rows in band order are in descending order of leading number. */
  lemma LeadOrdered(r: seq<CohortRow>)
    requires InBandOrder(r)
    ensures forall i, j :: 0 <= i < j < |r| ==> Lead(r[i].band) > Lead(r[j].band)
  {
  }

  lemma PositionAt(k: nat)
    requires k < 4
    ensures Position(Bands[k]) == k
  {
  }

  /** The rows of the non-empty bands from the `k`-th on. */
  function CohortRowsFrom(k: nat, bs: seq<Band>, total: nat): (r: seq<CohortRow>)
    requires k <= 4
    ensures forall i :: 0 <= i < |r| ==>
      && Position(r[i].band) >= k
      && r[i].patients == Tally.Occurrences(bs, r[i].band) > 0
      && Stats.IsRateOf(r[i].percentage, r[i].patients, total)
    decreases 4 - k
  {
    if k == 4 then []
    else
      var rest := CohortRowsFrom(k + 1, bs, total);
      var n := Tally.Occurrences(bs, Bands[k]);
      if n > 0 then [CohortRow(Bands[k], n, Stats.Rate(n, total))] + rest
      else rest
  }

  /** The rows come in band order. */
  lemma {:induction false} CohortRowsFromOrdered(k: nat, bs: seq<Band>, total: nat)
    requires k <= 4
    ensures InBandOrder(CohortRowsFrom(k, bs, total))
    decreases 4 - k
  {
    if k < 4 {
      CohortRowsFromOrdered(k + 1, bs, total);
      var rest := CohortRowsFrom(k + 1, bs, total);
      var r := CohortRowsFrom(k, bs, total);
      var n := Tally.Occurrences(bs, Bands[k]);
      PositionAt(k);
      if n > 0 {
        assert r == [CohortRow(Bands[k], n, Stats.Rate(n, total))] + rest;
        forall i, j | 0 <= i < j < |r| ensures Position(r[i].band) < Position(r[j].band) {
          assert r[j] == rest[j - 1];
          if i > 0 {
            assert r[i] == rest[i - 1];
          }
        }
      } else {
        assert r == rest;
      }
    }
  }

  /** Every non-empty band from the `k`-th on has a row. */
  lemma {:induction false} CohortRowsFromComplete(k: nat, bs: seq<Band>, total: nat, p: nat)
    requires k <= p < 4 && Tally.Occurrences(bs, Bands[p]) > 0
    ensures HasRow(CohortRowsFrom(k, bs, total), Bands[p])
    decreases 4 - k
  {
    var rest := CohortRowsFrom(k + 1, bs, total);
    var r := CohortRowsFrom(k, bs, total);
    var n := Tally.Occurrences(bs, Bands[k]);
    assert n > 0 ==> r == [CohortRow(Bands[k], n, Stats.Rate(n, total))] + rest;
    assert n == 0 ==> r == rest;
    if p == k {
      assert r[0].band == Bands[p];
    } else {
      CohortRowsFromComplete(k + 1, bs, total, p);
      var j :| 0 <= j < |rest| && rest[j].band == Bands[p];
      if n > 0 {
        assert r[j + 1] == rest[j];
      } else {
        assert r[j] == rest[j];
      }
    }
  }

  /** The cohorts' patients add up to the number of patients. */
  lemma {:induction false} CohortsCoverPatients(bs: seq<Band>)
    ensures Tally.Occurrences(bs, TenPlus) + Tally.Occurrences(bs, FiveToNine)
          + Tally.Occurrences(bs, ThreeToFour) + Tally.Occurrences(bs, OneToTwo) == |bs|
  {
    if bs != [] {
      var front := bs[..|bs| - 1];
      CohortsCoverPatients(front);
      assert Tally.Occurrences(bs, TenPlus) == Tally.Occurrences(front, TenPlus) + (if bs[|bs| - 1] == TenPlus then 1 else 0);
      assert Tally.Occurrences(bs, FiveToNine) == Tally.Occurrences(front, FiveToNine) + (if bs[|bs| - 1] == FiveToNine then 1 else 0);
      assert Tally.Occurrences(bs, ThreeToFour) == Tally.Occurrences(front, ThreeToFour) + (if bs[|bs| - 1] == ThreeToFour then 1 else 0);
      assert Tally.Occurrences(bs, OneToTwo) == Tally.Occurrences(front, OneToTwo) + (if bs[|bs| - 1] == OneToTwo then 1 else 0);
    }
  }

  /** `growthRate`: the relative change of the billing total against the
      previous periods; 1 when there was nothing before and something now. */
  function GrowthRate(current: int, previous: int): (g: real)
    ensures previous > 0 ==> g * (previous as real) == (current - previous) as real
    ensures previous <= 0 ==> g == if current > 0 then 1.0 else 0.0
  {
    if previous > 0 then (current - previous) as real / (previous as real)
    else if current > 0 then 1.0
    else 0.0
  }

  /** For totals (never negative) growth is positive exactly when the
      total rose, and zero exactly when it stayed. */
  lemma GrowthSign(current: nat, previous: nat)
    ensures GrowthRate(current, previous) > 0.0 <==> current > previous
    ensures GrowthRate(current, previous) == 0.0 <==> current == previous
  {
    if previous > 0 {
      var g := GrowthRate(current, previous);
      var p := previous as real;
      assert g * p == (current - previous) as real;
      assert g > 0.0 ==> g * p > 0.0;
      assert g < 0.0 ==> g * p < 0.0;
    }
  }

  /** `peakBillings`: the largest count of the current periods, 0 if none. */
  function PeakBillings(current: seq<int>): (m: int)
    ensures current == [] ==> m == 0
    ensures current != [] ==> m in current && forall i :: 0 <= i < |current| ==> current[i] <= m
  {
    Stats.Max(current)
  }
}
