/** The doctor's dashboard (`src/app/dashboard/pages/Doctor/page.tsx`): the
    12-hour to 24-hour conversion of time slots, the appointment counters
    and per-period buckets, the pending lab-work count and the treatment
    counts behind the pie charts. Calendar days, `date-fns` keys and the
    clock are inputs. */
module DoctorDashboard {

  import opened Wrappers
  import Text
  import Lists
  import Tally
  import BookingForm
  import LabAnalytics

  // --------------------------------------------------------- time slots

  /** The hour after the AM/PM rule: PM adds 12 except to 12, and 12 AM is
      0; `None` is `NaN`, which stays `NaN`. */
  function Hour24(h: Option<int>, modifier: Option<string>): (r: Option<int>)
    ensures h.None? <==> r.None?
  {
    match h
    case None => None
    case Some(v) =>
      var pm := if modifier == Some("PM") && v != 12 then v + 12 else v;
      Some(if modifier == Some("AM") && pm == 12 then 0 else pm)
  }

  /** `String(h).padStart(2, "0")`. */
  function HourText(h: Option<int>): string {
    match h
    case None => "NaN"
    case Some(v) => Text.PadStart2(Text.IntToString(v))
  }

  /** The modifier of "hh:mm XM": the second piece of `split(" ")`. */
  function Modifier(time12h: string): Option<string> {
    match Text.After(time12h, ' ')
    case Some(rest) => Some(Text.Before(rest, ' '))
    case None => None
  }

  /** The minutes of "hh:mm": the second piece of `split(":")`, or
      `undefined`. */
  function Minutes(time: string): string {
    match Text.After(time, ':')
    case Some(rest) => Text.Before(rest, ':')
    case None => "undefined"
  }

  /** `convertTo24Hour`: the text is split at spaces into time and
      modifier, the time at colons into hours and minutes; the hours are
      read with `parseInt`, moved by the AM/PM rule and padded to two
      digits, and the minutes are copied. */
  function To24Hour(time12h: string): string {
    var time := Text.Before(time12h, ' ');
    HourText(Hour24(Text.ParseIntPrefix(Text.Before(time, ':')), Modifier(time12h))) + ":" + Minutes(time)
  }

  /** The conversion reads the pieces `split` produces, as the
      destructuring `const [time, modifier] = time12h.split(" ")` and
      `const [hours, minutes] = time.split(":")` do. */
  lemma To24HourIsSplit(time12h: string)
    ensures var parts := Text.Split(time12h, ' ');
      var hm := Text.Split(parts[0], ':');
      To24Hour(time12h) ==
        HourText(Hour24(Text.ParseIntPrefix(hm[0]), if |parts| > 1 then Some(parts[1]) else None))
        + ":" + (if |hm| > 1 then hm[1] else "undefined")
  {
    var parts := Text.Split(time12h, ' ');
    var hm := Text.Split(parts[0], ':');
    var time := Text.Before(time12h, ' ');
    var mod := if |parts| > 1 then Some(parts[1]) else None;
    var mins := if |hm| > 1 then hm[1] else "undefined";
    assert parts[0] == time && mod == Modifier(time12h) by {
      Text.SplitPieces(time12h, ' ');
      if Text.After(time12h, ' ').Some? {
        Text.SplitPieces(Text.After(time12h, ' ').value, ' ');
      }
    }
    assert hm[0] == Text.Before(time, ':') && mins == Minutes(time) by {
      Text.SplitPieces(time, ':');
      if Text.After(time, ':').Some? {
        Text.SplitPieces(Text.After(time, ':').value, ':');
      }
    }
    To24HourFrom(time12h, time, Text.ParseIntPrefix(hm[0]), mod, mins,
                 HourText(Hour24(Text.ParseIntPrefix(hm[0]), mod)) + ":" + mins);
  }

  /** The AM/PM rule agrees with the reference reading. */
  lemma HourOfSlot(h: nat, pm: bool)
    requires 1 <= h <= 12
    ensures HourText(Hour24(Some(h), Some(Meridiem(pm)))) == TwoDigits(ClockHour(h, pm))
  {
    if pm {
      assert Meridiem(pm) != "AM" by {
        assert Meridiem(pm)[0] == 'P';
      }
    } else {
      assert Meridiem(pm) != "PM" by {
        assert Meridiem(pm)[0] == 'A';
      }
    }
    assert Hour24(Some(h), Some(Meridiem(pm))) == Some(ClockHour(h, pm) as int);
    TwoDigitsFacts(ClockHour(h, pm));
  }

  /** Conversion in terms of its pieces. */
  lemma To24HourFrom(t: string, time: string, hour: Option<int>, mod: Option<string>, mins: string, r: string)
    requires Text.Before(t, ' ') == time && Modifier(t) == mod
    requires Text.ParseIntPrefix(Text.Before(time, ':')) == hour && Minutes(time) == mins
    requires r == HourText(Hour24(hour, mod)) + ":" + mins
    ensures To24Hour(t) == r
  {
  }

  /** Two decimal digits, as the slots print hours and minutes. */
  function TwoDigits(n: nat): string
    requires n < 100
  {
    [Text.DigitChar(n / 10), Text.DigitChar(n % 10)]
  }

  function Meridiem(pm: bool): string {
    if pm then "PM" else "AM"
  }

  /** A slot time as the booking form writes it: "hh:mm AM" or "hh:mm PM". */
  function Slot12(h: nat, m: nat, pm: bool): string
    requires h < 100 && m < 100
  {
    TwoDigits(h) + ":" + TwoDigits(m) + " " + Meridiem(pm)
  }

  /** The reference reading of a 12-hour clock: 12 counts as 0, and the
      afternoon adds 12 hours. */
  function ClockHour(h: nat, pm: bool): nat {
    (if h == 12 then 0 else h) + (if pm then 12 else 0)
  }

  /** Padding a number below 100 gives its two digits. */
  lemma TwoDigitsFacts(n: nat)
    requires n < 100
    ensures Text.PadStart2(Text.IntToString(n)) == TwoDigits(n)
  {
    if n >= 10 {
      assert Text.NatToString(n) == Text.NatToString(n / 10) + [Text.DigitChar(n % 10)];
    }
  }

  /** `parseInt` reads two digits back as their value. */
  lemma ParseTwoDigits(n: nat)
    requires n < 100
    ensures Text.ParseIntPrefix(TwoDigits(n)) == Some(n)
  {
    var a, b := Text.DigitChar(n / 10), Text.DigitChar(n % 10);
    assert Text.DigitValue(a) == n / 10 && Text.DigitValue(b) == n % 10;
    Text.ParseTwoDigitChars([a, b], n);
  }

  /** Where the cuts fall in a well-formed slot. */
  lemma CutSlot(h: nat, m: nat, pm: bool)
    requires h < 100 && m < 100
    ensures var time := TwoDigits(h) + ":" + TwoDigits(m);
      && Text.Before(Slot12(h, m, pm), ' ') == time
      && Modifier(Slot12(h, m, pm)) == Some(Meridiem(pm))
      && Text.Before(time, ':') == TwoDigits(h)
      && Minutes(time) == TwoDigits(m)
  {
    var hh, mm, mod := TwoDigits(h), TwoDigits(m), Meridiem(pm);
    var time := hh + ":" + mm;
    assert Text.Free(time, ' ') by {
      assert forall i :: 0 <= i < |time| ==> time[i] == [hh[0], hh[1], ':', mm[0], mm[1]][i];
    }
    Text.CutAtFirst(time, ' ', mod);
    assert Slot12(h, m, pm) == time + [' '] + mod;
    Text.CutNowhere(mod, ' ');
    Text.CutAtFirst(hh, ':', mm);
    assert time == hh + [':'] + mm;
    Text.CutNowhere(mm, ':');
  }

  /** Conversion agrees with the reference reading on every well-formed
      slot: the hours become the 24-hour hour, padded, and the minutes are
      kept. */
  lemma To24HourOfSlot(h: nat, m: nat, pm: bool)
    requires 1 <= h <= 12 && m < 60
    ensures To24Hour(Slot12(h, m, pm)) == TwoDigits(ClockHour(h, pm)) + ":" + TwoDigits(m)
  {
    var t, time := Slot12(h, m, pm), TwoDigits(h) + ":" + TwoDigits(m);
    var r := TwoDigits(ClockHour(h, pm)) + ":" + TwoDigits(m);
    CutSlot(h, m, pm);
    ParseTwoDigits(h);
    HourOfSlot(h, pm);
    To24HourFrom(t, time, Some(h), Some(Meridiem(pm)), TwoDigits(m), r);
  }

  /** `timeSlot.split(" - ")[0]`: the text before the first " - ", or all
      of it. */
  function BeforeDash(s: string): (r: string)
    ensures |r| <= |s| && r == s[..|r|]
    ensures |r| == |s| || Text.OccursAt(s, " - ", |r|)
    ensures forall i :: 0 <= i < |r| ==> !Text.OccursAt(s, " - ", i)
  {
    if |s| < 3 then s
    else if s[..3] == " - " then ""
    else
      var rest := BeforeDash(s[1..]);
      forall i | 1 <= i <= |rest| ensures Text.OccursAt(s, " - ", i) == Text.OccursAt(s[1..], " - ", i - 1) {
        if i + 3 <= |s| {
          assert s[i..i + 3] == s[1..][i - 1..i + 2];
        }
      }
      assert Text.OccursAt(s, " - ", 1 + |rest|) <==> Text.OccursAt(s[1..], " - ", |rest|) by {
        if 1 + |rest| + 3 <= |s| {
          assert s[1 + |rest|..1 + |rest| + 3] == s[1..][|rest|..|rest| + 3];
        }
      }
      assert !Text.OccursAt(s, " - ", 0);
      [s[0]] + rest
  }

  /** A time without dashes is its own start, alone or before " - ". */
  lemma BeforeDashOfTime(a: string, b: string)
    requires Text.Free(a, '-')
    ensures BeforeDash(a) == a
    ensures BeforeDash(a + " - " + b) == a
  {
    forall j | 0 <= j <= |a| ensures !Text.OccursAt(a, " - ", j) {
      NoDashIn(a, j);
    }
    var s := a + " - " + b;
    var q := BeforeDash(s);
    assert Text.OccursAt(s, " - ", |a|) by {
      assert s[|a|..|a| + 3] == " - ";
    }
    forall j | 0 <= j < |a| ensures !Text.OccursAt(s, " - ", j) {
      NoDashBefore(a, b, j);
    }
    assert |q| == |a|;
    assert s[..|a|] == a;
  }

  lemma NoDashIn(a: string, j: nat)
    requires Text.Free(a, '-')
    ensures !Text.OccursAt(a, " - ", j)
  {
    if j + 3 <= |a| {
      assert a[j..j + 3][1] == a[j + 1];
    }
  }

  lemma NoDashBefore(a: string, b: string, j: nat)
    requires Text.Free(a, '-') && j < |a|
    ensures !Text.OccursAt(a + " - " + b, " - ", j)
  {
    var s := a + " - " + b;
    assert s[j..j + 3][1] == s[j + 1];
    assert s[j + 1] == if j + 1 < |a| then a[j + 1] else ' ';
  }

  /** `new Date("1970-01-01T" + t + ":00").getTime()` in minutes: a time
      "HH:mm" reads as its minute of the day (24:00 is the next midnight),
      anything else is `NaN`, here `None`. */
  function ClockMinutes(t: string): (r: Option<int>)
    ensures r.Some? ==> 0 <= r.value <= 1440
  {
    if |t| == 5 && t[2] == ':' && Text.IsDigit(t[0]) && Text.IsDigit(t[1]) && Text.IsDigit(t[3]) && Text.IsDigit(t[4]) then
      var hours := Text.DigitValue(t[0]) * 10 + Text.DigitValue(t[1]);
      var minutes := Text.DigitValue(t[3]) * 10 + Text.DigitValue(t[4]);
      if (hours < 24 && minutes < 60) || (hours == 24 && minutes == 0) then Some(hours * 60 + minutes) else None
    else None
  }

  lemma ClockMinutesOf(hours: nat, minutes: nat)
    requires hours < 24 && minutes < 60
    ensures ClockMinutes(TwoDigits(hours) + ":" + TwoDigits(minutes)) == Some(hours * 60 + minutes)
  {
    var t := TwoDigits(hours) + ":" + TwoDigits(minutes);
    assert |t| == 5 && t[2] == ':';
    assert t[0] == Text.DigitChar(hours / 10) && t[1] == Text.DigitChar(hours % 10);
    assert t[3] == Text.DigitChar(minutes / 10) && t[4] == Text.DigitChar(minutes % 10);
    assert Text.DigitValue(t[0]) * 10 + Text.DigitValue(t[1]) == hours;
    assert Text.DigitValue(t[3]) * 10 + Text.DigitValue(t[4]) == minutes;
  }

  /** `parseTimeSlot`: the start of a slot, in minutes after midnight. */
  function SlotStart(timeSlot: string): Option<int> {
    ClockMinutes(To24Hour(BeforeDash(timeSlot)))
  }

  /** A slot starting "hh:mm AM/PM", alone or as "start - end", starts at
      its reference minute of the day. */
  lemma SlotStartOf(h: nat, m: nat, pm: bool, rest: string)
    requires 1 <= h <= 12 && m < 60
    ensures SlotStart(Slot12(h, m, pm)) == Some(ClockHour(h, pm) * 60 + m)
    ensures SlotStart(Slot12(h, m, pm) + " - " + rest) == Some(ClockHour(h, pm) * 60 + m)
  {
    var t := Slot12(h, m, pm);
    var t24 := TwoDigits(ClockHour(h, pm)) + ":" + TwoDigits(m);
    var v := Some(ClockHour(h, pm) * 60 + m);
    SlotPieces(h, m, pm, rest, t, t24, v);
    SlotStartFrom(t, t, t24, v);
    SlotStartFrom(t + " - " + rest, t, t24, v);
  }

  lemma SlotPieces(h: nat, m: nat, pm: bool, rest: string, t: string, t24: string, v: Option<int>)
    requires 1 <= h <= 12 && m < 60
    requires t == Slot12(h, m, pm) && t24 == TwoDigits(ClockHour(h, pm)) + ":" + TwoDigits(m)
    requires v == Some(ClockHour(h, pm) * 60 + m)
    ensures BeforeDash(t) == t && BeforeDash(t + " - " + rest) == t
    ensures To24Hour(t) == t24
    ensures ClockMinutes(t24) == v
  {
    ClockMinutesOf(ClockHour(h, pm), m);
    To24HourOfSlot(h, m, pm);
    SlotHasNoDash(h, m, pm, t);
    BeforeDashOfTime(t, rest);
  }

  lemma SlotHasNoDash(h: nat, m: nat, pm: bool, t: string)
    requires h < 100 && m < 100 && t == Slot12(h, m, pm)
    ensures Text.Free(t, '-')
  {
  }

  lemma SlotStartIs(h: nat, m: nat, pm: bool, slot: string, v: Option<int>)
    requires 1 <= h <= 12 && m < 60
    requires slot == Slot12(h, m, pm) && v == Some(ClockHour(h, pm) * 60 + m)
    ensures SlotStart(slot) == v
  {
    SlotStartOf(h, m, pm, "");
  }

  lemma SlotStartFrom(s: string, start: string, t24: string, v: Option<int>)
    requires BeforeDash(s) == start && To24Hour(start) == t24 && ClockMinutes(t24) == v
    ensures SlotStart(s) == v
  {
  }

  /** The booking form's i-th slot on the 12-hour clock: half-hours from
      10:00. */
  function BookingSlot(i: nat): string
    requires i < 21
  {
    var t := 600 + 30 * i;
    var hour := t / 60;
    Slot12(if hour > 12 then hour - 12 else hour, t % 60, hour >= 12)
  }

  /** Every slot of the booking form is a well-formed 12-hour time. */
  lemma BookingSlotsWellFormed()
    ensures forall i :: 0 <= i < 21 ==> BookingForm.TimeSlots[i] == BookingSlot(i)
  {
    SlotsFrom0();
    SlotsFrom2();
    SlotsFrom4();
    SlotsFrom6();
    SlotsFrom8();
    SlotsFrom10();
    SlotsFrom12();
    SlotsFrom14();
    SlotsFrom16();
    SlotsFrom18();
    SlotsFrom20();
  }

  lemma SlotsFrom0()
    ensures forall i :: 0 <= i < 2 ==> BookingForm.TimeSlots[i] == BookingSlot(i)
  {
    assert BookingForm.TimeSlots[0] == BookingSlot(0);
    assert BookingForm.TimeSlots[1] == BookingSlot(1);
  }

  lemma SlotsFrom2()
    ensures forall i :: 2 <= i < 4 ==> BookingForm.TimeSlots[i] == BookingSlot(i)
  {
    assert BookingForm.TimeSlots[2] == BookingSlot(2);
    assert BookingForm.TimeSlots[3] == BookingSlot(3);
  }

  lemma SlotsFrom4()
    ensures forall i :: 4 <= i < 6 ==> BookingForm.TimeSlots[i] == BookingSlot(i)
  {
    assert BookingForm.TimeSlots[4] == BookingSlot(4);
    assert BookingForm.TimeSlots[5] == BookingSlot(5);
  }

  lemma SlotsFrom6()
    ensures forall i :: 6 <= i < 8 ==> BookingForm.TimeSlots[i] == BookingSlot(i)
  {
    assert BookingForm.TimeSlots[6] == BookingSlot(6);
    assert BookingForm.TimeSlots[7] == BookingSlot(7);
  }

  lemma SlotsFrom8()
    ensures forall i :: 8 <= i < 10 ==> BookingForm.TimeSlots[i] == BookingSlot(i)
  {
    assert BookingForm.TimeSlots[8] == BookingSlot(8);
    assert BookingForm.TimeSlots[9] == BookingSlot(9);
  }

  lemma SlotsFrom10()
    ensures forall i :: 10 <= i < 12 ==> BookingForm.TimeSlots[i] == BookingSlot(i)
  {
    assert BookingForm.TimeSlots[10] == BookingSlot(10);
    assert BookingForm.TimeSlots[11] == BookingSlot(11);
  }

  lemma SlotsFrom12()
    ensures forall i :: 12 <= i < 14 ==> BookingForm.TimeSlots[i] == BookingSlot(i)
  {
    assert BookingForm.TimeSlots[12] == BookingSlot(12);
    assert BookingForm.TimeSlots[13] == BookingSlot(13);
  }

  lemma SlotsFrom14()
    ensures forall i :: 14 <= i < 16 ==> BookingForm.TimeSlots[i] == BookingSlot(i)
  {
    assert BookingForm.TimeSlots[14] == BookingSlot(14);
    assert BookingForm.TimeSlots[15] == BookingSlot(15);
  }

  lemma SlotsFrom16()
    ensures forall i :: 16 <= i < 18 ==> BookingForm.TimeSlots[i] == BookingSlot(i)
  {
    assert BookingForm.TimeSlots[16] == BookingSlot(16);
    assert BookingForm.TimeSlots[17] == BookingSlot(17);
  }

  lemma SlotsFrom18()
    ensures forall i :: 18 <= i < 20 ==> BookingForm.TimeSlots[i] == BookingSlot(i)
  {
    assert BookingForm.TimeSlots[18] == BookingSlot(18);
    assert BookingForm.TimeSlots[19] == BookingSlot(19);
  }

  lemma SlotsFrom20()
    ensures forall i :: 20 <= i < 21 ==> BookingForm.TimeSlots[i] == BookingSlot(i)
  {
    assert BookingForm.TimeSlots[20] == BookingSlot(20);
  }

  /** Reading the booking form's slots back: the i-th slot starts 30·i
      minutes after 10:00, so later slots always start later. */
  lemma BookingSlotsStart()
    ensures forall i :: 0 <= i < |BookingForm.TimeSlots| ==> SlotStart(BookingForm.TimeSlots[i]) == Some(600 + 30 * i)
  {
    BookingSlotsWellFormed();
    forall i | 0 <= i < |BookingForm.TimeSlots| ensures SlotStart(BookingForm.TimeSlots[i]) == Some(600 + 30 * i) {
      BookingSlotStart(i);
    }
  }

  lemma BookingSlotStart(i: nat)
    requires i < 21
    ensures SlotStart(BookingSlot(i)) == Some(600 + 30 * i)
  {
    var t := 600 + 30 * i;
    var hour := t / 60;
    var h := if hour > 12 then hour - 12 else hour;
    assert 10 <= hour <= 20;
    assert ClockHour(h, hour >= 12) * 60 + t % 60 == t;
    var slot := Slot12(h, t % 60, hour >= 12);
    assert BookingSlot(i) == slot;
    SlotStartIs(h, t % 60, hour >= 12, slot, Some(t));
  }

  // ------------------------------------------------------- appointments

  /** An appointment as the dashboard reads it: its local calendar day as
      a day number, and the `date-fns` labels of its date (`MMM`, `wo`,
      `yyyy`, `yyyy-MM-dd`). An absent time slot is "". */
  datatype Appointment = Appointment(
    day: int,
    status: string,
    consultationType: string,
    timeSlot: string,
    month: string,
    week: string,
    year: string,
    dateKey: string)

  /** The moment of rendering: today's day number and the local time as
      the 12-hour "hh:mm AM/PM" text. */
  datatype Clock = Clock(today: int, time: string)

  predicate IsFollowUp(a: Appointment) {
    a.consultationType == "Follow-up"
  }

  predicate IsNew(a: Appointment) {
    a.consultationType == "New"
  }

  predicate IsCompleted(a: Appointment) {
    a.status == "Completed"
  }

  predicate IsScheduled(a: Appointment) {
    a.status == "Scheduled"
  }

  predicate IsFinished(a: Appointment) {
    a.status == "Completed" || a.status == "Cancelled"
  }

  /** Still to come: not completed or cancelled, and either on a later day
      or today in a slot starting no earlier than the current time. A slot
      or a clock that does not read as a time compares false. */
  predicate IsUpcoming(a: Appointment, c: Clock) {
    && !IsFinished(a)
    && (|| a.day > c.today
        || (&& a.day == c.today
            && a.timeSlot != ""
            && var slot := SlotStart(a.timeSlot);
               var now := ClockMinutes(To24Hour(c.time));
               slot.Some? && now.Some? && slot.value >= now.value))
  }

  function UpcomingAt(c: Clock): Appointment -> bool {
    a => IsUpcoming(a, c)
  }

  function TodayAt(c: Clock): Appointment -> bool {
    (a: Appointment) => a.day == c.today
  }

  /** The four counters of the dashboard cards. */
  datatype Counters = Counters(followUps: nat, pending: nat, upcoming: nat, today: nat)

  /** One appointment's contribution: a consultation is a follow-up or
      else, when "New", a pending one. */
  function Step(r: Counters, a: Appointment, c: Clock): Counters {
    Counters(
      r.followUps + (if IsFollowUp(a) then 1 else 0),
      r.pending + (if !IsFollowUp(a) && IsNew(a) then 1 else 0),
      r.upcoming + (if IsUpcoming(a, c) then 1 else 0),
      r.today + (if a.day == c.today then 1 else 0))
  }

  /** The counters after the `forEach` over the appointments. */
  function CountersOf(appointments: seq<Appointment>, c: Clock): Counters {
    if appointments == [] then Counters(0, 0, 0, 0)
    else
      var n := |appointments| - 1;
      Step(CountersOf(appointments[..n], c), appointments[n], c)
  }

  /** Each counter is the number of appointments passing its test. */
  lemma {:induction false} CountersMeaning(appointments: seq<Appointment>, c: Clock)
    ensures CountersOf(appointments, c).followUps == Lists.Count(appointments, IsFollowUp)
    ensures CountersOf(appointments, c).pending == Lists.Count(appointments, IsNew)
    ensures CountersOf(appointments, c).upcoming == Lists.Count(appointments, UpcomingAt(c))
    ensures CountersOf(appointments, c).today == Lists.Count(appointments, TodayAt(c))
  {
    if appointments != [] {
      var n := |appointments| - 1;
      CountersMeaning(appointments[..n], c);
      assert appointments[..n + 1] == appointments;
      Lists.CountStep(appointments, n, IsFollowUp);
      Lists.CountStep(appointments, n, IsNew);
      Lists.CountStep(appointments, n, UpcomingAt(c));
      Lists.CountStep(appointments, n, TodayAt(c));
    }
  }

  /** No appointment is both a follow-up and a new consultation, so the
      two cards never add up to more than the appointments. */
  lemma FollowUpsAndNewAtMost(appointments: seq<Appointment>, c: Clock)
    ensures CountersOf(appointments, c).followUps + CountersOf(appointments, c).pending <= |appointments|
  {
    CountersMeaning(appointments, c);
    Lists.CountDisjoint(appointments, IsFollowUp, IsNew, (a: Appointment) => IsFollowUp(a) || IsNew(a));
  }

  /** Completed and cancelled appointments are never upcoming. */
  lemma UpcomingAtMostOpen(appointments: seq<Appointment>, c: Clock)
    ensures CountersOf(appointments, c).upcoming + Lists.Count(appointments, IsFinished) <= |appointments|
  {
    CountersMeaning(appointments, c);
    Lists.CountDisjoint(appointments, UpcomingAt(c), IsFinished, (a: Appointment) => IsUpcoming(a, c) || IsFinished(a));
  }

  /** Every open appointment on a later day is upcoming, whatever its slot
      and the clock say. */
  lemma LaterDaysUpcoming(appointments: seq<Appointment>, c: Clock)
    requires forall i :: 0 <= i < |appointments| ==> appointments[i].day > c.today && !IsFinished(appointments[i])
    ensures CountersOf(appointments, c).upcoming == |appointments|
    ensures CountersOf(appointments, c).today == 0
  {
    CountersMeaning(appointments, c);
    Lists.CountSame(appointments, UpcomingAt(c), _ => true);
    Lists.CountSame(appointments, TodayAt(c), _ => false);
    Lists.CountImplies(appointments, _ => true, UpcomingAt(c));
    AllCounted(appointments);
    NoneCounted(appointments);
  }

  lemma {:induction false} AllCounted(xs: seq<Appointment>)
    ensures Lists.Count(xs, _ => true) == |xs|
  {
    if xs != [] {
      AllCounted(xs[1..]);
    }
  }

  lemma {:induction false} NoneCounted(xs: seq<Appointment>)
    ensures Lists.Count(xs, _ => false) == 0
  {
    if xs != [] {
      NoneCounted(xs[1..]);
    }
  }

  /** An open appointment today in the booking form's slot `i` is upcoming
      exactly when the clock, read as "hh:mm AM/PM", has not passed the
      slot's start. */
  lemma UpcomingToday(a: Appointment, c: Clock, i: nat, h: nat, m: nat, pm: bool)
    requires i < 21 && a.timeSlot == BookingForm.TimeSlots[i]
    requires a.day == c.today && !IsFinished(a)
    requires 1 <= h <= 12 && m < 60 && c.time == Slot12(h, m, pm)
    ensures IsUpcoming(a, c) <==> ClockHour(h, pm) * 60 + m <= 600 + 30 * i
  {
    var slot := 600 + 30 * i;
    var now := ClockHour(h, pm) * 60 + m;
    BookingSlotAt(a.timeSlot, i, slot);
    ClockAt(c.time, h, m, pm, now);
    UpcomingFrom(a, c, slot, now);
  }

  lemma BookingSlotAt(t: string, i: nat, v: int)
    requires i < 21 && t == BookingForm.TimeSlots[i] && v == 600 + 30 * i
    ensures SlotStart(t) == Some(v)
  {
    BookingSlotsStart();
  }

  lemma ClockAt(t: string, h: nat, m: nat, pm: bool, v: int)
    requires 1 <= h <= 12 && m < 60 && t == Slot12(h, m, pm) && v == ClockHour(h, pm) * 60 + m
    ensures ClockMinutes(To24Hour(t)) == Some(v)
  {
    var t24 := TwoDigits(ClockHour(h, pm)) + ":" + TwoDigits(m);
    SlotPieces(h, m, pm, "", t, t24, Some(v));
    ClockFrom(t, t24, Some(v));
  }

  lemma ClockFrom(t: string, t24: string, v: Option<int>)
    requires To24Hour(t) == t24 && ClockMinutes(t24) == v
    ensures ClockMinutes(To24Hour(t)) == v
  {
  }

  lemma UpcomingFrom(a: Appointment, c: Clock, slot: int, now: int)
    requires a.day == c.today && !IsFinished(a)
    requires SlotStart(a.timeSlot) == Some(slot) && ClockMinutes(To24Hour(c.time)) == Some(now)
    ensures IsUpcoming(a, c) <==> now <= slot
  {
    SlotStartEmpty();
    assert a.timeSlot != "";
    assert IsUpcoming(a, c) <==> SlotStart(a.timeSlot).value >= ClockMinutes(To24Hour(c.time)).value;
  }

  lemma SlotStartEmpty()
    ensures SlotStart("") == None
  {
    assert BeforeDash("") == "";
    assert To24Hour("") == "NaN:undefined";
  }

  /** A same-day appointment without a slot is not upcoming. */
  lemma SlotlessTodayNotUpcoming(a: Appointment, c: Clock)
    requires a.day == c.today && a.timeSlot == ""
    ensures !IsUpcoming(a, c)
  {
  }

  // ------------------------------------------------- per-period buckets

  datatype Period = Monthly | Weekly | Yearly

  function KeyOf(a: Appointment, p: Period): string {
    match p
    case Monthly => a.month
    case Weekly => a.week
    case Yearly => a.year
  }

  /** One period's record of `{ completed, scheduled }` by label, kept as
      two tallies over the same labels. */
  datatype Buckets = Buckets(completed: Tally.Tally<string>, scheduled: Tally.Tally<string>)

  /** Every appointment opens its label with zero counts, then adds to
      `completed` when completed or else to `scheduled` when scheduled. */
  function BucketsOf(appointments: seq<Appointment>, p: Period): (b: Buckets)
    ensures Tally.DistinctKeys(b.completed) && Tally.DistinctKeys(b.scheduled)
  {
    if appointments == [] then Buckets([], [])
    else
      var n := |appointments| - 1;
      var b := BucketsOf(appointments[..n], p);
      var a := appointments[n];
      var k := KeyOf(a, p);
      Buckets(Tally.Add(b.completed, k, if a.status == "Completed" then 1 else 0),
              Tally.Add(b.scheduled, k, if a.status != "Completed" && a.status == "Scheduled" then 1 else 0))
  }

  function CompletedIn(p: Period, k: string): Appointment -> bool {
    a => KeyOf(a, p) == k && a.status == "Completed"
  }

  function ScheduledIn(p: Period, k: string): Appointment -> bool {
    a => KeyOf(a, p) == k && a.status == "Scheduled"
  }

  /** Under each label, the completed and the scheduled appointments of
      that label. */
  lemma {:induction false} BucketsCount(appointments: seq<Appointment>, p: Period, k: string)
    ensures Tally.Get(BucketsOf(appointments, p).completed, k) == Lists.Count(appointments, CompletedIn(p, k))
    ensures Tally.Get(BucketsOf(appointments, p).scheduled, k) == Lists.Count(appointments, ScheduledIn(p, k))
  {
    CompletedCount(appointments, p, k);
    ScheduledCount(appointments, p, k);
  }

  lemma {:induction false} CompletedCount(appointments: seq<Appointment>, p: Period, k: string)
    ensures Tally.Get(BucketsOf(appointments, p).completed, k) == Lists.Count(appointments, CompletedIn(p, k))
  {
    if appointments != [] {
      var n := |appointments| - 1;
      CompletedCount(appointments[..n], p, k);
      CompletedStep(appointments, p, k);
      assert appointments[..n + 1] == appointments;
      Lists.CountStep(appointments, n, CompletedIn(p, k));
    }
  }

  lemma CompletedStep(appointments: seq<Appointment>, p: Period, k: string)
    requires appointments != []
    ensures var n := |appointments| - 1;
      Tally.Get(BucketsOf(appointments, p).completed, k)
        == Tally.Get(BucketsOf(appointments[..n], p).completed, k) + (if CompletedIn(p, k)(appointments[n]) then 1 else 0)
  {
    var n := |appointments| - 1;
    var b := BucketsOf(appointments[..n], p);
    var a := appointments[n];
    var v := if a.status == "Completed" then 1 else 0;
    var r := Tally.Add(b.completed, KeyOf(a, p), v);
    assert BucketsOf(appointments, p).completed == r;
    assert CompletedIn(p, k)(a) <==> KeyOf(a, p) == k && v == 1;
    if KeyOf(a, p) == k {
      assert Tally.Get(r, k) == Tally.Get(b.completed, k) + v;
    } else {
      assert Tally.Get(r, k) == Tally.Get(b.completed, k);
    }
  }

  lemma {:induction false} ScheduledCount(appointments: seq<Appointment>, p: Period, k: string)
    ensures Tally.Get(BucketsOf(appointments, p).scheduled, k) == Lists.Count(appointments, ScheduledIn(p, k))
  {
    if appointments != [] {
      var n := |appointments| - 1;
      ScheduledCount(appointments[..n], p, k);
      ScheduledStep(appointments, p, k);
      assert appointments[..n + 1] == appointments;
      Lists.CountStep(appointments, n, ScheduledIn(p, k));
    }
  }

  lemma ScheduledStep(appointments: seq<Appointment>, p: Period, k: string)
    requires appointments != []
    ensures var n := |appointments| - 1;
      Tally.Get(BucketsOf(appointments, p).scheduled, k)
        == Tally.Get(BucketsOf(appointments[..n], p).scheduled, k) + (if ScheduledIn(p, k)(appointments[n]) then 1 else 0)
  {
    var n := |appointments| - 1;
    var b := BucketsOf(appointments[..n], p);
    var a := appointments[n];
    var v := if a.status != "Completed" && a.status == "Scheduled" then 1 else 0;
    var r := Tally.Add(b.scheduled, KeyOf(a, p), v);
    assert BucketsOf(appointments, p).scheduled == r;
    assert ScheduledIn(p, k)(a) <==> KeyOf(a, p) == k && v == 1;
    if KeyOf(a, p) == k {
      assert Tally.Get(r, k) == Tally.Get(b.scheduled, k) + v;
    } else {
      assert Tally.Get(r, k) == Tally.Get(b.scheduled, k);
    }
  }

  /** Both tallies list the same labels, in the order they first appear. */
  lemma {:induction false} BucketsSameLabels(appointments: seq<Appointment>, p: Period)
    ensures Tally.Keys(BucketsOf(appointments, p).completed) == Tally.Keys(BucketsOf(appointments, p).scheduled)
  {
    if appointments != [] {
      BucketsSameLabels(appointments[..|appointments| - 1], p);
    }
  }

  /** The period labels of the appointments, in order. */
  function Labels(appointments: seq<Appointment>, p: Period): (r: seq<string>)
    ensures |r| == |appointments|
    ensures forall i :: 0 <= i < |r| ==> r[i] == KeyOf(appointments[i], p)
  {
    if appointments == [] then []
    else
      var n := |appointments| - 1;
      Labels(appointments[..n], p) + [KeyOf(appointments[n], p)]
  }

  /** A label is listed exactly when some appointment carries it. */
  lemma {:induction false} BucketsLabels(appointments: seq<Appointment>, p: Period, k: string)
    ensures k in Tally.Keys(BucketsOf(appointments, p).completed) <==> k in Labels(appointments, p)
  {
    if appointments != [] {
      var n := |appointments| - 1;
      BucketsLabels(appointments[..n], p, k);
    }
  }

  /** Nothing is lost: the completed column adds up to the completed
      appointments, the scheduled column to the scheduled ones. */
  lemma {:induction false} BucketsTotal(appointments: seq<Appointment>, p: Period)
    ensures Tally.Total(BucketsOf(appointments, p).completed) == Lists.Count(appointments, IsCompleted)
    ensures Tally.Total(BucketsOf(appointments, p).scheduled) == Lists.Count(appointments, IsScheduled)
  {
    if appointments != [] {
      var n := |appointments| - 1;
      BucketsTotal(appointments[..n], p);
      assert appointments[..n + 1] == appointments;
      Lists.CountStep(appointments, n, IsCompleted);
      Lists.CountStep(appointments, n, IsScheduled);
    }
  }

  /** `uniqueDates`: the set of `yyyy-MM-dd` labels. */
  function UniqueDates(appointments: seq<Appointment>): set<string> {
    if appointments == [] then {}
    else
      var n := |appointments| - 1;
      UniqueDates(appointments[..n]) + {appointments[n].dateKey}
  }

  /** A date is listed exactly when some appointment falls on it, and
      there are no more dates than appointments. */
  lemma {:induction false} UniqueDatesMeaning(appointments: seq<Appointment>, d: string)
    ensures d in UniqueDates(appointments) <==> exists i :: 0 <= i < |appointments| && appointments[i].dateKey == d
    ensures |UniqueDates(appointments)| <= |appointments|
  {
    if appointments != [] {
      var n := |appointments| - 1;
      var front := appointments[..n];
      UniqueDatesMeaning(front, d);
      if exists i :: 0 <= i < n && front[i].dateKey == d {
        var i :| 0 <= i < n && front[i].dateKey == d;
        assert appointments[i].dateKey == d;
      }
    }
  }

  // ------------------------------------------------------------ charts

  const Months: seq<string> := ["Jan", "Feb", "Mar", "Apr", "May", "Jun", "Jul", "Aug", "Sep", "Oct", "Nov", "Dec"]

  /** A bar of the appointments chart; its `cancelled` field carries the
      scheduled count. */
  datatype Bar = Bar(name: string, completed: int, cancelled: int)

  function Bars(b: Buckets, labels: seq<string>): seq<Bar> {
    seq(|labels|, i requires 0 <= i < |labels| => Bar(labels[i], Tally.Get(b.completed, labels[i]), Tally.Get(b.scheduled, labels[i])))
  }

  /** The monthly chart: the twelve months in calendar order, a month
      without appointments showing zeros. */
  function MonthlyChart(appointments: seq<Appointment>): seq<Bar> {
    Bars(BucketsOf(appointments, Monthly), Months)
  }

  /** The weekly and yearly charts: one bar per label met. The bars are
      kept in first-seen order; `Object.keys` gives that order for the
      week labels but lists integer-like keys such as years ascending. */
  function PeriodChart(appointments: seq<Appointment>, p: Period): seq<Bar> {
    var b := BucketsOf(appointments, p);
    Bars(b, Tally.Keys(b.completed))
  }

  /** Month `i`'s bar counts the completed and the scheduled appointments
      of that month. */
  lemma MonthlyChartCounts(appointments: seq<Appointment>, i: nat)
    requires i < 12
    ensures |MonthlyChart(appointments)| == 12
    ensures MonthlyChart(appointments)[i].name == Months[i]
    ensures MonthlyChart(appointments)[i].completed == Lists.Count(appointments, CompletedIn(Monthly, Months[i]))
    ensures MonthlyChart(appointments)[i].cancelled == Lists.Count(appointments, ScheduledIn(Monthly, Months[i]))
  {
    BucketsCount(appointments, Monthly, Months[i]);
  }

  /** The weekly or yearly chart has one bar for each label some
      appointment carries, no label twice, and each bar counts that
      label's completed and scheduled appointments. */
  lemma PeriodChartCounts(appointments: seq<Appointment>, p: Period, i: nat)
    requires i < |PeriodChart(appointments, p)|
    ensures var r := PeriodChart(appointments, p);
      && r[i].name in Labels(appointments, p)
      && (forall j :: 0 <= j < i ==> r[j].name != r[i].name)
      && r[i].completed == Lists.Count(appointments, CompletedIn(p, r[i].name))
      && r[i].cancelled == Lists.Count(appointments, ScheduledIn(p, r[i].name))
  {
    var b := BucketsOf(appointments, p);
    var k := Tally.Keys(b.completed)[i];
    BucketsLabels(appointments, p, k);
    BucketsSameLabels(appointments, p);
    BucketsCount(appointments, p, k);
  }

  // ------------------------------------------------------ lab-work card

  predicate IsPendingLab(l: LabAnalytics.LabWork) {
    l.status == Some("Pending")
  }

  /** The lab-work analytics' reading of the same order: a missing or
      empty status counts as pending there. */
  predicate PendingInAnalytics(l: LabAnalytics.LabWork) {
    LabAnalytics.StatusOf(l) == "Pending"
  }

  /** `pendingCount`: orders whose status is exactly "Pending". */
  function PendingCount(labs: seq<LabAnalytics.LabWork>): (n: nat)
    ensures n <= |labs|
  {
    Lists.Count(labs, IsPendingLab)
  }

  /** The card never shows more than the analytics' pending count, and the
      two agree when every order carries a status. */
  lemma PendingCountAgainstAnalytics(labs: seq<LabAnalytics.LabWork>)
    ensures PendingCount(labs) <= Lists.Count(labs, PendingInAnalytics)
    ensures (forall i :: 0 <= i < |labs| ==> labs[i].status.Some? && labs[i].status.value != "") ==>
      PendingCount(labs) == Lists.Count(labs, PendingInAnalytics)
  {
    Lists.CountImplies(labs, IsPendingLab, PendingInAnalytics);
    if forall i :: 0 <= i < |labs| ==> labs[i].status.Some? && labs[i].status.value != "" {
      Lists.CountSame(labs, IsPendingLab, PendingInAnalytics);
    }
  }

  // ---------------------------------------------------- treatment pies

  /** A billed treatment; a missing quantity is `None`. */
  datatype Treatment = Treatment(name: string, quantity: Option<int>)

  /** An instant with its local calendar year and month. */
  datatype Moment = Moment(at: int, year: int, month: int)

  /** A bill as the pies read it; an unparsable date is `None`. */
  datatype Bill = Bill(date: Option<Moment>, treatments: Option<seq<Treatment>>)

  /** The rendering moment and the same local time seven days earlier. */
  datatype Now = Now(moment: Moment, weekAgo: int)

  /** `treatment.quantity || 1`: a missing or zero quantity counts once. */
  function Units(t: Treatment): (n: int)
    ensures t.quantity.None? || t.quantity.value == 0 ==> n == 1
    ensures t.quantity.Some? && t.quantity.value != 0 ==> n == t.quantity.value
  {
    if t.quantity.None? || t.quantity.value == 0 then 1 else t.quantity.value
  }

  /** The `(name, units)` items of a list of treatments, in order. */
  function TreatmentItems(ts: seq<Treatment>): (r: seq<(string, int)>)
    ensures |r| == |ts|
  {
    if ts == [] then [] else [(ts[0].name, Units(ts[0]))] + TreatmentItems(ts[1..])
  }

  function BillItems(b: Bill): seq<(string, int)> {
    match b.treatments
    case None => []
    case Some(ts) => TreatmentItems(ts)
  }

  function Items(bills: seq<Bill>): seq<(string, int)> {
    if bills == [] then [] else BillItems(bills[0]) + Items(bills[1..])
  }

  /** `getTreatmentCounts`: the units of each treatment over the bills
      the filter keeps, by name in order of first appearance. */
  function TreatmentCounts(bills: seq<Bill>, keep: Bill -> bool): (r: Tally.Tally<string>)
    ensures Tally.DistinctKeys(r)
  {
    Tally.TallyOf(Items(Lists.Filter(bills, keep)))
  }

  /** The reference: the units a bill carries of treatment `name`. */
  function NamedUnits(name: string): Treatment -> int {
    (t: Treatment) => if t.name == name then Units(t) else 0
  }

  function BillUnits(name: string): Bill -> int {
    (b: Bill) => match b.treatments
                 case None => 0
                 case Some(ts) => Lists.SumOf(ts, NamedUnits(name))
  }

  lemma {:induction false} TreatmentItemsSum(ts: seq<Treatment>, name: string)
    ensures Tally.SumFor(TreatmentItems(ts), name) == Lists.SumOf(ts, NamedUnits(name))
  {
    if ts != [] {
      TreatmentItemsSum(ts[1..], name);
      Tally.SumForAppend([(ts[0].name, Units(ts[0]))], TreatmentItems(ts[1..]), name);
    }
  }

  lemma {:induction false} ItemsSum(bills: seq<Bill>, name: string)
    ensures Tally.SumFor(Items(bills), name) == Lists.SumOf(bills, BillUnits(name))
  {
    if bills != [] {
      ItemsSum(bills[1..], name);
      Tally.SumForAppend(BillItems(bills[0]), Items(bills[1..]), name);
      if bills[0].treatments.Some? {
        TreatmentItemsSum(bills[0].treatments.value, name);
      }
    }
  }

  /** Each treatment's slice is the units of that treatment over the kept
      bills. */
  lemma TreatmentCountsMeaning(bills: seq<Bill>, keep: Bill -> bool, name: string)
    ensures Tally.Get(TreatmentCounts(bills, keep), name) == Lists.SumOf(Lists.Filter(bills, keep), BillUnits(name))
  {
    Tally.TallyOfGet(Items(Lists.Filter(bills, keep)), name);
    ItemsSum(Lists.Filter(bills, keep), name);
  }

  /** The last seven days, up to now; an invalid date is never kept. */
  predicate InLastWeek(b: Bill, now: Now) {
    b.date.Some? && now.weekAgo <= b.date.value.at <= now.moment.at
  }

  predicate InThisMonth(b: Bill, now: Now) {
    b.date.Some? && b.date.value.year == now.moment.year && b.date.value.month == now.moment.month
  }

  predicate InThisYear(b: Bill, now: Now) {
    b.date.Some? && b.date.value.year == now.moment.year
  }

  datatype Pies = Pies(weekly: Tally.Tally<string>, monthly: Tally.Tally<string>, yearly: Tally.Tally<string>)

  /** `pieData`: empty without bills, otherwise the counts over the last
      week, this month and this year. */
  function PieData(bills: seq<Bill>, now: Now): (r: Pies)
    ensures bills == [] ==> r == Pies([], [], [])
    ensures bills != [] ==>
      && r.weekly == TreatmentCounts(bills, b => InLastWeek(b, now))
      && r.monthly == TreatmentCounts(bills, b => InThisMonth(b, now))
      && r.yearly == TreatmentCounts(bills, b => InThisYear(b, now))
  {
    if bills == [] then Pies([], [], [])
    else
      Pies(TreatmentCounts(bills, b => InLastWeek(b, now)),
           TreatmentCounts(bills, b => InThisMonth(b, now)),
           TreatmentCounts(bills, b => InThisYear(b, now)))
  }

  predicate NoNegativeQuantities(bills: seq<Bill>) {
    forall i :: 0 <= i < |bills| && bills[i].treatments.Some? ==>
      forall j :: 0 <= j < |bills[i].treatments.value| ==> Units(bills[i].treatments.value[j]) >= 0
  }

  /** With no negative quantity, this month's slice of a treatment never
      exceeds this year's. */
  lemma MonthWithinYear(bills: seq<Bill>, now: Now, name: string)
    requires NoNegativeQuantities(bills)
    ensures Tally.Get(PieData(bills, now).monthly, name) <= Tally.Get(PieData(bills, now).yearly, name)
  {
    var month := (b: Bill) => InThisMonth(b, now);
    var year := (b: Bill) => InThisYear(b, now);
    TreatmentCountsMeaning(bills, month, name);
    TreatmentCountsMeaning(bills, year, name);
    forall i | 0 <= i < |bills| ensures BillUnits(name)(bills[i]) >= 0 {
      if bills[i].treatments.Some? {
        var ts := bills[i].treatments.value;
        Lists.SumNonNegative(ts, NamedUnits(name));
      }
    }
    Lists.SumFilterMonotone(bills, month, year, BillUnits(name));
  }
}
