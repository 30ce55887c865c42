/** The appointment booking form (`src/app/components/BookAppointmentForm.tsx`):
    the fixed time slots, which are booked for the doctor on the chosen day,
    patient look-up and verification, the four-step progress and the
    payload sent on confirmation. */
module BookingForm {

  import opened Wrappers
  import Text
  import Lists
  import Patients

  /** The bookable half-hour slots, 10:00 AM to 08:00 PM. */
  const TimeSlots: seq<string> := [
    "10:00 AM", "10:30 AM", "11:00 AM", "11:30 AM", "12:00 PM", "12:30 PM",
    "01:00 PM", "01:30 PM", "02:00 PM", "02:30 PM", "03:00 PM", "03:30 PM",
    "04:00 PM", "04:30 PM", "05:00 PM", "05:30 PM", "06:00 PM", "06:30 PM",
    "07:00 PM", "07:30 PM", "08:00 PM"]

  const PopularSlots: seq<string> := ["10:00 AM", "02:00 PM", "04:00 PM"]

  const FirstStep := 1
  const LastStep := 4

  /** A stored appointment: its doctor's `_id`, its calendar day as
      `yyyy-MM-dd` in local time, and its slot. */
  datatype Appointment = Appointment(doctor: string, day: string, timeSlot: string)

  /** The slots already taken for this doctor on this day; none when the
      signed-in user has no doctor profile. */
  function BookedSlots(appointments: seq<Appointment>, doctor: Option<string>, day: string): (r: seq<string>)
    ensures doctor.None? || doctor.value == "" ==> r == []
    ensures doctor.Some? && doctor.value != "" ==>
      forall s :: s in r <==> exists i :: 0 <= i < |appointments| && appointments[i].doctor == doctor.value
                                              && appointments[i].day == day && appointments[i].timeSlot == s
  {
    if doctor.None? || doctor.value == "" then []
    else
      var mine := Lists.Filter(appointments, (a: Appointment) => a.doctor == doctor.value && a.day == day);
      var r := SlotsOf(mine);
      forall s ensures s in r <==> exists i :: 0 <= i < |appointments| && appointments[i].doctor == doctor.value
                                              && appointments[i].day == day && appointments[i].timeSlot == s
      {
        if s in r {
          var k :| 0 <= k < |r| && r[k] == s;
          assert mine[k] in mine;
          var i :| 0 <= i < |appointments| && appointments[i] == mine[k];
        }
        if exists i :: 0 <= i < |appointments| && appointments[i].doctor == doctor.value
                       && appointments[i].day == day && appointments[i].timeSlot == s {
          var i :| 0 <= i < |appointments| && appointments[i].doctor == doctor.value
                   && appointments[i].day == day && appointments[i].timeSlot == s;
          assert appointments[i] in mine;
          var k :| 0 <= k < |mine| && mine[k] == appointments[i];
          assert r[k] == s;
        }
      }
      r
  }

  function SlotsOf(xs: seq<Appointment>): (r: seq<string>)
    ensures |r| == |xs| && forall i :: 0 <= i < |xs| ==> r[i] == xs[i].timeSlot
  {
    if xs == [] then [] else [xs[0].timeSlot] + SlotsOf(xs[1..])
  }

  datatype SlotView = SlotView(time: string, booked: bool, popular: bool)

  /** `availableSlots`: every fixed slot in order, marked booked or popular. */
  function AvailableSlots(booked: seq<string>): (r: seq<SlotView>)
    ensures |r| == |TimeSlots| == 21
    ensures forall i :: 0 <= i < |r| ==>
      && r[i].time == TimeSlots[i]
      && (r[i].booked <==> TimeSlots[i] in booked)
      && (r[i].popular <==> TimeSlots[i] in PopularSlots)
  {
    Views(TimeSlots, booked)
  }

  function Views(slots: seq<string>, booked: seq<string>): (r: seq<SlotView>)
    ensures |r| == |slots|
    ensures forall i :: 0 <= i < |r| ==>
      r[i] == SlotView(slots[i], slots[i] in booked, slots[i] in PopularSlots)
  {
    if slots == [] then []
    else [SlotView(slots[0], slots[0] in booked, slots[0] in PopularSlots)] + Views(slots[1..], booked)
  }

  /** Exactly three slots are popular: the first, the ninth and the
      thirteenth. */
  lemma PopularSlotPositions(booked: seq<string>)
    ensures var r := AvailableSlots(booked);
      forall i :: 0 <= i < |r| ==> (r[i].popular <==> i == 0 || i == 8 || i == 12)
  {
    var r := AvailableSlots(booked);
    PopularAmong(0, 21);
    forall i | 0 <= i < |r| ensures r[i].popular <==> i == 0 || i == 8 || i == 12 {
      assert r[i].popular <==> TimeSlots[i] in PopularSlots;
    }
  }

  /** Which of the slots `lo` to `hi - 1` are popular: the first, the
      ninth and the thirteenth. */
  lemma PopularAmong(lo: nat, hi: nat)
    requires lo <= hi <= 21
    ensures forall i :: lo <= i < hi ==> (TimeSlots[i] in PopularSlots <==> i == 0 || i == 8 || i == 12)
  {
    forall i | lo <= i < hi ensures TimeSlots[i] in PopularSlots <==> i == 0 || i == 8 || i == 12 {
      if i == 0 || i == 8 || i == 12 {
        assert TimeSlots[i] == PopularSlots[if i == 0 then 0 else if i == 8 then 1 else 2];
      } else {
        assert TimeSlots[i] != PopularSlots[0] && TimeSlots[i] != PopularSlots[1] && TimeSlots[i] != PopularSlots[2];
      }
    }
  }

  /** The form's data. */
  datatype Data = Data(
    patient: string,
    day: string,
    consultationType: string,
    notes: string,
    timeSlot: string,
    treatments: seq<string>,
    teeth: seq<string>,
    contactNumber: string)

  /** The whole form. */
  datatype Form = Form(
    step: int,
    data: Data,
    query: string,
    verified: bool,
    error: Option<string>,
    preview: Option<Data>)

  /** A fresh form on day `today`. */
  function NewForm(today: string): (f: Form)
    ensures f.step == FirstStep && !f.verified && f.preview.None? && f.data.patient == ""
  {
    Form(1, Data("", today, "New", "", "", [], [], ""), "", false, None, None)
  }

  /** `handleSelectPatient`: the query shows "name (id)", the patient is
      chosen and verified, and the form moves to step 2. */
  function SelectPatient(f: Form, p: Patients.Patient): (r: Form)
    ensures r.verified && r.step == 2
    ensures r.data == f.data.(patient := p.id, contactNumber := p.contactNumber.GetOr(""))
    ensures r.query == p.fullName + " (" + p.patientCode + ")"
  {
    f.(query := p.fullName + " (" + p.patientCode + ")",
       data := f.data.(patient := p.id, contactNumber := p.contactNumber.GetOr("")),
       verified := true, step := 2)
  }

  /** `handlePatientChange`: typing clears the chosen patient. */
  function PatientChange(f: Form, query: string): (r: Form)
    ensures r.query == query && !r.verified && r.data == f.data.(patient := "") && r.step == f.step
  {
    f.(query := query, verified := false, data := f.data.(patient := ""))
  }

  /** Picking a day moves to step 2. */
  function SelectDay(f: Form, day: string): (r: Form)
    ensures r.step == 2 && r.data == f.data.(day := day)
  {
    f.(data := f.data.(day := day), step := 2)
  }

  /** Picking a free slot moves to step 3; booked slots are disabled. */
  function SelectSlot(f: Form, slot: string, booked: seq<string>): (r: Form)
    ensures slot in booked ==> r == f
    ensures slot !in booked ==> r.step == 3 && r.data == f.data.(timeSlot := slot)
  {
    if slot in booked then f else f.(data := f.data.(timeSlot := slot), step := 3)
  }

  /** "Previous", shown after step 1: `Math.max(1, step - 1)`. */
  function Previous(f: Form): (r: Form)
    ensures f.step <= 1 ==> r == f
    ensures f.step > 1 ==> r == f.(step := f.step - 1)
  {
    if f.step > 1 then f.(step := if f.step - 1 > 1 then f.step - 1 else 1) else f
  }

  /** "Continue", shown before step 4 and disabled on step 1 until a
      patient is verified: `Math.min(4, step + 1)`. */
  function Continue(f: Form): (r: Form)
    ensures f.step >= LastStep || (f.step == 1 && !f.verified) ==> r == f
    ensures f.step < LastStep && !(f.step == 1 && !f.verified) ==> r == f.(step := f.step + 1)
  {
    if f.step < LastStep && !(f.step == 1 && !f.verified) then f.(step := if f.step + 1 < LastStep then f.step + 1 else LastStep)
    else f
  }

  /** `handleSubmit`: without a verified patient an error is shown and no
      preview opens; otherwise the data is previewed. */
  function Submit(f: Form): (r: Form)
    ensures r.step == f.step
    ensures !f.verified ==> r.preview == f.preview && r.error == Some("Please select a valid patient before proceeding.")
    ensures f.verified ==> r.preview == Some(f.data) && r.error == f.error
  {
    if !f.verified then f.(error := Some("Please select a valid patient before proceeding."))
    else f.(preview := Some(f.data))
  }

  /** The "Review & Book" button, disabled until a patient is verified:
      it moves to step 4 and submits. */
  function Review(f: Form): (r: Form)
    ensures !f.verified ==> r == f
    ensures f.verified ==> r.step == LastStep && r.preview == Some(f.data)
  {
    if f.verified then Submit(f.(step := LastStep)) else f
  }

  datatype Event =
    | PickPatient(p: Patients.Patient)
    | Type(query: string)
    | PickDay(day: string)
    | PickSlot(slot: string, booked: seq<string>)
    | Back
    | Forward
    | ReviewAndBook

  function Apply(f: Form, e: Event): Form {
    match e
    case PickPatient(p) => SelectPatient(f, p)
    case Type(q) => PatientChange(f, q)
    case PickDay(d) => SelectDay(f, d)
    case PickSlot(s, b) => SelectSlot(f, s, b)
    case Back => Previous(f)
    case Forward => Continue(f)
    case ReviewAndBook => Review(f)
  }

  function ApplyAll(f: Form, es: seq<Event>): Form
    decreases |es|
  {
    if es == [] then f else ApplyAll(Apply(f, es[0]), es[1..])
  }

  /** Whatever the user does, the step stays between 1 and 4. */
  lemma {:induction false} StepStaysInRange(f: Form, es: seq<Event>)
    requires FirstStep <= f.step <= LastStep
    ensures FirstStep <= ApplyAll(f, es).step <= LastStep
    decreases |es|
  {
    if es != [] {
      StepStaysInRange(Apply(f, es[0]), es[1..]);
    }
  }

  /** The progress bar: 25, 50, 75, 100 for steps 1 to 4, else 0. */
  function Progress(step: int): (p: int)
    ensures FirstStep <= step <= LastStep ==> p == 25 * step
    ensures !(FirstStep <= step <= LastStep) ==> p == 0
  {
    if step == 1 then 25 else if step == 2 then 50 else if step == 3 then 75 else if step == 4 then 100 else 0
  }

  /** The appointment sent on confirmation. */
  datatype Payload = Payload(
    doctor: Option<string>,
    patient: string,
    appointmentDate: string,
    status: string,
    consultationType: string,
    timeSlot: string,
    treatments: seq<string>,
    teeth: seq<string>,
    notes: string,
    createdBy: Option<string>)

  /** `handleConfirm`: nothing without a preview; otherwise the preview
      becomes a "Scheduled" appointment by and for the signed-in user.
      `dateText` formats the preview's day with its offset. */
  function Confirm(f: Form, userId: Option<string>, dateText: string -> string): (r: Option<Payload>)
    ensures f.preview.None? <==> r.None?
    ensures r.Some? ==>
      && r.value.status == "Scheduled"
      && r.value.doctor == userId && r.value.createdBy == userId
      && r.value.patient == f.preview.value.patient
      && r.value.timeSlot == f.preview.value.timeSlot
      && r.value.appointmentDate == dateText(f.preview.value.day)
  {
    match f.preview
    case None => None
    case Some(d) =>
      Some(Payload(userId, d.patient, dateText(d.day), "Scheduled", d.consultationType, d.timeSlot,
                   d.treatments, d.teeth, d.notes, userId))
  }

  /** A confirmed booking always names the patient chosen from the list:
      a preview exists only after a verified submission. */
  lemma ConfirmedPatientWasChosen(f: Form, p: Patients.Patient, userId: Option<string>, dateText: string -> string)
    requires f.preview.None?
    ensures var g := Review(SelectPatient(f, p));
      Confirm(g, userId, dateText).Some? && Confirm(g, userId, dateText).value.patient == p.id
  {
  }
}
