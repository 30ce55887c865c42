/** The patient registration wizard
    (`src/app/dashboard/pages/Doctor/patientRecords/patientRegistrationForm/page.tsx`):
    the field rules, the five-step progress and the body posted on
    confirmation. */
module RegistrationForm {

  import opened Wrappers
  import Text

  const FirstStep := 1
  const LastStep := 5

  const Genders: seq<string> := ["Male", "Female", "Other"]

  /** The wizard's values; the optional lists are `None` when absent. */
  datatype Values = Values(
    fullName: string,
    contactNumber: string,
    gender: string,
    age: string,
    dateOfBirth: string,
    email: string,
    password: string,
    medicalHistory: Option<seq<string>>,
    currentMedications: Option<seq<string>>)

  /** The form's defaults. */
  const Defaults := Values("", "", "Male", "", "", "", "", Some([]), Some([]))

  datatype Issue = FullNameRequired | ContactRequired | InvalidGender | AgeRequired | InvalidEmail | ShortPassword

  function Message(i: Issue): string {
    match i
    case FullNameRequired => "Full name is required"
    case ContactRequired => "Contact number is required"
    case InvalidGender => "Please select a valid gender"
    case AgeRequired => "Age is required"
    case InvalidEmail => "Invalid email address"
    case ShortPassword => "Password must be at least 6 characters"
  }

  /** Whether `v` breaks the rule behind issue `i`; `isEmail` is the
      schema library's address check. */
  predicate Breaks(v: Values, i: Issue, isEmail: string -> bool) {
    match i
    case FullNameRequired => |v.fullName| < 1
    case ContactRequired => |v.contactNumber| < 1
    case InvalidGender => v.gender !in Genders
    case AgeRequired => |v.age| < 1
    case InvalidEmail => !isEmail(v.email)
    case ShortPassword => |v.password| < 6
  }

  const AllIssues := [FullNameRequired, ContactRequired, InvalidGender, AgeRequired, InvalidEmail, ShortPassword]

  lemma AllIssuesListed()
    ensures forall i :: i in AllIssues
  {
    forall i ensures i in AllIssues {
      match i
      case FullNameRequired => assert AllIssues[0] == i;
      case ContactRequired => assert AllIssues[1] == i;
      case InvalidGender => assert AllIssues[2] == i;
      case AgeRequired => assert AllIssues[3] == i;
      case InvalidEmail => assert AllIssues[4] == i;
      case ShortPassword => assert AllIssues[5] == i;
    }
  }

  /** The position of an issue's field in the schema. */
  function Rank(i: Issue): nat {
    match i
    case FullNameRequired => 0
    case ContactRequired => 1
    case InvalidGender => 2
    case AgeRequired => 3
    case InvalidEmail => 4
    case ShortPassword => 5
  }

  ghost predicate InFieldOrder(xs: seq<Issue>) {
    forall a, b :: 0 <= a < b < |xs| ==> Rank(xs[a]) < Rank(xs[b])
  }

  /** The schema's complaints: each broken rule once, in field order. */
  function Issues(v: Values, isEmail: string -> bool): (r: seq<Issue>)
    ensures forall i :: i in r <==> Breaks(v, i, isEmail)
    ensures |r| <= 6
    ensures InFieldOrder(r)
    ensures forall a, b :: 0 <= a < b < |r| ==> r[a] != r[b]
  {
    AllIssuesListed();
    assert InFieldOrder(AllIssues);
    BrokenRules(AllIssues, v, isEmail)
  }

  /** The entries of `xs` whose rule `v` breaks, in order. */
  function BrokenRules(xs: seq<Issue>, v: Values, isEmail: string -> bool): (r: seq<Issue>)
    requires InFieldOrder(xs)
    ensures |r| <= |xs|
    ensures forall i :: i in r <==> i in xs && Breaks(v, i, isEmail)
    ensures InFieldOrder(r)
  {
    if xs == [] then []
    else
      var rest := BrokenRules(xs[1..], v, isEmail);
      if Breaks(v, xs[0], isEmail) then
        forall k | 0 <= k < |rest| ensures Rank(xs[0]) < Rank(rest[k]) {
          assert rest[k] in xs[1..];
        }
        [xs[0]] + rest
      else rest
  }

  /** The values pass exactly when name, contact and age are filled in,
      the gender is one of the three, the e-mail is an address and the
      password has at least six characters. */
  lemma ValidIff(v: Values, isEmail: string -> bool)
    ensures Issues(v, isEmail) == [] <==>
      && v.fullName != "" && v.contactNumber != "" && v.age != ""
      && v.gender in Genders && isEmail(v.email) && |v.password| >= 6
  {
    var r := Issues(v, isEmail);
    if r != [] {
      assert r[0] in r && Breaks(v, r[0], isEmail);
    } else {
      assert !Breaks(v, FullNameRequired, isEmail) && !Breaks(v, ContactRequired, isEmail) && !Breaks(v, AgeRequired, isEmail);
      assert !Breaks(v, InvalidGender, isEmail) && !Breaks(v, InvalidEmail, isEmail) && !Breaks(v, ShortPassword, isEmail);
    }
  }

  /** The untouched form is refused: name, contact, age and password are
      missing, whatever the e-mail check says. */
  lemma DefaultsRefused(isEmail: string -> bool)
    ensures FullNameRequired in Issues(Defaults, isEmail)
    ensures ShortPassword in Issues(Defaults, isEmail)
    ensures InvalidGender !in Issues(Defaults, isEmail)
  {
  }

  /** The progress bar: 10, 30, 50, 70, 100 for steps 1 to 5, else 0. */
  function Progress(step: int): (p: int)
    ensures FirstStep <= step <= LastStep ==> p == (if step == 5 then 100 else 20 * step - 10)
    ensures !(FirstStep <= step <= LastStep) ==> p == 0
  {
    match step
    case 1 => 10
    case 2 => 30
    case 3 => 50
    case 4 => 70
    case 5 => 100
    case _ => 0
  }

  /** Progress grows with the step. */
  lemma ProgressIncreasing(a: int, b: int)
    requires FirstStep <= a < b <= LastStep
    ensures Progress(a) < Progress(b)
  {
  }

  /** "Previous", shown after step 1. */
  function Previous(step: int): (r: int)
    ensures step > 1 ==> r == step - 1
    ensures step <= 1 ==> r == step
  {
    if step > 1 then (if step - 1 > 1 then step - 1 else 1) else step
  }

  /** "Continue", shown before step 5. */
  function Continue(step: int): (r: int)
    ensures step < LastStep ==> r == step + 1
    ensures step >= LastStep ==> r == step
  {
    if step < LastStep then (if step + 1 < LastStep then step + 1 else LastStep) else step
  }

  /** The buttons keep the step within the wizard. */
  lemma StepStaysInRange(step: int)
    requires FirstStep <= step <= LastStep
    ensures FirstStep <= Previous(step) <= LastStep
    ensures FirstStep <= Continue(step) <= LastStep
  {
  }

  /** `list?.join(",") || ""`. */
  function JoinedOrEmpty(xs: Option<seq<string>>): (r: string)
    ensures xs.None? || xs.value == [] ==> r == ""
    ensures xs.Some? && |xs.value| >= 1 && (forall i :: 0 <= i < |xs.value| ==> Text.Free(xs.value[i], ',')) ==>
      Text.Split(r, ',') == xs.value
  {
    if xs.None? then ""
    else
      JoinSplits(xs.value);
      Text.Join(xs.value, ",")
  }

  lemma JoinSplits(xs: seq<string>)
    ensures |xs| >= 1 && (forall i :: 0 <= i < |xs| ==> Text.Free(xs[i], ',')) ==> Text.Split(Text.Join(xs, ","), ',') == xs
  {
    if |xs| >= 1 && forall i :: 0 <= i < |xs| ==> Text.Free(xs[i], ',') {
      Text.SplitJoin(xs, ',');
    }
  }

  /** The body posted on confirmation. */
  datatype Body = Body(values: Values, medicalHistory: string, currentMedications: string)

  datatype Request = Request(doctorHeader: string, body: Body)

  /** `handleConfirm`: nothing without a preview; otherwise the preview is
      posted with the two lists as comma-joined text and the doctor's id
      (or "") in the `x-doctor-id` header. */
  function Confirm(preview: Option<Values>, userId: Option<string>): (r: Option<Request>)
    ensures preview.None? <==> r.None?
    ensures r.Some? ==>
      && r.value.body.values == preview.value
      && r.value.doctorHeader == userId.GetOr("")
      && r.value.body.medicalHistory == JoinedOrEmpty(preview.value.medicalHistory)
      && r.value.body.currentMedications == JoinedOrEmpty(preview.value.currentMedications)
  {
    match preview
    case None => None
    case Some(v) =>
      Some(Request(userId.GetOr(""), Body(v, JoinedOrEmpty(v.medicalHistory), JoinedOrEmpty(v.currentMedications))))
  }
}
