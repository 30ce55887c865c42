/** The lab-order request schema (`labWorkSchema` in
    `src/schemas/zobLabWorkSchema.ts`) as a validator over a decoded request
    object, together with the status enumeration of the stored lab-order
    model (`src/app/model/LabWork.model.ts`). Two variants are modelled: the
    schema as written, and the corrected one whose status and attachment
    rules agree with what the route supplies and the model stores. */
module LabWorkSchema {

  import opened Wrappers

  /** A decoded JSON-like value, as the request object holds it. */
  datatype Json =
    | JNull
    | JBool(b: bool)
    | JNum(n: int)
    | JStr(s: string)
    | JArr(items: seq<Json>)
    | JObj(fields: seq<(string, Json)>)

  /** The request object: a missing key is an absent field. */
  type Request = map<string, Json>

  const OrderTypes: seq<string> :=
    ["Crown", "Bridge", "Denture", "Aligner", "Implant", "Inlay/Onlay", "Veneer", "Others"]

  /** Statuses the schema as written accepts. */
  const SchemaStatuses: seq<string> := ["Pending", "In Progress", "Received", "Fitted", "Cancelled"]

  /** Statuses the stored model accepts. */
  const ModelStatuses: seq<string> := ["Pending", "Rework", "Received", "Fitted", "Cancelled"]

  const DefaultStatus := "Pending"

  /** The keys the schema reads, in declaration order; any other key is dropped. */
  datatype Field =
    | PatientId | DoctorId | LabName | OrderType | OthersText | ToothNumbers
    | Shade | Material | ImpressionsTakenOn | SentToLabOn | ExpectedDeliveryDate
    | ReceivedFromLabOn | FittedOn | Status | Remarks | Attachments

  function Key(f: Field): string {
    match f
    case PatientId => "patientId"
    case DoctorId => "doctorId"
    case LabName => "labName"
    case OrderType => "orderType"
    case OthersText => "othersText"
    case ToothNumbers => "toothNumbers"
    case Shade => "shade"
    case Material => "material"
    case ImpressionsTakenOn => "impressionsTakenOn"
    case SentToLabOn => "sentToLabOn"
    case ExpectedDeliveryDate => "expectedDeliveryDate"
    case ReceivedFromLabOn => "receivedFromLabOn"
    case FittedOn => "fittedOn"
    case Status => "status"
    case Remarks => "remarks"
    case Attachments => "attachments"
  }

  const Fields: seq<Field> := [
    PatientId, DoctorId, LabName, OrderType, OthersText, ToothNumbers,
    Shade, Material, ImpressionsTakenOn, SentToLabOn, ExpectedDeliveryDate,
    ReceivedFromLabOn, FittedOn, Status, Remarks, Attachments]

  const DateFields: seq<Field> :=
    [ImpressionsTakenOn, SentToLabOn, ExpectedDeliveryDate, ReceivedFromLabOn, FittedOn]

  lemma EveryFieldListed(f: Field)
    ensures f in Fields
  {
  }

  datatype Variant = AsWritten | Corrected

  function Statuses(v: Variant): (r: seq<string>)
    ensures v == AsWritten ==> r == SchemaStatuses
    ensures v == Corrected ==> r == ModelStatuses
  {
    if v == AsWritten then SchemaStatuses else ModelStatuses
  }

  function Get(m: Request, key: string): Option<Json> {
    if key in m then Some(m[key]) else None
  }

  /** First value stored under `key` in an object's fields. */
  function FieldOf(fields: seq<(string, Json)>, key: string): Option<Json> {
    if fields == [] then None
    else if fields[0].0 == key then Some(fields[0].1)
    else FieldOf(fields[1..], key)
  }

  predicate IsText(j: Json) {
    j.JStr?
  }

  predicate IsTextList(j: Json) {
    j.JArr? && forall i :: 0 <= i < |j.items| ==> j.items[i].JStr?
  }

  predicate IsNonEmptyText(j: Json) {
    j.JStr? && |j.s| >= 1
  }

  /** A stored attachment record: five required fields of the right kinds. */
  predicate IsAttachment(j: Json) {
    && j.JObj?
    && FieldOf(j.fields, "public_id").Some? && FieldOf(j.fields, "public_id").value.JStr?
    && FieldOf(j.fields, "url").Some? && FieldOf(j.fields, "url").value.JStr?
    && FieldOf(j.fields, "format").Some? && FieldOf(j.fields, "format").value.JStr?
    && FieldOf(j.fields, "bytes").Some? && FieldOf(j.fields, "bytes").value.JNum?
    && FieldOf(j.fields, "original_filename").Some? && FieldOf(j.fields, "original_filename").value.JStr?
  }

  /** One element of `attachments`: a text as written, a stored attachment record when corrected. */
  predicate AttachmentItemOk(v: Variant, j: Json) {
    if v == AsWritten then j.JStr? else IsAttachment(j)
  }

  predicate AttachmentsOk(v: Variant, j: Json) {
    j.JArr? && forall i :: 0 <= i < |j.items| ==> AttachmentItemOk(v, j.items[i])
  }

  /** Whether one field's value `x` passes its rule. `isDate` says whether
      the date coercion of a value gives a valid date. */
  predicate ValueOk(v: Variant, f: Field, x: Option<Json>, isDate: Json -> bool) {
    match f
    case LabName => x.Some? && IsNonEmptyText(x.value)
    case OrderType => x.Some? && x.value.JStr? && x.value.s in OrderTypes
    case OthersText => x.None? || x.value.JNull? || x.value.JStr?
    case ToothNumbers => x.None? || IsTextList(x.value)
    case Shade => x.None? || IsText(x.value)
    case Material => x.None? || IsText(x.value)
    case Remarks => x.None? || IsText(x.value)
    case Status => x.None? || (x.value.JStr? && x.value.s in Statuses(v))
    case Attachments => x.None? || AttachmentsOk(v, x.value)
    case PatientId => true  // any value, including none
    case DoctorId => true
    case _ => x.None? || isDate(x.value)  // the five dates
  }

  predicate FieldOk(v: Variant, m: Request, f: Field, isDate: Json -> bool) {
    ValueOk(v, f, Get(m, Key(f)), isDate)
  }

  /** The failing fields among `fs`, in order. */
  function Issues(v: Variant, m: Request, fs: seq<Field>, isDate: Json -> bool): (r: seq<Field>)
    ensures forall f :: f in r <==> f in fs && !FieldOk(v, m, f, isDate)
  {
    if fs == [] then []
    else (if FieldOk(v, m, fs[0], isDate) then [] else [fs[0]]) + Issues(v, m, fs[1..], isDate)
  }

  /** The validated record the schema yields. */
  datatype Parsed = Parsed(
    patientId: Option<Json>,
    doctorId: Option<Json>,
    labName: string,
    orderType: string,
    othersText: Option<Json>,
    toothNumbers: Option<seq<string>>,
    shade: Option<string>,
    material: Option<string>,
    impressionsTakenOn: Option<Json>,
    sentToLabOn: Option<Json>,
    expectedDeliveryDate: Option<Json>,
    receivedFromLabOn: Option<Json>,
    fittedOn: Option<Json>,
    status: string,
    remarks: Option<string>,
    attachments: Option<seq<Json>>)

  function OptText(f: Option<Json>): Option<string> {
    if f.Some? && f.value.JStr? then Some(f.value.s) else None
  }

  function Texts(items: seq<Json>): (r: seq<string>)
    requires forall i :: 0 <= i < |items| ==> items[i].JStr?
    ensures |r| == |items| && forall i :: 0 <= i < |items| ==> r[i] == items[i].s
  {
    if items == [] then [] else [items[0].s] + Texts(items[1..])
  }

  /** The record built from a request every rule accepts. */
  function Build(v: Variant, m: Request, isDate: Json -> bool): (r: Parsed)
    requires forall f :: FieldOk(v, m, f, isDate)
    // labName and orderType are required; status defaults when absent
    ensures "labName" in m && m["labName"] == JStr(r.labName) && |r.labName| >= 1
    ensures "orderType" in m && m["orderType"] == JStr(r.orderType) && r.orderType in OrderTypes
    ensures r.status in Statuses(v)
    ensures "status" in m ==> m["status"] == JStr(r.status)
    ensures "status" !in m ==> r.status == DefaultStatus
    // the other fields pass through
    ensures r.patientId == Get(m, "patientId") && r.doctorId == Get(m, "doctorId")
    ensures r.othersText == Get(m, "othersText")
    ensures r.impressionsTakenOn == Get(m, "impressionsTakenOn") && r.sentToLabOn == Get(m, "sentToLabOn")
    ensures r.expectedDeliveryDate == Get(m, "expectedDeliveryDate")
    ensures r.receivedFromLabOn == Get(m, "receivedFromLabOn") && r.fittedOn == Get(m, "fittedOn")
    ensures r.attachments.Some? <==> "attachments" in m
    ensures "attachments" in m ==> m["attachments"] == JArr(r.attachments.value)
    ensures r.toothNumbers.Some? <==> "toothNumbers" in m
    ensures "toothNumbers" in m ==>
      && m["toothNumbers"].JArr?
      && |r.toothNumbers.value| == |m["toothNumbers"].items|
      && forall i :: 0 <= i < |m["toothNumbers"].items| ==>
           JStr(r.toothNumbers.value[i]) == m["toothNumbers"].items[i]
  {
    AcceptedFields(v, m, isDate);
    var teeth := Get(m, "toothNumbers");
    var attachments := Get(m, "attachments");
    var status := Get(m, "status");
    Parsed(
      Get(m, "patientId"), Get(m, "doctorId"),
      m["labName"].s, m["orderType"].s, Get(m, "othersText"),
      if teeth.Some? then Some(Texts(teeth.value.items)) else None,
      OptText(Get(m, "shade")), OptText(Get(m, "material")),
      Get(m, "impressionsTakenOn"), Get(m, "sentToLabOn"), Get(m, "expectedDeliveryDate"),
      Get(m, "receivedFromLabOn"), Get(m, "fittedOn"),
      if status.Some? then status.value.s else DefaultStatus,
      OptText(Get(m, "remarks")),
      if attachments.Some? then Some(attachments.value.items) else None)
  }

  /** What an accepted request holds in the fields the record reads. */
  lemma AcceptedFields(v: Variant, m: Request, isDate: Json -> bool)
    requires forall f :: FieldOk(v, m, f, isDate)
    ensures "labName" in m && IsNonEmptyText(m["labName"])
    ensures "orderType" in m && m["orderType"].JStr? && m["orderType"].s in OrderTypes
    ensures "status" in m ==> m["status"].JStr? && m["status"].s in Statuses(v)
    ensures "toothNumbers" in m ==> IsTextList(m["toothNumbers"])
    ensures "attachments" in m ==> m["attachments"].JArr?
  {
    assert FieldOk(v, m, LabName, isDate) && FieldOk(v, m, OrderType, isDate);
    assert FieldOk(v, m, Status, isDate) && FieldOk(v, m, ToothNumbers, isDate);
    assert FieldOk(v, m, Attachments, isDate);
  }

  /** `labWorkSchema.parse`: the validated record, or every failing field. */
  function Parse(v: Variant, m: Request, isDate: Json -> bool): (r: Result<Parsed, seq<Field>>)
    ensures r.Success? <==> forall f :: FieldOk(v, m, f, isDate)
    ensures r.Success? ==> r.value == Build(v, m, isDate)
    ensures r.Failure? ==> r.error != [] && forall f :: f in r.error <==> !FieldOk(v, m, f, isDate)
  {
    var issues := Issues(v, m, Fields, isDate);
    assert forall f :: f in Fields by {
      forall f ensures f in Fields {
        EveryFieldListed(f);
      }
    }
    if issues != [] then
      assert issues[0] in issues;
      Failure(issues)
    else
      Success(Build(v, m, isDate))
  }

  /** The stored model's status check: it accepts exactly its own five statuses. */
  predicate ModelAcceptsStatus(status: string) {
    status in ModelStatuses
  }

  /** Corrected schema: whatever it accepts, the stored model accepts too. */
  lemma CorrectedStatusStorable(m: Request, isDate: Json -> bool)
    ensures Parse(Corrected, m, isDate).Success? ==> ModelAcceptsStatus(Parse(Corrected, m, isDate).value.status)
  {
  }

  /** As written: "In Progress" passes the schema but the model rejects it. */
  lemma InProgressPassesSchemaOnly()
    ensures "In Progress" in Statuses(AsWritten) && !ModelAcceptsStatus("In Progress")
  {
    assert ModelStatuses[1] != "In Progress";
  }

  /** As written: an attachment record (rather than a text) makes the whole
      request fail, naming `attachments`. */
  lemma AttachmentRecordRejected(m: Request, isDate: Json -> bool)
    requires "attachments" in m && m["attachments"].JArr? && |m["attachments"].items| >= 1
    requires IsAttachment(m["attachments"].items[0])
    ensures Parse(AsWritten, m, isDate).Failure?
    ensures Attachments in Parse(AsWritten, m, isDate).error
  {
    assert !FieldOk(AsWritten, m, Attachments, isDate);
  }

  /** Corrected: attachment records are never the reason for a failure. */
  lemma AttachmentRecordsAccepted(m: Request, isDate: Json -> bool)
    requires "attachments" in m && m["attachments"].JArr?
    requires forall i :: 0 <= i < |m["attachments"].items| ==> IsAttachment(m["attachments"].items[i])
    ensures Parse(Corrected, m, isDate).Failure? ==> Attachments !in Parse(Corrected, m, isDate).error
  {
    assert FieldOk(Corrected, m, Attachments, isDate);
  }
}
