/** The client-side lab-work forms: the add form
    (`src/app/components/doctor/AddLabWorkForm.tsx`) with its validation,
    material options, attachment list and the multipart payload it sends,
    and the edit form (`src/app/components/doctor/EditLabWorkForm.tsx`)
    with its initialisation, validation and tooth-number parsing. */
module LabWorkForms {

  import opened Wrappers
  import Text
  import Lists
  import LabWorkSchema
  import LabWorkRoute

  /** Material options per order type; an order type not listed has none. */
  const MaterialTable: seq<(string, seq<string>)> := [
    ("Crown", ["Zirconia", "Lithium Disilicate (e.max)", "PFM", "Full Ceramic", "Full Metal", "Composite Resin"]),
    ("Bridge", ["Zirconia", "PFM", "Full Metal", "Full Ceramic"]),
    ("Denture", ["Acrylic Resin", "Cobalt-Chromium", "Flexible Nylon (Valplast)", "Thermoplastic Resin"]),
    ("Aligner", ["PETG", "TPU"]),
    ("Implant", ["Titanium", "Zirconia", "Hybrid (Zirconia + Porcelain)"]),
    ("Inlay/Onlay", ["Composite Resin", "Zirconia", "Gold Alloy", "Lithium Disilicate (e.max)"]),
    ("Veneer", ["Lithium Disilicate (e.max)", "Porcelain", "Composite Resin"]),
    ("Others", ["Zirconia", "Lithium Disilicate (e.max)", "PFM", "Full Ceramic", "Full Metal", "Composite Resin",
                "Acrylic Resin", "Cobalt-Chromium", "Flexible Nylon (Valplast)", "Thermoplastic Resin", "PETG", "TPU",
                "Titanium", "Hybrid (Zirconia + Porcelain)", "Porcelain", "Gold Alloy"])
  ]

  /** `materialByOrderType[orderType] || []`. */
  function MaterialsFor(orderType: string): (r: seq<string>)
    ensures forall i :: 0 <= i < |MaterialTable| && MaterialTable[i].0 == orderType ==> r == MaterialTable[i].1
    ensures (forall i :: 0 <= i < |MaterialTable| ==> MaterialTable[i].0 != orderType) ==> r == []
  {
    LookUp(MaterialTable, orderType)
  }

  function LookUp(table: seq<(string, seq<string>)>, key: string): (r: seq<string>)
    requires forall i, j :: 0 <= i < j < |table| ==> table[i].0 != table[j].0
    ensures forall i :: 0 <= i < |table| && table[i].0 == key ==> r == table[i].1
    ensures (forall i :: 0 <= i < |table| ==> table[i].0 != key) ==> r == []
  {
    if table == [] then []
    else if table[0].0 == key then table[0].1
    else
      assert forall i :: 1 <= i < |table| ==> table[i] == table[1..][i - 1];
      LookUp(table[1..], key)
  }

  /** The order types of the form are exactly the keys of the material
      table, and each has at least one material. */
  lemma EveryOrderTypeHasMaterials(t: string)
    requires t in LabWorkSchema.OrderTypes
    ensures MaterialsFor(t) != []
  {
    var i :| 0 <= i < |LabWorkSchema.OrderTypes| && LabWorkSchema.OrderTypes[i] == t;
    RowMatchesOrderType(i);
    assert MaterialsFor(t) == MaterialTable[i].1;
  }

  /** Row `i` of the material table is filed under order type `i` and
      offers at least one material. */
  lemma RowMatchesOrderType(i: nat)
    requires i < |LabWorkSchema.OrderTypes|
    ensures i < |MaterialTable| && MaterialTable[i].0 == LabWorkSchema.OrderTypes[i] && MaterialTable[i].1 != []
  {
    assert |MaterialTable| == |LabWorkSchema.OrderTypes| == 8;
    assert i == 0 || i == 1 || i == 2 || i == 3 || i == 4 || i == 5 || i == 6 || i == 7;
  }

  /** "Others" offers every material some order type offers. */
  lemma OthersOffersEverything(t: string, m: string)
    requires m in MaterialsFor(t)
    ensures m in MaterialsFor("Others")
  {
    OthersRow();
    var i, k := MaterialRow(t, m);
    OthersHasRow(i, k);
  }

  lemma OthersRow()
    ensures MaterialsFor("Others") == MaterialTable[7].1
  {
    assert MaterialTable[7].0 == "Others";
  }

  /** A material offered for an order type comes from that type's row. */
  lemma MaterialRow(t: string, m: string) returns (i: nat, k: nat)
    requires m in MaterialsFor(t)
    ensures i < |MaterialTable| && k < |MaterialTable[i].1| && MaterialTable[i].1[k] == m
  {
    var r := MaterialsFor(t);
    assert r != [];
    i :| 0 <= i < |MaterialTable| && MaterialTable[i].0 == t;
    assert r == MaterialTable[i].1;
    k :| 0 <= k < |r| && r[k] == m;
  }

  lemma OthersHasRow(i: nat, k: nat)
    requires i < |MaterialTable| && k < |MaterialTable[i].1|
    ensures MaterialTable[i].1[k] in MaterialTable[7].1
  {
    var o := MaterialTable[7].1;
    assert o[0] == "Zirconia" && o[1] == "Lithium Disilicate (e.max)" && o[2] == "PFM" && o[3] == "Full Ceramic";
    assert o[4] == "Full Metal" && o[5] == "Composite Resin" && o[6] == "Acrylic Resin" && o[7] == "Cobalt-Chromium";
    assert o[8] == "Flexible Nylon (Valplast)" && o[9] == "Thermoplastic Resin" && o[10] == "PETG" && o[11] == "TPU";
    assert o[12] == "Titanium" && o[13] == "Hybrid (Zirconia + Porcelain)" && o[14] == "Porcelain" && o[15] == "Gold Alloy";
  }

  // ---------------------------------------------------------------------
  // The add form

  type File = LabWorkRoute.File

  datatype AddForm = AddForm(
    doctorId: string,
    patientId: string,
    labName: string,
    orderType: string,
    othersText: string,
    toothNumbers: seq<string>,
    expectedDeliveryDate: string,
    status: string,
    remarks: string,
    shade: string,
    material: string,
    impressionsTakenOn: string,
    attachments: seq<File>)

  /** A new order: every field empty, status "Pending", impressions taken
      today (`today` is the local date as `YYYY-MM-DD`). */
  function NewAddForm(today: string): (f: AddForm)
    ensures f.status == LabWorkSchema.DefaultStatus && f.impressionsTakenOn == today
    ensures f.patientId == "" && f.labName == "" && f.orderType == "" && f.toothNumbers == [] && f.attachments == []
  {
    AddForm("", "", "", "", "", [], "", "Pending", "", "", "", today, [])
  }

  predicate Blank(s: string) {
    Text.Trim(s) == ""
  }

  /** The add form's validation failures, in the order checked. */
  datatype AddIssue = PatientIdRequired | LabNameRequired | OrderTypeRequired | OthersTextRequired | TeethRequired | DeliveryDateRequired

  /** The error map key of an issue. */
  function AddIssueKey(i: AddIssue): string {
    match i
    case PatientIdRequired => "patientId"
    case LabNameRequired => "labName"
    case OrderTypeRequired => "orderType"
    case OthersTextRequired => "othersText"
    case TeethRequired => "toothNumbers"
    case DeliveryDateRequired => "expectedDeliveryDate"
  }

  /** The message shown for an issue. */
  function AddIssueMessage(i: AddIssue): string {
    match i
    case PatientIdRequired => "Patient ID is required"
    case LabNameRequired => "Lab Name is required"
    case OrderTypeRequired => "Order Type is required"
    case OthersTextRequired => "Please specify the order type"
    case TeethRequired => "Select at least one tooth"
    case DeliveryDateRequired => "Delivery date is required"
  }

  /** Whether `f` fails the check behind issue `i`. */
  predicate Fails(f: AddForm, i: AddIssue) {
    match i
    case PatientIdRequired => Blank(f.patientId)
    case LabNameRequired => Blank(f.labName)
    case OrderTypeRequired => f.orderType == ""
    case OthersTextRequired => f.orderType == "Others" && Blank(f.othersText)
    case TeethRequired => f.toothNumbers == []
    case DeliveryDateRequired => f.expectedDeliveryDate == ""
  }

  const AddChecks := [PatientIdRequired, LabNameRequired, OrderTypeRequired, OthersTextRequired, TeethRequired, DeliveryDateRequired]

  lemma AllChecksListed()
    ensures forall i :: i in AddChecks
  {
    forall i ensures i in AddChecks {
      match i
      case PatientIdRequired => assert AddChecks[0] == i;
      case LabNameRequired => assert AddChecks[1] == i;
      case OrderTypeRequired => assert AddChecks[2] == i;
      case OthersTextRequired => assert AddChecks[3] == i;
      case TeethRequired => assert AddChecks[4] == i;
      case DeliveryDateRequired => assert AddChecks[5] == i;
    }
  }

  /** `validate`'s failures, in the order checked. */
  function AddErrors(f: AddForm): (r: seq<AddIssue>)
    ensures forall i :: i in r <==> Fails(f, i)
    ensures |r| <= 6
  {
    AllChecksListed();
    Lists.Filter(AddChecks, (i: AddIssue) => Fails(f, i))
  }

  /** `validate()`: no error was recorded. */
  predicate AddValid(f: AddForm) {
    AddErrors(f) == []
  }

  /** The form is valid exactly when every required field is filled in. */
  lemma AddValidIff(f: AddForm)
    ensures AddValid(f) <==>
      && !Blank(f.patientId) && !Blank(f.labName) && f.orderType != ""
      && !(f.orderType == "Others" && Blank(f.othersText))
      && f.toothNumbers != [] && f.expectedDeliveryDate != ""
  {
    var r := AddErrors(f);
    if r != [] {
      assert r[0] in r;
    }
    if !AddValid(f) {
      assert Fails(f, r[0]);
    }
  }

  /** Field edits from the form's named text inputs; the patient is not one
      of them, it is set by choosing a suggestion (ChoosePatient). */
  datatype AddTextField = LabNameText | OthersText | DeliveryDateText | RemarksText | ShadeText | ImpressionsText

  /** `handleChange`: only the named field changes. */
  function ChangeAdd(f: AddForm, field: AddTextField, value: string): (r: AddForm)
    ensures field == LabNameText ==> r == f.(labName := value)
    ensures field == OthersText ==> r == f.(othersText := value)
    ensures field == RemarksText ==> r == f.(remarks := value)
    ensures r.patientId == f.patientId
    ensures r.toothNumbers == f.toothNumbers && r.attachments == f.attachments && r.orderType == f.orderType
  {
    match field
    case LabNameText => f.(labName := value)
    case OthersText => f.(othersText := value)
    case DeliveryDateText => f.(expectedDeliveryDate := value)
    case RemarksText => f.(remarks := value)
    case ShadeText => f.(shade := value)
    case ImpressionsText => f.(impressionsTakenOn := value)
  }

  /** `handleSelectPatient`: choosing a suggested patient records that
      patient's database id and changes no other field; the patient
      complaint is gone exactly when the id is not blank. */
  function ChoosePatient(f: AddForm, id: string): (r: AddForm)
    ensures r.patientId == id
    ensures r == f.(patientId := r.patientId)
    ensures PatientIdRequired !in AddErrors(r) <==> !Blank(id)
  {
    f.(patientId := id)
  }

  /** Choosing files appends them after those already chosen. */
  function AddFiles(f: AddForm, files: seq<File>): (r: AddForm)
    ensures |r.attachments| == |f.attachments| + |files|
    ensures r.attachments[..|f.attachments|] == f.attachments
    ensures r.attachments[|f.attachments|..] == files
    ensures r == f.(attachments := r.attachments)
  {
    f.(attachments := f.attachments + files)
  }

  /** `splice(index, 1)`: a negative index counts from the end, an index
      past the end removes nothing. */
  function Splice<T>(xs: seq<T>, index: int): (r: seq<T>)
    ensures 0 <= index < |xs| ==> r == xs[..index] + xs[index + 1..]
    ensures index >= |xs| ==> r == xs
    ensures -|xs| <= index < 0 ==> r == xs[..|xs| + index] + xs[|xs| + index + 1..]
    ensures |r| == if xs == [] || index >= |xs| then |xs| else |xs| - 1
  {
    var start := if index < 0 then (if |xs| + index < 0 then 0 else |xs| + index) else index;
    if start < |xs| then xs[..start] + xs[start + 1..] else xs
  }

  /** `removeFile`: only the file at that position goes. */
  function RemoveFile(f: AddForm, index: int): (r: AddForm)
    ensures r == f.(attachments := Splice(f.attachments, index))
    ensures 0 <= index < |f.attachments| ==>
      && |r.attachments| == |f.attachments| - 1
      && (forall j :: 0 <= j < index ==> r.attachments[j] == f.attachments[j])
      && (forall j :: index <= j < |r.attachments| ==> r.attachments[j] == f.attachments[j + 1])
  {
    f.(attachments := Splice(f.attachments, index))
  }

  /** Removing a file just chosen undoes the choice. */
  lemma RemoveLastUndoesAdd(f: AddForm, file: File)
    ensures RemoveFile(AddFiles(f, [file]), |f.attachments|) == f
  {
    var g := AddFiles(f, [file]);
    assert g.attachments[..|f.attachments|] + g.attachments[|f.attachments| + 1..] == f.attachments;
  }

  /** The clear button empties the list. */
  function ClearFiles(f: AddForm): (r: AddForm)
    ensures r.attachments == [] && r == f.(attachments := [])
  {
    f.(attachments := [])
  }

  /** The multipart form the add form posts: the twelve text fields in
      order, then one "attachments" entry per chosen file. `stringify` is
      `JSON.stringify` on the tooth list. */
  function Payload(f: AddForm, stringify: seq<string> -> string): (r: LabWorkRoute.Form)
    ensures |r| == 12 + |f.attachments|
    ensures r[5] == ("toothNumbers", LabWorkRoute.FormText(stringify(f.toothNumbers)))
    ensures forall i :: 0 <= i < |f.attachments| ==> r[12 + i] == ("attachments", LabWorkRoute.FormFile(f.attachments[i]))
    ensures forall i :: 0 <= i < 12 ==> r[i].1.FormText?
  {
    TextEntries(f, stringify) + FileEntries(f.attachments)
  }

  function TextEntries(f: AddForm, stringify: seq<string> -> string): (r: LabWorkRoute.Form)
    ensures |r| == 12 && forall i :: 0 <= i < 12 ==> r[i].1.FormText? && r[i].0 != "attachments"
  {
    [("patientId", LabWorkRoute.FormText(f.patientId)),
     ("doctorId", LabWorkRoute.FormText(f.doctorId)),
     ("labName", LabWorkRoute.FormText(f.labName)),
     ("orderType", LabWorkRoute.FormText(f.orderType)),
     ("othersText", LabWorkRoute.FormText(f.othersText)),
     ("toothNumbers", LabWorkRoute.FormText(stringify(f.toothNumbers))),
     ("expectedDeliveryDate", LabWorkRoute.FormText(f.expectedDeliveryDate)),
     ("status", LabWorkRoute.FormText(f.status)),
     ("remarks", LabWorkRoute.FormText(f.remarks)),
     ("shade", LabWorkRoute.FormText(f.shade)),
     ("material", LabWorkRoute.FormText(f.material)),
     ("impressionsTakenOn", LabWorkRoute.FormText(f.impressionsTakenOn))]
  }

  function FileEntries(files: seq<File>): (r: LabWorkRoute.Form)
    ensures |r| == |files|
    ensures forall i :: 0 <= i < |files| ==> r[i] == ("attachments", LabWorkRoute.FormFile(files[i]))
  {
    if files == [] then [] else [("attachments", LabWorkRoute.FormFile(files[0]))] + FileEntries(files[1..])
  }

  /** The server treats exactly the non-empty chosen files as attachments,
      in the order they were chosen. */
  lemma {:induction false} PayloadAttachments(f: AddForm, stringify: seq<string> -> string)
    ensures LabWorkRoute.AttachmentFiles(Payload(f, stringify))
      == Lists.Filter(f.attachments, (x: File) => x.size > 0)
  {
    var t := TextEntries(f, stringify);
    AttachmentFilesAppend(t, FileEntries(f.attachments));
    NoFilesInText(t);
    FileEntriesAttachments(f.attachments);
  }

  lemma {:induction false} AttachmentFilesAppend(a: LabWorkRoute.Form, b: LabWorkRoute.Form)
    ensures LabWorkRoute.AttachmentFiles(a + b) == LabWorkRoute.AttachmentFiles(a) + LabWorkRoute.AttachmentFiles(b)
  {
    if a == [] {
      assert a + b == b;
    } else {
      assert (a + b)[1..] == a[1..] + b;
      AttachmentFilesAppend(a[1..], b);
    }
  }

  lemma {:induction false} NoFilesInText(a: LabWorkRoute.Form)
    requires forall i :: 0 <= i < |a| ==> a[i].0 != "attachments"
    ensures LabWorkRoute.AttachmentFiles(a) == []
  {
    if a != [] {
      NoFilesInText(a[1..]);
    }
  }

  lemma {:induction false} FileEntriesAttachments(files: seq<File>)
    ensures LabWorkRoute.AttachmentFiles(FileEntries(files)) == Lists.Filter(files, (x: File) => x.size > 0)
  {
    if files != [] {
      var e := FileEntries(files);
      assert e[1..] == FileEntries(files[1..]);
      FileEntriesAttachments(files[1..]);
    }
  }

  /** `handleSubmit`: an invalid form, or one already being sent, sends
      nothing; otherwise the payload is posted and the form is marked as
      submitting. */
  datatype AddSubmission = Ignored | Rejected(errors: seq<AddIssue>) | Posted(form: LabWorkRoute.Form)

  function SubmitAdd(f: AddForm, submitting: bool, stringify: seq<string> -> string): (r: AddSubmission)
    ensures r.Posted? <==> AddValid(f) && !submitting
    ensures !AddValid(f) ==> r == Rejected(AddErrors(f))
    ensures r.Posted? ==> r.form == Payload(f, stringify)
  {
    if !AddValid(f) then Rejected(AddErrors(f))
    else if submitting then Ignored
    else Posted(Payload(f, stringify))
  }

  // ---------------------------------------------------------------------
  // The edit form

  /** `toothNumbers` as the edit form holds it: the stored list, or the
      text typed into the input, or nothing. */
  datatype Teeth = TeethList(items: seq<string>) | TeethText(text: string) | NoTeeth

  /** The stored lab work as the edit form receives it; absent fields are
      `None`. */
  datatype LabWorkItem = LabWorkItem(
    id: string,
    orderType: Option<string>,
    status: Option<string>,
    expectedDeliveryDate: Option<string>,
    toothNumbers: Option<seq<string>>,
    shade: Option<string>,
    material: Option<string>,
    remarks: Option<string>,
    othersText: Option<string>)

  datatype EditForm = EditForm(
    id: Option<string>,
    orderType: string,
    status: string,
    expectedDeliveryDate: string,
    toothNumbers: Teeth,
    shade: string,
    material: string,
    remarks: string,
    othersText: string)

  const BlankEditForm := EditForm(None, "", "Pending", "", TeethList([]), "", "", "", "")

  /** `x || default` for an optional text. */
  function OrText(x: Option<string>, default: string): (r: string)
    ensures x.Some? && x.value != "" ==> r == x.value
    ensures x.None? || x.value == "" ==> r == default
  {
    if x.Some? && x.value != "" then x.value else default
  }

  /** The date part of an ISO time stamp: the text before the first "T". */
  function DatePart(iso: string): (r: string)
    ensures Text.Free(r, 'T')
  {
    var pieces := Text.Split(iso, 'T');
    SplitPiecesFree(iso);
    pieces[0]
  }

  lemma SplitPiecesFree(s: string)
    ensures Text.Free(Text.Split(s, 'T')[0], 'T')
  {
    SplitFirstFree(s, 'T');
  }

  lemma {:induction false} SplitFirstFree(s: string, c: char)
    ensures Text.Free(Text.Split(s, c)[0], c)
    decreases |s|
  {
    if s != [] && s[0] != c {
      SplitFirstFree(s[1..], c);
    }
  }

  /** An ISO time stamp `D + "T" + rest` yields its date `D`. */
  lemma DatePartOfStamp(d: string, rest: string)
    requires Text.Free(d, 'T')
    ensures DatePart(d + "T" + rest) == d
  {
    Text.SplitOfPieceAndRest(d, 'T', rest);
  }

  /** Loading a lab work: absent or empty fields become "" (status
      "Pending", teeth an empty list) and the delivery date keeps only its
      date part. `isoOf` is `new Date(x).toISOString()`. */
  function InitEdit(form: EditForm, labWork: Option<LabWorkItem>, isoOf: string -> string): (r: EditForm)
    ensures labWork.None? ==> r == form
    ensures labWork.Some? ==>
      var w := labWork.value;
      && r.id == Some(w.id)
      && r.orderType == OrText(w.orderType, "")
      && r.status == OrText(w.status, "Pending")
      && r.toothNumbers == TeethList(w.toothNumbers.GetOr([]))
      && r.shade == OrText(w.shade, "") && r.material == OrText(w.material, "")
      && r.remarks == OrText(w.remarks, "") && r.othersText == OrText(w.othersText, "")
      && (OrText(w.expectedDeliveryDate, "") == "" ==> r.expectedDeliveryDate == "")
      && (OrText(w.expectedDeliveryDate, "") != "" ==> r.expectedDeliveryDate == DatePart(isoOf(w.expectedDeliveryDate.value)))
  {
    match labWork
    case None => form
    case Some(w) =>
      EditForm(
        Some(w.id),
        OrText(w.orderType, ""),
        OrText(w.status, "Pending"),
        if OrText(w.expectedDeliveryDate, "") != "" then DatePart(isoOf(w.expectedDeliveryDate.value)) else "",
        TeethList(w.toothNumbers.GetOr([])),
        OrText(w.shade, ""),
        OrText(w.material, ""),
        OrText(w.remarks, ""),
        OrText(w.othersText, ""))
  }

  datatype EditField = OrderTypeField | StatusField | DeliveryDateField | TeethField | ShadeField | MaterialField | RemarksField | OthersTextField

  /** `handleChange` and the select handlers: only the named field changes;
      typing into the tooth input turns it into text. */
  function ChangeEdit(form: EditForm, field: EditField, value: string): (r: EditForm)
    ensures field == TeethField ==> r == form.(toothNumbers := TeethText(value))
    ensures field == OrderTypeField ==> r == form.(orderType := value)
    ensures field == OthersTextField ==> r == form.(othersText := value)
    ensures r.id == form.id
    ensures field != TeethField ==> r.toothNumbers == form.toothNumbers
  {
    match field
    case OrderTypeField => form.(orderType := value)
    case StatusField => form.(status := value)
    case DeliveryDateField => form.(expectedDeliveryDate := value)
    case TeethField => form.(toothNumbers := TeethText(value))
    case ShadeField => form.(shade := value)
    case MaterialField => form.(material := value)
    case RemarksField => form.(remarks := value)
    case OthersTextField => form.(othersText := value)
  }

  /** The edit form's validation failures. */
  datatype EditIssue = EditOrderTypeRequired | DescriptionRequired

  function EditIssueKey(i: EditIssue): string {
    match i
    case EditOrderTypeRequired => "orderType"
    case DescriptionRequired => "othersText"
  }

  function EditIssueMessage(i: EditIssue): string {
    match i
    case EditOrderTypeRequired => "Order type is required"
    case DescriptionRequired => "Description is required for 'Others'"
  }

  /** The edit form's checks: an order type is required, and "Others"
      needs a description (a blank one passes). */
  function EditErrors(form: EditForm): (r: seq<EditIssue>)
    ensures EditOrderTypeRequired in r <==> form.orderType == ""
    ensures DescriptionRequired in r <==> form.orderType == "Others" && form.othersText == ""
    ensures r == [] <==> form.orderType != "" && !(form.orderType == "Others" && form.othersText == "")
  {
    (if form.orderType == "" then [EditOrderTypeRequired] else [])
    + (if form.orderType == "Others" && form.othersText == "" then [DescriptionRequired] else [])
  }

  /** The tooth list sent: typed text is split on ",", each piece trimmed
      and empty pieces dropped; a list passes through; nothing gives []. */
  function ParseTeeth(t: Teeth): (r: seq<string>)
    ensures t.TeethList? ==> r == t.items
    ensures t.NoTeeth? ==> r == []
    ensures t.TeethText? ==> forall x :: x in r <==> x != "" && IsPiece(Text.Split(t.text, ','), x)
    ensures t.TeethText? ==> forall i :: 0 <= i < |r| ==> r[i] != ""
    ensures t.TeethText? ==> r == Lists.Filter(TrimAll(Text.Split(t.text, ',')), Filled)
  {
    match t
    case TeethList(items) => items
    case NoTeeth => []
    case TeethText(s) => CleanPieces(Text.Split(s, ','))
  }

  /** `x` is one of the pieces once trimmed. */
  predicate IsPiece(pieces: seq<string>, x: string) {
    exists i :: 0 <= i < |pieces| && Text.Trim(pieces[i]) == x
  }

  /** A non-empty text: `Boolean` as a filter on texts. */
  function Filled(x: string): bool {
    x != ""
  }

  /** `pieces.map(t => t.trim()).filter(Boolean)`. */
  function CleanPieces(pieces: seq<string>): (r: seq<string>)
    ensures forall x :: x in r <==> x != "" && IsPiece(pieces, x)
    ensures forall i :: 0 <= i < |r| ==> r[i] != ""
    ensures r == Lists.Filter(TrimAll(pieces), Filled)
  {
    var trimmed := TrimAll(pieces);
    assert forall x :: x in trimmed <==> IsPiece(pieces, x) by {
      forall x ensures x in trimmed <==> IsPiece(pieces, x) {
        if x in trimmed {
          var i :| 0 <= i < |trimmed| && trimmed[i] == x;
        }
      }
    }
    Lists.Filter(trimmed, Filled)
  }

  function TrimAll(xs: seq<string>): (r: seq<string>)
    ensures |r| == |xs| && forall i :: 0 <= i < |xs| ==> r[i] == Text.Trim(xs[i])
  {
    if xs == [] then [] else [Text.Trim(xs[0])] + TrimAll(xs[1..])
  }

  /** Typing a comma-separated list of tooth numbers gives that list back. */
  lemma ParseTeethOfJoined(xs: seq<string>)
    requires |xs| >= 1
    requires forall i :: 0 <= i < |xs| ==> xs[i] != "" && Text.Free(xs[i], ',') && Text.Trim(xs[i]) == xs[i]
    ensures ParseTeeth(TeethText(Text.Join(xs, ","))) == xs
  {
    Text.SplitJoin(xs, ',');
    assert Text.Split(Text.Join(xs, ","), ',') == xs;
    assert TrimAll(xs) == xs;
    assert CleanPieces(xs) == Lists.Filter(xs, Filled);
  }

  /** What pressing "save" does. */
  datatype EditSubmission = ShowErrors(errors: seq<EditIssue>) | NothingSelected | Dispatched(id: string, updates: EditForm)

  function SubmitEdit(form: EditForm, labWork: Option<LabWorkItem>): (r: EditSubmission)
    ensures EditErrors(form) != [] ==> r == ShowErrors(EditErrors(form))
    ensures EditErrors(form) == [] && labWork.None? ==> r == NothingSelected
    ensures r.Dispatched? ==>
      && labWork.Some? && r.id == labWork.value.id
      && r.updates == form.(toothNumbers := TeethList(ParseTeeth(form.toothNumbers)))
  {
    var errors := EditErrors(form);
    if errors != [] then ShowErrors(errors)
    else if labWork.None? then NothingSelected
    else Dispatched(labWork.value.id, form.(toothNumbers := TeethList(ParseTeeth(form.toothNumbers))))
  }
}
