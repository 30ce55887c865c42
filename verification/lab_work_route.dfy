/** The lab-order creation endpoint (`createLabWork` and `POST` in
    `src/app/api/doctor/labWork/add/route.ts`): attachment filtering and
    validation, the upload of each file, the request object handed to the
    schema, and the status code of every outcome. The upload service, the
    JSON decoder, the date coercion and the database insert are inputs. */
module LabWorkRoute {

  import opened Wrappers
  import opened LabWorkSchema

  /** 10 MiB: a file of exactly this size is accepted. */
  const MaxFileSize: nat := 10 * 1024 * 1024

  const AllowedFileTypes: seq<string> := ["image/jpeg", "image/png", "image/webp", "application/pdf"]

  datatype File = File(name: string, size: nat, mime: string)

  /** A multipart form value: a text or a file. */
  datatype FormValue = FormText(text: string) | FormFile(file: File)

  /** The multipart form, entries in submission order. */
  type Form = seq<(string, FormValue)>

  /** What the upload service reports for one file. */
  datatype Upload = Upload(publicId: string, secureUrl: string, format: string, bytes: int, originalFilename: string)

  /** The values under key "attachments" that are non-empty files, in order. */
  function AttachmentFiles(form: Form): (r: seq<File>)
    ensures forall f :: f in r <==> exists i :: 0 <= i < |form| && form[i] == ("attachments", FormFile(f)) && f.size > 0
    ensures |r| <= |form|
  {
    if form == [] then []
    else
      var rest := AttachmentFiles(form[1..]);
      assert forall i :: 1 <= i < |form| ==> form[i] == form[1..][i - 1];
      if form[0].0 == "attachments" && form[0].1.FormFile? && form[0].1.file.size > 0
      then [form[0].1.file] + rest
      else rest
  }

  /** The complaints about one file: too large, and/or of a type not allowed. */
  function FileIssues(f: File): (r: seq<string>)
    ensures |r| == (if f.size > MaxFileSize then 1 else 0) + (if f.mime in AllowedFileTypes then 0 else 1)
    ensures r == [] <==> f.size <= MaxFileSize && f.mime in AllowedFileTypes
  {
    (if f.size > MaxFileSize then ["File " + f.name + " exceeds 10MB limit"] else [])
    + (if f.mime in AllowedFileTypes then [] else ["Invalid file type for " + f.name + ": " + f.mime])
  }

  predicate Acceptable(f: File) {
    f.size <= MaxFileSize && f.mime in AllowedFileTypes
  }

  function FileErrors(files: seq<File>): (r: seq<string>)
    ensures r == [] <==> forall i :: 0 <= i < |files| ==> Acceptable(files[i])
    ensures |r| <= 2 * |files|
  {
    if files == [] then [] else FileIssues(files[0]) + FileErrors(files[1..])
  }

  /** Every upload must succeed; the failure reported is the first in file
      order, where `Promise.all` reports the first to settle in time. */
  function UploadAll(files: seq<File>, upload: File -> Result<Upload, string>): (r: Result<seq<Upload>, string>)
    ensures r.Success? <==> forall i :: 0 <= i < |files| ==> upload(files[i]).Success?
    ensures r.Success? ==> |r.value| == |files| && forall i :: 0 <= i < |files| ==> r.value[i] == upload(files[i]).value
    ensures r.Failure? ==> exists i :: 0 <= i < |files| && upload(files[i]) == Failure(r.error)
                                       && forall j :: 0 <= j < i ==> upload(files[j]).Success?
  {
    if files == [] then Success([])
    else
      match upload(files[0])
      case Failure(e) => Failure(e)
      case Success(u) =>
        match UploadAll(files[1..], upload)
        case Failure(e) =>
          var i :| 0 <= i < |files[1..]| && upload(files[1..][i]) == Failure(e)
            && forall j :: 0 <= j < i ==> upload(files[1..][j]).Success?;
          assert upload(files[i + 1]) == Failure(e);
          Failure(e)
        case Success(us) => Success([u] + us)
  }

  /** The stored attachment record for an upload; the service's file name
      falls back to the submitted one when empty. */
  function AttachmentRecord(u: Upload, f: File): (r: Json)
    ensures IsAttachment(r)
    ensures FieldOf(r.fields, "original_filename") == Some(JStr(if u.originalFilename != "" then u.originalFilename else f.name))
    ensures FieldOf(r.fields, "url") == Some(JStr(u.secureUrl))
  {
    var name := if u.originalFilename != "" then u.originalFilename else f.name;
    var fs := [("public_id", JStr(u.publicId)), ("url", JStr(u.secureUrl)), ("format", JStr(u.format)),
               ("bytes", JNum(u.bytes)), ("original_filename", JStr(name))];
    assert FieldOf(fs, "public_id") == Some(JStr(u.publicId));
    assert FieldOf(fs[1..], "url") == Some(JStr(u.secureUrl));
    assert FieldOf(fs, "url") == Some(JStr(u.secureUrl));
    assert FieldOf(fs[2..], "format") == Some(JStr(u.format));
    assert FieldOf(fs[1..], "format") == Some(JStr(u.format));
    assert FieldOf(fs, "format") == Some(JStr(u.format));
    assert FieldOf(fs[3..], "bytes") == Some(JNum(u.bytes));
    assert FieldOf(fs[2..], "bytes") == Some(JNum(u.bytes));
    assert FieldOf(fs[1..], "bytes") == Some(JNum(u.bytes));
    assert FieldOf(fs, "bytes") == Some(JNum(u.bytes));
    assert FieldOf(fs[4..], "original_filename") == Some(JStr(name));
    assert FieldOf(fs[3..], "original_filename") == Some(JStr(name));
    assert FieldOf(fs[2..], "original_filename") == Some(JStr(name));
    assert FieldOf(fs[1..], "original_filename") == Some(JStr(name));
    assert FieldOf(fs, "original_filename") == Some(JStr(name));
    JObj(fs)
  }

  function AttachmentRecords(us: seq<Upload>, files: seq<File>): (r: seq<Json>)
    requires |us| == |files|
    ensures |r| == |files| && forall i :: 0 <= i < |files| ==> r[i] == AttachmentRecord(us[i], files[i])
  {
    if us == [] then [] else [AttachmentRecord(us[0], files[0])] + AttachmentRecords(us[1..], files[1..])
  }

  /** How a form value looks in the request object: a file is an object
      without the fields any rule asks for. */
  function AsJson(x: FormValue): Json {
    match x
    case FormText(t) => JStr(t)
    case FormFile(_) => JObj([])
  }

  /** The value of the last entry named `k`, if any. */
  function LastValue(form: Form, k: string): (r: Option<FormValue>)
    ensures r.Some? <==> exists i :: 0 <= i < |form| && form[i].0 == k
    ensures r.Some? ==> exists i :: 0 <= i < |form| && form[i] == (k, r.value)
                                     && forall j :: i < j < |form| ==> form[j].0 != k
  {
    if form == [] then None
    else if form[|form| - 1].0 == k then Some(form[|form| - 1].1)
    else
      var r := LastValue(form[..|form| - 1], k);
      LastValueOfInit(form, k, r);
      r
  }

  /** When the last entry has another name, the answer for the entries
      before it is the answer for all of them. */
  lemma LastValueOfInit(form: Form, k: string, r: Option<FormValue>)
    requires form != [] && form[|form| - 1].0 != k
    requires var init := form[..|form| - 1];
      && (r.Some? <==> exists i :: 0 <= i < |init| && init[i].0 == k)
      && (r.Some? ==> exists i :: 0 <= i < |init| && init[i] == (k, r.value)
                                   && forall j :: i < j < |init| ==> init[j].0 != k)
    ensures r.Some? <==> exists i :: 0 <= i < |form| && form[i].0 == k
    ensures r.Some? ==> exists i :: 0 <= i < |form| && form[i] == (k, r.value)
                                     && forall j :: i < j < |form| ==> form[j].0 != k
  {
    var init := form[..|form| - 1];
    if exists i :: 0 <= i < |form| && form[i].0 == k {
      var i :| 0 <= i < |form| && form[i].0 == k;
      assert i < |init| && init[i].0 == k;
    }
    if r.Some? {
      var i :| 0 <= i < |init| && init[i] == (k, r.value) && forall j :: i < j < |init| ==> init[j].0 != k;
      assert form[i] == (k, r.value);
      forall j | i < j < |form| ensures form[j].0 != k {
        if j < |init| {
          assert init[j] == form[j];
        }
      }
    }
  }

  /** `Object.fromEntries(formData.entries())`: one key per entry name,
      holding the value of the last entry with that name. */
  function FormObject(form: Form): (r: Request)
    ensures forall k :: k in r <==> LastValue(form, k).Some?
    ensures forall k :: k in r ==> r[k] == AsJson(LastValue(form, k).value)
  {
    var names := set i | 0 <= i < |form| :: form[i].0;
    map k | k in names :: AsJson(LastValue(form, k).value)
  }

  /** The text `JSON.parse` sees for the toothNumbers field. */
  function DecoderInput(x: Option<Json>): string {
    match x
    case None => "undefined"
    case Some(JStr(t)) => t
    case Some(_) => "[object File]"
  }

  /** The request object: the form's fields, then the decoded tooth numbers,
      the attachment records and the request time. */
  function RequestObject(form: Form, teeth: Json, attachments: seq<Json>, now: string): (m: Request)
    ensures "toothNumbers" in m && m["toothNumbers"] == teeth
    ensures "attachments" in m && m["attachments"] == JArr(attachments)
    ensures "sentToLabOn" in m && m["sentToLabOn"] == JStr(now)
    ensures forall k :: k in m && k !in ["toothNumbers", "attachments", "sentToLabOn"] ==>
      k in FormObject(form) && m[k] == FormObject(form)[k]
  {
    FormObject(form)["toothNumbers" := teeth]["attachments" := JArr(attachments)]["sentToLabOn" := JStr(now)]
  }

  /** The stored model's own check before the insert: an unknown status is
      a validation error. */
  function EnumMessage(status: string): string {
    "LabWork validation failed: status: `" + status + "` is not a valid enum value for path `status`."
  }

  datatype Response =
    | Created(record: Parsed)
    | Rejected(status: nat, error: string, details: seq<string>)

  /** The response, and the side effects: how many files were sent to the
      upload service and whether the insert was attempted. */
  datatype Outcome = Outcome(response: Response, uploads: nat, insertAttempted: bool)

  /** The status code `POST` answers with. */
  function StatusCode(r: Response): (c: nat)
    ensures r.Created? ==> c == 201
    ensures r.Rejected? ==> c == r.status
  {
    if r.Created? then 201 else r.status
  }

  function Keys(fs: seq<Field>): (r: seq<string>)
    ensures |r| == |fs| && forall i :: 0 <= i < |fs| ==> r[i] == Key(fs[i])
  {
    if fs == [] then [] else [Key(fs[0])] + Keys(fs[1..])
  }

  /** Everything before the schema runs: the early response, or the
      request object built from the form, the uploads and the request time. */
  function Prepare(form: Form, now: string, decode: string -> Result<Json, string>, upload: File -> Result<Upload, string>)
    : (r: Result<Request, Response>)
    // file checks come first
    ensures FileErrors(AttachmentFiles(form)) != [] ==>
      r == Failure(Rejected(400, "File validation failed", FileErrors(AttachmentFiles(form))))
    // a failed upload or a failed decode is a server error with its message
    ensures FileErrors(AttachmentFiles(form)) == [] && UploadAll(AttachmentFiles(form), upload).Failure? ==>
      r == Failure(Rejected(500, UploadAll(AttachmentFiles(form), upload).error, []))
    ensures r.Success? <==>
      && FileErrors(AttachmentFiles(form)) == []
      && UploadAll(AttachmentFiles(form), upload).Success?
      && decode(DecoderInput(Get(FormObject(form), "toothNumbers"))).Success?
    ensures r.Success? ==>
      r.value == RequestObject(form, decode(DecoderInput(Get(FormObject(form), "toothNumbers"))).value,
        AttachmentRecords(UploadAll(AttachmentFiles(form), upload).value, AttachmentFiles(form)), now)
    ensures r.Failure? ==>
      && r.error.Rejected? && r.error.status in {400, 500}
      && (r.error.details != [] ==> r.error.status == 400)
  {
    var files := AttachmentFiles(form);
    var errors := FileErrors(files);
    if errors != [] then Failure(Rejected(400, "File validation failed", errors))
    else
      match UploadAll(files, upload)
      case Failure(e) => Failure(Rejected(500, e, []))
      case Success(us) =>
        match decode(DecoderInput(Get(FormObject(form), "toothNumbers")))
        case Failure(e) => Failure(Rejected(500, e, []))
        case Success(teeth) => Success(RequestObject(form, teeth, AttachmentRecords(us, files), now))
  }

  /** The schema, the model's status check and the insert: the response and
      whether the insert was attempted. */
  function Submit(v: Variant, m: Request, isDate: Json -> bool, insert: Parsed -> Result<(), string>)
    : (r: (Response, bool))
    ensures Parse(v, m, isDate).Failure? ==>
      r == (Rejected(400, "Validation failed", Keys(Parse(v, m, isDate).error)), false)
    ensures Parse(v, m, isDate).Success? && !ModelAcceptsStatus(Parse(v, m, isDate).value.status) ==>
      r == (Rejected(500, EnumMessage(Parse(v, m, isDate).value.status), []), false)
    ensures Parse(v, m, isDate).Success? && ModelAcceptsStatus(Parse(v, m, isDate).value.status) ==>
      && r.1
      && (r.0.Created? <==> insert(Parse(v, m, isDate).value).Success?)
      && (r.0.Created? ==> r.0.record == Parse(v, m, isDate).value)
      && (r.0.Rejected? ==> r.0 == Rejected(500, insert(Parse(v, m, isDate).value).error, []))
  {
    match Parse(v, m, isDate)
    case Failure(issues) => (Rejected(400, "Validation failed", Keys(issues)), false)
    case Success(p) =>
      if !ModelAcceptsStatus(p.status) then (Rejected(500, EnumMessage(p.status), []), false)
      else
        match insert(p)
        case Failure(e) => (Rejected(500, e, []), true)
        case Success(_) => (Created(p), true)
  }

  /** `createLabWork` under one schema variant. */
  function Create(
    v: Variant, form: Form, now: string,
    decode: string -> Result<Json, string>, isDate: Json -> bool,
    upload: File -> Result<Upload, string>, insert: Parsed -> Result<(), string>)
    : (r: Outcome)
    // files are uploaded only once all of them pass the checks
    ensures r.uploads == (if FileErrors(AttachmentFiles(form)) == [] then |AttachmentFiles(form)| else 0)
    ensures Prepare(form, now, decode, upload).Failure? ==>
      r.response == Prepare(form, now, decode, upload).error && !r.insertAttempted
    ensures Prepare(form, now, decode, upload).Success? ==>
      (r.response, r.insertAttempted) == Submit(v, Prepare(form, now, decode, upload).value, isDate, insert)
    // every failure is a 400 or a 500 and carries details only when it is a 400
    ensures r.response.Rejected? ==>
      && r.response.status in {400, 500}
      && (r.response.details != [] ==> r.response.status == 400)
    // a created order holds one attachment record per file, in order, and the request time
    ensures r.response.Created? ==>
      var files := AttachmentFiles(form);
      var us := UploadAll(files, upload);
      && r.insertAttempted && insert(r.response.record).Success?
      && us.Success?
      && r.response.record.attachments == Some(AttachmentRecords(us.value, files))
      && r.response.record.sentToLabOn == Some(JStr(now))
      && ModelAcceptsStatus(r.response.record.status)
  {
    var files := AttachmentFiles(form);
    var uploads := if FileErrors(files) == [] then |files| else 0;
    match Prepare(form, now, decode, upload)
    case Failure(response) => Outcome(response, uploads, false)
    case Success(m) =>
      CreatedRecord(v, form, now, decode, isDate, upload, insert, m);
      var (response, inserted) := Submit(v, m, isDate, insert);
      Outcome(response, uploads, inserted)
  }

  /** What a created order holds, once the request object is built. */
  lemma CreatedRecord(
    v: Variant, form: Form, now: string,
    decode: string -> Result<Json, string>, isDate: Json -> bool,
    upload: File -> Result<Upload, string>, insert: Parsed -> Result<(), string>, m: Request)
    requires Prepare(form, now, decode, upload) == Success(m)
    ensures var r := Submit(v, m, isDate, insert);
      r.0.Rejected? ==> r.0.status in {400, 500} && (r.0.details != [] ==> r.0.status == 400)
    ensures var r := Submit(v, m, isDate, insert);
      r.0.Created? ==>
      var files := AttachmentFiles(form);
      var us := UploadAll(files, upload);
      && r.1 && insert(r.0.record).Success?
      && us.Success?
      && r.0.record.attachments == Some(AttachmentRecords(us.value, files))
      && r.0.record.sentToLabOn == Some(JStr(now))
      && ModelAcceptsStatus(r.0.record.status)
  {
    var r := Submit(v, m, isDate, insert);
    if r.0.Created? {
      var p := Parse(v, m, isDate);
      assert p.Success? && r.0.record == p.value;
      assert "attachments" in m && "sentToLabOn" in m;
    }
  }

  /** As written: once at least one file passes the checks and every upload
      succeeds, the request is refused as invalid because of the
      attachments, after the files have been uploaded. */
  lemma AsWrittenRefusesUploads(
    form: Form, now: string, decode: string -> Result<Json, string>, isDate: Json -> bool,
    upload: File -> Result<Upload, string>, insert: Parsed -> Result<(), string>)
    requires |AttachmentFiles(form)| >= 1 && FileErrors(AttachmentFiles(form)) == []
    requires forall f :: f in AttachmentFiles(form) ==> upload(f).Success?
    requires decode(DecoderInput(Get(FormObject(form), "toothNumbers"))).Success?
    ensures var r := Create(AsWritten, form, now, decode, isDate, upload, insert);
      && r.response.Rejected? && r.response.status == 400 && r.response.error == "Validation failed"
      && "attachments" in r.response.details
      && r.uploads >= 1 && !r.insertAttempted
  {
    var files := AttachmentFiles(form);
    assert forall i :: 0 <= i < |files| ==> files[i] in files;
    var us := UploadAll(files, upload).value;
    var teeth := decode(DecoderInput(Get(FormObject(form), "toothNumbers"))).value;
    var m := RequestObject(form, teeth, AttachmentRecords(us, files), now);
    assert Prepare(form, now, decode, upload) == Success(m);
    AttachmentRecordRejected(m, isDate);
    var issues := Parse(AsWritten, m, isDate).error;
    AttachmentsListed(issues);
    assert Submit(AsWritten, m, isDate, insert) == (Rejected(400, "Validation failed", Keys(issues)), false);
    var r := Create(AsWritten, form, now, decode, isDate, upload, insert);
    assert r.response == Rejected(400, "Validation failed", Keys(issues));
  }

  /** Corrected: the attachment records the route builds are never a reason
      to refuse the request. */
  lemma CorrectedAcceptsUploads(
    form: Form, now: string, decode: string -> Result<Json, string>, isDate: Json -> bool,
    upload: File -> Result<Upload, string>, insert: Parsed -> Result<(), string>)
    requires FileErrors(AttachmentFiles(form)) == []
    requires forall f :: f in AttachmentFiles(form) ==> upload(f).Success?
    requires decode(DecoderInput(Get(FormObject(form), "toothNumbers"))).Success?
    ensures var r := Create(Corrected, form, now, decode, isDate, upload, insert);
      r.response.Rejected? && r.response.status == 400 ==> "attachments" !in r.response.details
  {
    var files := AttachmentFiles(form);
    assert forall i :: 0 <= i < |files| ==> upload(files[i]).Success? by {
      assert forall i :: 0 <= i < |files| ==> files[i] in files;
    }
    var p := Prepare(form, now, decode, upload);
    assert p.Success?;
    var m := p.value;
    RecordsAreAttachments(UploadAll(files, upload).value, files);
    SubmitKeepsAttachments(m, isDate, insert);
  }

  /** Under the corrected schema, a request whose attachments are all
      records is never refused because of them. */
  lemma SubmitKeepsAttachments(m: Request, isDate: Json -> bool, insert: Parsed -> Result<(), string>)
    requires "attachments" in m && m["attachments"].JArr?
    requires forall i :: 0 <= i < |m["attachments"].items| ==> IsAttachment(m["attachments"].items[i])
    ensures var r := Submit(Corrected, m, isDate, insert).0;
      r.Rejected? && r.status == 400 ==> "attachments" !in r.details
  {
    AttachmentRecordsAccepted(m, isDate);
    var parsed := Parse(Corrected, m, isDate);
    if parsed.Failure? {
      AttachmentsUnlisted(parsed.error);
    }
  }

  lemma RecordsAreAttachments(us: seq<Upload>, files: seq<File>)
    requires |us| == |files|
    ensures forall i :: 0 <= i < |AttachmentRecords(us, files)| ==> IsAttachment(AttachmentRecords(us, files)[i])
  {
  }

  lemma AttachmentsUnlisted(fs: seq<Field>)
    requires Attachments !in fs
    ensures "attachments" !in Keys(fs)
  {
    forall i | 0 <= i < |fs| ensures Keys(fs)[i] != "attachments" {
      KeyInjective(fs[i], Attachments);
    }
  }

  lemma AttachmentsListed(fs: seq<Field>)
    requires Attachments in fs
    ensures "attachments" in Keys(fs)
  {
    var i :| 0 <= i < |fs| && fs[i] == Attachments;
    assert Keys(fs)[i] == "attachments";
  }

  lemma KeyInjective(f: Field, g: Field)
    requires f != g
    ensures Key(f) != Key(g)
  {
  }

  /** As written: a request whose status is "In Progress" is never created
      and never inserted; once everything before the insert succeeds, the
      model's check answers 500. */
  lemma AsWrittenInProgressFails(
    form: Form, now: string, decode: string -> Result<Json, string>, isDate: Json -> bool,
    upload: File -> Result<Upload, string>, insert: Parsed -> Result<(), string>)
    requires "status" in FormObject(form) && FormObject(form)["status"] == JStr("In Progress")
    ensures var r := Create(AsWritten, form, now, decode, isDate, upload, insert);
      !r.response.Created? && !r.insertAttempted
    ensures var files := AttachmentFiles(form);
      var us := UploadAll(files, upload);
      var teeth := decode(DecoderInput(Get(FormObject(form), "toothNumbers")));
      FileErrors(files) == [] && us.Success? && teeth.Success?
      && Parse(AsWritten, RequestObject(form, teeth.value, AttachmentRecords(us.value, files), now), isDate).Success? ==>
        Create(AsWritten, form, now, decode, isDate, upload, insert).response
          == Rejected(500, EnumMessage("In Progress"), [])
  {
    InProgressPassesSchemaOnly();
    var p := Prepare(form, now, decode, upload);
    if p.Success? {
      InProgressKept(form, p.value, isDate);
    }
  }

  /** The status a form sends is the status the schema reads, and an
      "In Progress" status goes no further than the schema. */
  lemma InProgressKept(form: Form, m: Request, isDate: Json -> bool)
    requires "status" in FormObject(form) && FormObject(form)["status"] == JStr("In Progress")
    requires forall k :: k in m && k !in ["toothNumbers", "attachments", "sentToLabOn"] ==>
      k in FormObject(form) && m[k] == FormObject(form)[k]
    requires "status" in m
    ensures Parse(AsWritten, m, isDate).Success? ==> Parse(AsWritten, m, isDate).value.status == "In Progress"
  {
    assert "status" !in ["toothNumbers", "attachments", "sentToLabOn"];
    assert m["status"] == JStr("In Progress");
  }

  /** Corrected: the model's status check never refuses what the schema
      accepted, so a valid request reaches the insert. */
  lemma CorrectedReachesInsert(
    form: Form, now: string, decode: string -> Result<Json, string>, isDate: Json -> bool,
    upload: File -> Result<Upload, string>, insert: Parsed -> Result<(), string>)
    requires FileErrors(AttachmentFiles(form)) == []
    requires forall f :: f in AttachmentFiles(form) ==> upload(f).Success?
    requires decode(DecoderInput(Get(FormObject(form), "toothNumbers"))).Success?
    ensures var files := AttachmentFiles(form);
      var us := UploadAll(files, upload).value;
      var teeth := decode(DecoderInput(Get(FormObject(form), "toothNumbers"))).value;
      var m := RequestObject(form, teeth, AttachmentRecords(us, files), now);
      var r := Create(Corrected, form, now, decode, isDate, upload, insert);
      Parse(Corrected, m, isDate).Success? ==>
        && r.insertAttempted
        && (r.response.Created? <==> insert(Parse(Corrected, m, isDate).value).Success?)
  {
    var files := AttachmentFiles(form);
    var us := UploadAll(files, upload).value;
    var teeth := decode(DecoderInput(Get(FormObject(form), "toothNumbers"))).value;
    var m := RequestObject(form, teeth, AttachmentRecords(us, files), now);
    CorrectedStatusStorable(m, isDate);
  }
}
