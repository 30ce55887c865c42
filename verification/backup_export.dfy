/** The downloadable backup archive (`streamBackupZip` in
    `src/app/utils/backup.ts`): which collections a role exports and how the
    documents of each are framed as one JSON array per archive entry. The
    collection listing and the JSON text of each document are inputs. */
module BackupExport {

  import opened Wrappers
  import Text

  datatype Role = Admin | Doctor

  /** The collections a doctor may export, in archive order. */
  const DoctorCollections: seq<string> := ["appointments", "labworks", "patients", "billings"]

  /** One archive entry: its file name and its text. */
  datatype Entry = Entry(name: string, content: string)

  /** Why an export fails: no database handle, or the listing of the
      collections or the reading of one of them threw. */
  datatype ExportError = NotConnected | Thrown(error: string) {
    function Message(): string {
      match this
      case NotConnected => "DB not connected"
      case Thrown(e) => e
    }
  }

  /** Collections exported for a role: an administrator gets every
      collection the database lists, or the listing's error; a doctor the
      fixed four, without asking the database. */
  function SelectCollections(role: Role, listed: Result<seq<string>, string>): (r: Result<seq<string>, string>)
    ensures role == Admin ==> r == listed
    ensures role == Doctor ==> r == Success(DoctorCollections)
  {
    match role
    case Admin => listed
    case Doctor => Success(DoctorCollections)
  }

  /** The text of one entry: "[\n", the documents separated by ",\n", "\n]". */
  function Frame(docs: seq<string>): (r: string)
    ensures Text.StartsWith(r, "[\n") && Text.EndsWith(r, "\n]")
    ensures docs == [] ==> r == "[\n\n]"
  {
    var body := Text.Join(docs, ",\n");
    var r := "[\n" + body + "\n]";
    assert r[..2] == "[\n";
    assert r[|r| - 2..] == "\n]";
    r
  }

  /** Reads an entry back into its documents. */
  function Unframe(content: string): (r: Option<seq<string>>)
  {
    if |content| < 4 || content[..2] != "[\n" || content[|content| - 2..] != "\n]" then None
    else
      var body := content[2..|content| - 2];
      if body == "" then Some([])
      else Some(StripCommas(Text.Split(body, '\n')))
  }

  /** A line without its trailing ',', if it has one. */
  function DropComma(line: string): (r: string)
    ensures line == r + "," || (line == r && (r == "" || r[|r| - 1] != ','))
  {
    if |line| > 0 && line[|line| - 1] == ',' then
      assert line == line[..|line| - 1] + ",";
      line[..|line| - 1]
    else line
  }

  lemma DropCommaOf(doc: string)
    ensures DropComma(doc + ",") == doc
  {
    var line := doc + ",";
    assert line[..|line| - 1] == doc;
  }

  /** Drop the trailing ',' of every line but the last. */
  function StripCommas(lines: seq<string>): (r: seq<string>)
    ensures |r| == |lines|
  {
    if |lines| <= 1 then lines
    else [DropComma(lines[0])] + StripCommas(lines[1..])
  }

  /** Line `i` of StripCommas: the line without its comma, the last line as is. */
  lemma {:induction false} StripCommasAt(lines: seq<string>, i: nat)
    requires i < |lines|
    ensures StripCommas(lines)[i] == if i < |lines| - 1 then DropComma(lines[i]) else lines[i]
  {
    if |lines| > 1 && i > 0 {
      StripCommasAt(lines[1..], i - 1);
      assert StripCommas(lines)[i] == StripCommas(lines[1..])[i - 1];
    }
  }

  /** The lines of a framed body: every document but the last carries the
      comma that separates it from the next. */
  function WithCommas(docs: seq<string>): (r: seq<string>)
    ensures |r| == |docs|
  {
    if |docs| <= 1 then docs
    else [docs[0] + ","] + WithCommas(docs[1..])
  }

  /** Line `i` of WithCommas: the document and a comma, the last one as is. */
  lemma {:induction false} WithCommasAt(docs: seq<string>, i: nat)
    requires i < |docs|
    ensures WithCommas(docs)[i] == if i < |docs| - 1 then docs[i] + "," else docs[i]
  {
    if |docs| > 1 && i > 0 {
      WithCommasAt(docs[1..], i - 1);
      assert WithCommas(docs)[i] == WithCommas(docs[1..])[i - 1];
    }
  }

  lemma {:induction false} JoinWithCommas(docs: seq<string>)
    requires |docs| >= 1
    ensures Text.Join(docs, ",\n") == Text.Join(WithCommas(docs), "\n")
  {
    if |docs| > 1 {
      JoinWithCommas(docs[1..]);
      Text.JoinPrepend(docs[0] + ",", WithCommas(docs[1..]), "\n");
      assert WithCommas(docs) == [docs[0] + ","] + WithCommas(docs[1..]);
      assert docs[0] + ",\n" + Text.Join(docs[1..], ",\n") == docs[0] + "," + "\n" + Text.Join(docs[1..], ",\n");
    }
  }

  lemma {:induction false} StripWithCommas(docs: seq<string>)
    ensures StripCommas(WithCommas(docs)) == docs
  {
    var w := WithCommas(docs);
    var r := StripCommas(w);
    forall i | 0 <= i < |docs| ensures r[i] == docs[i] {
      WithCommasAt(docs, i);
      StripCommasAt(w, i);
      if i < |docs| - 1 {
        DropCommaOf(docs[i]);
      }
    }
  }

  /** JSON text without an indent never holds a raw line break, and is
      never empty; under that condition the framing can be read back. */
  lemma FrameRoundTrip(docs: seq<string>)
    requires forall i :: 0 <= i < |docs| ==> docs[i] != "" && Text.Free(docs[i], '\n')
    ensures Unframe(Frame(docs)) == Some(docs)
  {
    var c := Frame(docs);
    var body := Text.Join(docs, ",\n");
    assert c == "[\n" + body + "\n]";
    assert c[2..|c| - 2] == body;
    if docs == [] {
    } else {
      JoinWithCommas(docs);
      var lines := WithCommas(docs);
      forall i | 0 <= i < |lines| ensures Text.Free(lines[i], '\n') {
        WithCommasFree(docs, i);
      }
      Text.SplitJoin(lines, '\n');
      StripWithCommas(docs);
      assert body != "" by {
        JoinNonEmpty(docs, ",\n");
      }
    }
  }

  lemma {:induction false} WithCommasFree(docs: seq<string>, i: nat)
    requires i < |docs|
    requires forall k :: 0 <= k < |docs| ==> Text.Free(docs[k], '\n')
    ensures Text.Free(WithCommas(docs)[i], '\n')
  {
    if |docs| > 1 && i > 0 {
      WithCommasFree(docs[1..], i - 1);
    }
  }

  lemma {:induction false} JoinNonEmpty(docs: seq<string>, sep: string)
    requires |docs| >= 1 && docs[0] != ""
    ensures Text.Join(docs, sep) != ""
  {
    if |docs| > 1 {
      assert Text.Join(docs, sep) == docs[0] + sep + Text.Join(docs[1..], sep);
      assert |Text.Join(docs, sep)| >= |docs[0]|;
    }
  }

  /** `streamBackupZip`: without a database handle it fails before any
      archive is built; a failed listing fails the export; otherwise one
      entry `<collection>.json` per selected collection, in selection order,
      each framing that collection's documents, and the first collection
      whose cursor fails fails the export with its error. `documents` gives
      the JSON text of a collection's documents, or the cursor's error. */
  function StreamBackup(hasDb: bool, role: Role, listed: Result<seq<string>, string>,
                        documents: string -> Result<seq<string>, string>)
    : (r: Result<seq<Entry>, ExportError>)
    ensures !hasDb <==> r == Failure(NotConnected)
    ensures hasDb && role == Admin && listed.Failure? ==> r == Failure(Thrown(listed.error))
    ensures hasDb && SelectCollections(role, listed).Success? ==>
      var cols := SelectCollections(role, listed).value;
      && (r.Success? <==> forall i :: 0 <= i < |cols| ==> documents(cols[i]).Success?)
      && (r.Success? ==>
            && |r.value| == |cols|
            && forall i :: 0 <= i < |cols| ==>
                 r.value[i].name == cols[i] + ".json" && r.value[i].content == Frame(documents(cols[i]).value))
      && (r.Failure? ==> exists i :: FirstFailure(cols, documents, i) && r.error == Thrown(documents(cols[i]).error))
  {
    if !hasDb then Failure(NotConnected)
    else match SelectCollections(role, listed)
      case Failure(e) => Failure(Thrown(e))
      case Success(cols) =>
        match Entries(cols, documents)
        case Failure(e) => Failure(Thrown(e))
        case Success(entries) => Success(entries)
  }

  /** Collection `i` is the first whose cursor fails. */
  predicate FirstFailure(cols: seq<string>, documents: string -> Result<seq<string>, string>, i: int) {
    && 0 <= i < |cols|
    && documents(cols[i]).Failure?
    && forall j :: 0 <= j < i ==> documents(cols[j]).Success?
  }

  /** The entries of the selected collections, read in order; reading
      stops at the first cursor that fails. */
  function Entries(cols: seq<string>, documents: string -> Result<seq<string>, string>): (r: Result<seq<Entry>, string>)
    ensures r.Success? <==> forall i :: 0 <= i < |cols| ==> documents(cols[i]).Success?
    ensures r.Success? ==> |r.value| == |cols|
    ensures r.Success? ==> forall i :: 0 <= i < |cols| ==>
      r.value[i] == Entry(cols[i] + ".json", Frame(documents(cols[i]).value))
    ensures r.Failure? ==> exists i :: FirstFailure(cols, documents, i) && r.error == documents(cols[i]).error
  {
    if cols == [] then Success([])
    else match documents(cols[0])
      case Failure(e) =>
        assert FirstFailure(cols, documents, 0);
        Failure(e)
      case Success(docs) =>
        match Entries(cols[1..], documents)
        case Failure(e) =>
          var k :| FirstFailure(cols[1..], documents, k) && e == documents(cols[1..][k]).error;
          assert FirstFailure(cols, documents, k + 1);
          Failure(e)
        case Success(rest) =>
          Success([Entry(cols[0] + ".json", Frame(docs))] + rest)
  }
}
