/** The automatic backup of `StorageMonitor` (`src/app/utils/dbConnect.ts`):
    every non-empty collection becomes one CSV table whose rows are the
    documents flattened by `transformDocumentForCSV` and whose header is the
    sorted union of their field names; afterwards only the five newest
    backup archives are kept. The directory listing, the file times, the
    unlink results and `JSON.stringify` are inputs; the CSV text itself and
    the zip compression are not modelled. */
module DbBackup {

  import opened Wrappers
  import Text
  import Sorting
  import Lists

  /** A BSON value as the driver returns it. Numbers are kept as integers. */
  datatype Value =
    | Null
    | Undefined
    | Bool(b: bool)
    | Num(n: int)
    | Str(s: string)
    | ObjectId(hex: string)
    | Date(iso: string)
    | Arr(items: seq<Value>)
    | Obj(fields: seq<(string, Value)>)

  /** A flattened CSV cell: the transform leaves only texts and the
      primitives it copies unchanged. */
  predicate Flat(v: Value) {
    v.Null? || v.Undefined? || v.Bool? || v.Num? || v.Str?
  }

  /** What `Array.prototype.join` writes for one item. */
  function JoinText(v: Value, stringify: Value -> string): string {
    match v
    case Null => ""
    case Undefined => ""
    case Bool(b) => if b then "true" else "false"
    case Num(n) => Text.IntToString(n)
    case Str(s) => s
    case ObjectId(h) => h
    case Date(iso) => iso
    case Arr(_) => stringify(v)
    case Obj(_) => stringify(v)
  }

  /** How one array item is converted before the join: identifiers and
      dates become text, nested structures their JSON text. */
  function ItemCell(v: Value, stringify: Value -> string): (r: Value)
    ensures Flat(r)
    ensures !Flat(v) ==> r.Str?
    ensures Flat(v) ==> r == v
  {
    match v
    case ObjectId(h) => Str(h)
    case Date(iso) => Str(iso)
    case Arr(_) => Str(stringify(v))
    case Obj(_) => Str(stringify(v))
    case _ => v
  }

  /** The converted array items, joined with "; ". */
  function JoinItems(items: seq<Value>, stringify: Value -> string): (r: string)
  {
    Text.Join(JoinTexts(items, stringify), "; ")
  }

  function JoinTexts(items: seq<Value>, stringify: Value -> string): (r: seq<string>)
    ensures |r| == |items|
    ensures forall i :: 0 <= i < |items| ==> r[i] == JoinText(ItemCell(items[i], stringify), stringify)
  {
    if items == [] then []
    else [JoinText(ItemCell(items[0], stringify), stringify)] + JoinTexts(items[1..], stringify)
  }

  /** The flattened form of one field value. */
  function Cell(v: Value, stringify: Value -> string): (r: Value)
    ensures Flat(r)
    ensures v.ObjectId? ==> r == Str(v.hex)
    ensures v.Date? ==> r == Str(v.iso)
    ensures v.Arr? ==> r == Str(JoinItems(v.items, stringify))
    ensures v.Obj? ==> r == Str(stringify(v))
    ensures Flat(v) ==> r == v
  {
    match v
    case ObjectId(h) => Str(h)
    case Date(iso) => Str(iso)
    case Arr(items) => Str(JoinItems(items, stringify))
    case Obj(_) => Str(stringify(v))
    case _ => v
  }

  function Cells(fields: seq<(string, Value)>, stringify: Value -> string): (r: seq<(string, Value)>)
    ensures |r| == |fields|
    ensures forall i :: 0 <= i < |fields| ==> r[i] == (fields[i].0, Cell(fields[i].1, stringify))
  {
    if fields == [] then [] else [(fields[0].0, Cell(fields[0].1, stringify))] + Cells(fields[1..], stringify)
  }

  /** `transformDocumentForCSV`: same field names in the same order, every
      value flattened; anything but an object gives the empty record. */
  function TransformDocument(doc: Value, stringify: Value -> string): (r: seq<(string, Value)>)
    ensures doc.Obj? ==> |r| == |doc.fields|
    ensures doc.Obj? ==> forall i :: 0 <= i < |r| ==> r[i].0 == doc.fields[i].0
    ensures forall i :: 0 <= i < |r| ==> Flat(r[i].1)
    ensures !doc.Obj? ==> r == []
  {
    if doc.Obj? then Cells(doc.fields, stringify) else []
  }

  /** Flattening is the identity on a record that is already flat. */
  lemma {:induction false} TransformFlatIsIdentity(fields: seq<(string, Value)>, stringify: Value -> string)
    requires forall i :: 0 <= i < |fields| ==> Flat(fields[i].1)
    ensures TransformDocument(Obj(fields), stringify) == fields
  {
    var r := TransformDocument(Obj(fields), stringify);
    assert |r| == |fields|;
    forall i | 0 <= i < |fields| ensures r[i] == fields[i] {
      assert r[i] == (fields[i].0, Cell(fields[i].1, stringify));
    }
  }

  /** Flattening twice is flattening once. */
  lemma TransformIdempotent(doc: Value, stringify: Value -> string)
    ensures TransformDocument(Obj(TransformDocument(doc, stringify)), stringify) == TransformDocument(doc, stringify)
  {
    TransformFlatIsIdentity(TransformDocument(doc, stringify), stringify);
  }

  // ------------------------------------------------------ header fields

  function FieldNames(record: seq<(string, Value)>): (r: seq<string>)
    ensures |r| == |record|
    ensures forall i :: 0 <= i < |record| ==> r[i] == record[i].0
  {
    if record == [] then [] else [record[0].0] + FieldNames(record[1..])
  }

  function FieldUnion(records: seq<seq<(string, Value)>>): (r: seq<string>)
    ensures forall i, j :: 0 <= i < j < |r| ==> r[i] != r[j]
    ensures forall x :: x in r <==> exists d :: 0 <= d < |records| && x in FieldNames(records[d])
  {
    if records == [] then []
    else
      var front := FieldUnion(records[..|records| - 1]);
      var r := Lists.AddNew(front, FieldNames(records[|records| - 1]));
      assert forall x :: x in r <==> exists d :: 0 <= d < |records| && x in FieldNames(records[d]) by {
        forall x ensures x in r <==> exists d :: 0 <= d < |records| && x in FieldNames(records[d]) {
          if x in r && x !in front {
            assert x in FieldNames(records[|records| - 1]);
          }
          if exists d :: 0 <= d < |records| && x in FieldNames(records[d]) {
            var d :| 0 <= d < |records| && x in FieldNames(records[d]);
            if d < |records| - 1 {
              assert records[..|records| - 1][d] == records[d];
            }
          }
        }
      }
      r
  }

  /** `getFieldsFromDocuments`: every field name of every record, once
      each, in ascending order; none for no records. */
  function FieldsOf(records: seq<seq<(string, Value)>>): (r: seq<string>)
    ensures records == [] ==> r == []
    ensures forall i, j :: 0 <= i < j < |r| ==> Sorting.LexLe(r[i], r[j]) && r[i] != r[j]
    ensures forall x :: x in r <==> exists d :: 0 <= d < |records| && x in FieldNames(records[d])
  {
    if records == [] then []
    else
      var u := FieldUnion(records);
      Sorting.SortTextsStrict(u);
      var r := Sorting.SortTexts(u);
      assert forall x :: x in r <==> x in u by {
        forall x ensures x in r <==> x in u {
          assert x in r <==> x in multiset(r);
          assert x in u <==> x in multiset(u);
        }
      }
      r
  }

  // ----------------------------------------------------- backup run

  /** One CSV table of the backup: file name, header and flattened rows. */
  datatype CsvTable = CsvTable(fileName: string, header: seq<string>, rows: seq<seq<(string, Value)>>)

  datatype BackupRun = BackupRun(tempDir: string, zipPath: string, tables: seq<CsvTable>)

  /** Why a backup fails: no database handle, tested before the `try`, or
      the error a file-system or archive step threw inside it, which the
      `catch` re-throws unchanged. */
  datatype BackupError = NoDatabase | Thrown(error: string) {
    function Message(): string {
      match this
      case NoDatabase => "No database connection available for backup"
      case Thrown(e) => e
    }
  }

  /** The archive time stamp: `toISOString()` with ':' and '.' replaced by '-'. */
  function FileStamp(iso: string): (r: string)
    ensures |r| == |iso|
    ensures forall i :: 0 <= i < |r| ==> r[i] != ':' && r[i] != '.'
    ensures forall i :: 0 <= i < |r| ==> (iso[i] == ':' || iso[i] == '.' ==> r[i] == '-')
    ensures forall i :: 0 <= i < |r| ==> (iso[i] != ':' && iso[i] != '.' ==> r[i] == iso[i])
  {
    if iso == [] then []
    else [if iso[0] == ':' || iso[0] == '.' then '-' else iso[0]] + FileStamp(iso[1..])
  }

  function TransformAll(docs: seq<Value>, stringify: Value -> string): (r: seq<seq<(string, Value)>>)
    ensures |r| == |docs|
    ensures forall i :: 0 <= i < |docs| ==> r[i] == TransformDocument(docs[i], stringify)
  {
    if docs == [] then [] else [TransformDocument(docs[0], stringify)] + TransformAll(docs[1..], stringify)
  }

  /** The table written for one collection, or none when it is empty:
      one flattened row per document, in order, under a header naming
      every field of those rows. */
  function TableFor(name: string, docs: seq<Value>, stringify: Value -> string): (r: Option<CsvTable>)
    ensures r.None? <==> docs == []
    ensures r.Some? ==> r.value.fileName == name + ".csv" && |r.value.rows| == |docs|
    ensures r.Some? ==> r.value.header == FieldsOf(r.value.rows)
    ensures r.Some? ==> forall i :: 0 <= i < |docs| ==> r.value.rows[i] == TransformDocument(docs[i], stringify)
  {
    if docs == [] then None
    else
      var rows := TransformAll(docs, stringify);
      Some(CsvTable(name + ".csv", FieldsOf(rows), rows))
  }

  predicate NonEmpty(c: (string, seq<Value>)) {
    c.1 != []
  }

  /** The tables of the collections: the i-th table is the one of the
      i-th non-empty collection. */
  function Tables(collections: seq<(string, seq<Value>)>, stringify: Value -> string): (r: seq<CsvTable>)
    ensures |r| <= |collections|
    ensures forall t :: t in r ==> exists c :: c in collections && c.1 != [] && t.fileName == c.0 + ".csv"
    ensures forall c :: c in collections && c.1 != [] ==> exists t :: t in r && t.fileName == c.0 + ".csv"
    ensures Lists.MapsOnto(Lists.Filter(collections, NonEmpty), TableOf(stringify), r)
  {
    if collections == [] then []
    else
      var rest := Tables(collections[1..], stringify);
      var c := collections[0];
      var r := match TableFor(c.0, c.1, stringify)
        case None => rest
        case Some(t) => [t] + rest;
      Lists.FilterMapStep(collections, NonEmpty, TableOf(stringify), rest, r);
      FileNamesSound(collections, rest, r);
      FileNamesComplete(collections, rest, r);
      r
  }

  predicate NamedAfter(t: CsvTable, c: (string, seq<Value>)) {
    t.fileName == c.0 + ".csv"
  }

  /** Adding the head collection's table, if it has one, keeps every table
      named after a non-empty collection. */
  lemma FileNamesSound(collections: seq<(string, seq<Value>)>, rest: seq<CsvTable>, r: seq<CsvTable>)
    requires collections != []
    requires forall t :: t in rest ==> exists c :: c in collections[1..] && c.1 != [] && NamedAfter(t, c)
    requires collections[0].1 == [] ==> r == rest
    requires collections[0].1 != [] ==> r != [] && r == [r[0]] + rest && NamedAfter(r[0], collections[0])
    ensures forall t :: t in r ==> exists c :: c in collections && c.1 != [] && NamedAfter(t, c)
  {
    forall t | t in r ensures exists c :: c in collections && c.1 != [] && NamedAfter(t, c) {
      if t in rest {
        var c :| c in collections[1..] && c.1 != [] && NamedAfter(t, c);
        assert c in collections;
      } else {
        assert t == r[0];
        assert collections[0] in collections;
      }
    }
  }

  /** Adding the head collection's table, if it has one, keeps every
      non-empty collection named by a table. */
  lemma FileNamesComplete(collections: seq<(string, seq<Value>)>, rest: seq<CsvTable>, r: seq<CsvTable>)
    requires collections != []
    requires forall c :: c in collections[1..] && c.1 != [] ==> exists t :: t in rest && NamedAfter(t, c)
    requires collections[0].1 == [] ==> r == rest
    requires collections[0].1 != [] ==> r != [] && r == [r[0]] + rest && NamedAfter(r[0], collections[0])
    ensures forall c :: c in collections && c.1 != [] ==> exists t :: t in r && NamedAfter(t, c)
  {
    forall c | c in collections && c.1 != [] ensures exists t :: t in r && NamedAfter(t, c) {
      if c == collections[0] {
        assert r[0] in r;
      } else {
        assert collections == [collections[0]] + collections[1..];
        assert c in collections[1..];
        var t :| t in rest && NamedAfter(t, c);
        assert t in r;
      }
    }
  }

  function TableOf(stringify: Value -> string): ((string, seq<Value>)) -> Option<CsvTable> {
    (c: (string, seq<Value>)) => TableFor(c.0, c.1, stringify)
  }

  /** `performDatabaseBackup` up to the archive: it refuses without a
      database, then writes one table per non-empty collection into
      `temp-backup/<stamp>` and zips them into `backups/backup-<stamp>.zip`.
      `thrown` is the error of the first step inside the `try` that throws
      (creating the directories, listing the collections, writing a CSV
      file, building the archive, removing the temporary directory), or
      `None` when none does; the clean-up of old data catches its own
      errors and never fails the backup. */
  function PerformBackup(hasDb: bool, iso: string, collections: seq<(string, seq<Value>)>,
                         stringify: Value -> string, thrown: Option<string>): (r: Result<BackupRun, BackupError>)
    ensures !hasDb <==> r == Failure(NoDatabase)
    ensures hasDb ==> (r.Success? <==> thrown == None)
    ensures hasDb && thrown.Some? ==> r == Failure(Thrown(thrown.value))
    ensures r.Success? ==>
      && r.value.zipPath == "backups/backup-" + FileStamp(iso) + ".zip"
      && r.value.tempDir == "temp-backup/" + FileStamp(iso)
      && r.value.tables == Tables(collections, stringify)
    ensures r.Success? ==>
      var ne := Lists.Filter(collections, NonEmpty);
      && |r.value.tables| == Lists.Count(collections, NonEmpty)
      && forall i :: 0 <= i < |r.value.tables| ==> TableFor(ne[i].0, ne[i].1, stringify) == Some(r.value.tables[i])
  {
    if !hasDb then Failure(NoDatabase)
    else if thrown.Some? then Failure(Thrown(thrown.value))
    else
      var stamp := FileStamp(iso);
      var tables := Tables(collections, stringify);
      var ne := Lists.Filter(collections, NonEmpty);
      assert forall i :: 0 <= i < |tables| ==> TableOf(stringify)(ne[i]) == Some(tables[i]);
      Success(BackupRun("temp-backup/" + stamp, "backups/backup-" + stamp + ".zip", tables))
  }

  // ------------------------------------------------------- retention

  /** How many backup archives survive a clean-up. */
  const KeepBackups: nat := 5

  /** An archive the clean-up considers: `backup-*.zip`. */
  predicate IsBackupArchive(name: string) {
    Text.StartsWith(name, "backup-") && Text.EndsWith(name, ".zip")
  }

  /** A directory entry: its name and its modification time, or `None` when
      `stat` fails. */
  type Entry = (string, Option<int>)

  function Archives(entries: seq<Entry>): (r: seq<Entry>)
    ensures forall e :: e in r <==> e in entries && IsBackupArchive(e.0)
    ensures |r| <= |entries|
  {
    if entries == [] then []
    else if IsBackupArchive(entries[0].0) then [entries[0]] + Archives(entries[1..])
    else Archives(entries[1..])
  }

  predicate AllStated(entries: seq<Entry>) {
    forall i :: 0 <= i < |entries| ==> entries[i].1.Some?
  }

  /** The sort key of an entry: its modification time. */
  function MtimeKey(e: Entry): Sorting.Key {
    Sorting.Num(e.1.GetOr(0))
  }

  /** Newest first: stable sort by modification time, descending. */
  function NewestFirst(entries: seq<Entry>): (r: seq<Entry>)
    requires AllStated(entries)
    ensures multiset(r) == multiset(entries)
    ensures |r| == |entries|
    ensures AllStated(r)
    ensures forall i, j :: 0 <= i < j < |r| ==> r[i].1.value >= r[j].1.value
  {
    var r := Sorting.SortBy(entries, MtimeKey, true);
    assert forall i :: 0 <= i < |r| ==> r[i] in multiset(entries);
    r
  }

  /** Archives with the same modification time stay in listing order, as
      the stable `Array.prototype.sort` leaves them. */
  lemma NewestFirstKeepsTies(entries: seq<Entry>, time: int)
    requires AllStated(entries)
    ensures Lists.Filter(NewestFirst(entries), Sorting.KeyIs(MtimeKey, Sorting.Num(time)))
         == Lists.Filter(entries, Sorting.KeyIs(MtimeKey, Sorting.Num(time)))
  {
    Sorting.SortStable(entries, MtimeKey, true, Sorting.Num(time));
  }

  /** `cleanupOldBackups`: nothing when the directory is missing or a
      `stat` fails; otherwise the archives beyond the five newest are
      unlinked in order, and the first failed unlink ends the clean-up.
      The result lists the archives actually deleted. */
  function CleanupOldBackups(dirExists: bool, entries: seq<Entry>, unlinks: string -> bool): (deleted: seq<string>)
    ensures !dirExists ==> deleted == []
    ensures !AllStated(Archives(entries)) ==> deleted == []
    ensures AllStated(Archives(entries)) && |Archives(entries)| <= KeepBackups ==> deleted == []
    ensures dirExists && AllStated(Archives(entries)) && |Archives(entries)| > KeepBackups ==>
      deleted == UnlinkUntilFailure(NewestFirst(Archives(entries))[KeepBackups..], unlinks)
    ensures forall n :: n in deleted ==> IsBackupArchive(n) && exists e :: e in entries && e.0 == n
    ensures |deleted| <= |Archives(entries)| - KeepBackups || deleted == []
  {
    var archives := Archives(entries);
    if !dirExists || !AllStated(archives) then []
    else
      var sorted := NewestFirst(archives);
      if |sorted| <= KeepBackups then []
      else
        var deleted := UnlinkUntilFailure(sorted[KeepBackups..], unlinks);
        DeletedArchives(entries, sorted, deleted, unlinks);
        deleted
  }

  /** What the unlink loop deleted are archive names from the listing, at
      most as many as lie beyond the newest five. */
  lemma DeletedArchives(entries: seq<Entry>, sorted: seq<Entry>, deleted: seq<string>, unlinks: string -> bool)
    requires multiset(sorted) == multiset(Archives(entries)) && |sorted| > KeepBackups
    requires deleted == UnlinkUntilFailure(sorted[KeepBackups..], unlinks)
    ensures forall n :: n in deleted ==> IsBackupArchive(n) && exists e :: e in entries && e.0 == n
    ensures |deleted| <= |Archives(entries)| - KeepBackups
  {
    var archives := Archives(entries);
    var doomed := sorted[KeepBackups..];
    SuffixMembers(sorted, archives, KeepBackups);
    assert |sorted| == |multiset(sorted)| == |archives|;
    forall n | n in deleted ensures IsBackupArchive(n) && exists e :: e in entries && e.0 == n {
      var i :| 0 <= i < |deleted| && deleted[i] == n;
      assert doomed[i] in doomed;
      assert doomed[i] in archives && doomed[i].0 == n;
    }
  }

  /** The tail of a reordering holds only elements of the original. */
  lemma SuffixMembers<T>(sorted: seq<T>, original: seq<T>, k: nat)
    requires multiset(sorted) == multiset(original) && k <= |sorted|
    ensures forall e :: e in sorted[k..] ==> e in original
  {
    forall e | e in sorted[k..] ensures e in original {
      assert e in sorted;
      assert e in multiset(sorted);
    }
  }

  /** Unlink in order; stop at the first failure. */
  function UnlinkUntilFailure(doomed: seq<Entry>, unlinks: string -> bool): (deleted: seq<string>)
    ensures |deleted| <= |doomed|
    ensures forall i :: 0 <= i < |deleted| ==> deleted[i] == doomed[i].0 && unlinks(doomed[i].0)
    ensures |deleted| < |doomed| ==> !unlinks(doomed[|deleted|].0)
  {
    if doomed == [] then []
    else if unlinks(doomed[0].0) then [doomed[0].0] + UnlinkUntilFailure(doomed[1..], unlinks)
    else []
  }

  /** The five newest archives are never deleted, files that are not
      archives are never touched, and when every unlink succeeds exactly
      the archives beyond the newest five go. */
  lemma RetentionKeepsNewest(dirExists: bool, entries: seq<Entry>, unlinks: string -> bool)
    requires dirExists && AllStated(Archives(entries))
    requires DistinctNamed(entries)
    ensures var sorted := NewestFirst(Archives(entries));
      var deleted := CleanupOldBackups(dirExists, entries, unlinks);
      && (forall i :: 0 <= i < |sorted| && i < KeepBackups ==> sorted[i].0 !in deleted)
      && (forall e :: e in entries && !IsBackupArchive(e.0) ==> e.0 !in deleted)
      && ((forall n :: unlinks(n)) ==>
            |deleted| == (if |sorted| > KeepBackups then |sorted| - KeepBackups else 0))
      && ((forall n :: unlinks(n)) ==>
            forall i :: KeepBackups <= i < |sorted| ==> deleted[i - KeepBackups] == sorted[i].0)
  {
    var archives := Archives(entries);
    var sorted := NewestFirst(archives);
    var deleted := CleanupOldBackups(dirExists, entries, unlinks);
    if |sorted| > KeepBackups {
      assert deleted == UnlinkUntilFailure(sorted[KeepBackups..], unlinks);
      DistinctNames(entries, archives, sorted);
      NewestSurvive(sorted, unlinks);
      if forall n :: unlinks(n) {
        UnlinkAllFrom(sorted, unlinks);
      }
    }
  }

  /** With distinct names, none of the first five is among the unlinked. */
  lemma NewestSurvive(sorted: seq<Entry>, unlinks: string -> bool)
    requires DistinctNamed(sorted) && |sorted| > KeepBackups
    ensures forall i :: 0 <= i < KeepBackups ==> sorted[i].0 !in UnlinkUntilFailure(sorted[KeepBackups..], unlinks)
  {
  }

  /** When every unlink succeeds, the names of all entries beyond the first
      five are deleted, in order. */
  lemma UnlinkAllFrom(sorted: seq<Entry>, unlinks: string -> bool)
    requires forall n :: unlinks(n)
    requires |sorted| > KeepBackups
    ensures var deleted := UnlinkUntilFailure(sorted[KeepBackups..], unlinks);
      && |deleted| == |sorted| - KeepBackups
      && forall i :: KeepBackups <= i < |sorted| ==> deleted[i - KeepBackups] == sorted[i].0
  {
    UnlinkAllSucceed(sorted[KeepBackups..], unlinks);
  }

  lemma {:induction false} UnlinkAllSucceed(doomed: seq<Entry>, unlinks: string -> bool)
    requires forall n :: unlinks(n)
    ensures |UnlinkUntilFailure(doomed, unlinks)| == |doomed|
  {
    if doomed != [] {
      UnlinkAllSucceed(doomed[1..], unlinks);
    }
  }

  predicate DistinctNamed(xs: seq<Entry>) {
    forall i, j :: 0 <= i < j < |xs| ==> xs[i].0 != xs[j].0
  }

  /** Distinct directory names stay distinct after filtering and sorting. */
  lemma DistinctNames(entries: seq<Entry>, archives: seq<Entry>, sorted: seq<Entry>)
    requires DistinctNamed(entries)
    requires archives == Archives(entries) && AllStated(archives) && sorted == NewestFirst(archives)
    ensures DistinctNamed(sorted)
  {
    ArchivesDistinct(entries);
    PermutationKeepsDistinctNames(archives, sorted);
  }

  lemma PermutationKeepsDistinctNames(a: seq<Entry>, b: seq<Entry>)
    requires DistinctNamed(a) && multiset(a) == multiset(b)
    ensures DistinctNamed(b)
  {
    forall i, j | 0 <= i < j < |b| ensures b[i].0 != b[j].0 {
      if b[i].0 == b[j].0 {
        assert b[i] in multiset(a) && b[j] in multiset(a);
        var x :| 0 <= x < |a| && a[x] == b[i];
        var y :| 0 <= y < |a| && a[y] == b[j];
        if b[i] == b[j] {
          Sorting.MultisetCountTwo(b, i, j);
          Sorting.DistinctMultiset(a, b[i]);
        }
      }
    }
  }

  lemma {:induction false} ArchivesDistinct(entries: seq<Entry>)
    requires DistinctNamed(entries)
    ensures DistinctNamed(Archives(entries))
  {
    if entries != [] {
      var tail := entries[1..];
      assert DistinctNamed(tail) by {
        forall i, j | 0 <= i < j < |tail| ensures tail[i].0 != tail[j].0 {
          assert tail[i] == entries[i + 1] && tail[j] == entries[j + 1];
        }
      }
      ArchivesDistinct(tail);
      if IsBackupArchive(entries[0].0) {
        var rest := Archives(tail);
        HeadNameUnique(entries);
        assert Archives(entries) == [entries[0]] + rest;
        ConsDistinct(entries[0], rest);
      }
    }
  }

  /** No later entry shares the first entry's name. */
  lemma HeadNameUnique(entries: seq<Entry>)
    requires DistinctNamed(entries) && entries != []
    ensures forall e :: e in Archives(entries[1..]) ==> e.0 != entries[0].0
  {
    forall e | e in Archives(entries[1..]) ensures e.0 != entries[0].0 {
      assert e in entries[1..];
      var k :| 0 <= k < |entries[1..]| && entries[1..][k] == e;
      assert entries[k + 1] == e;
    }
  }

  lemma ConsDistinct(x: Entry, rest: seq<Entry>)
    requires DistinctNamed(rest)
    requires forall e :: e in rest ==> e.0 != x.0
    ensures DistinctNamed([x] + rest)
  {
    var a := [x] + rest;
    forall i, j | 0 <= i < j < |a| ensures a[i].0 != a[j].0 {
      assert a[j] == rest[j - 1];
      if i == 0 {
        assert a[j] in rest;
      } else {
        assert a[i] == rest[i - 1];
      }
    }
  }
}
