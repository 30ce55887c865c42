# Dental clinic core, modelled in Dafny

This project models the pure decision logic of a dental clinic's web
application (a Next.js and TypeScript system with a MongoDB store). Doctors
use it to book appointments, register patients, order lab work from dental
laboratories, bill patients and read analytics. The model covers:

- **Storage monitoring and backups** (`src/app/utils/dbConnect.ts`,
  `src/app/utils/backup.ts`):
  - the 512 MiB storage budget and its normal, warning and critical bands;
  - the throttled storage check and its cached status and listeners;
  - the connection retry loop;
  - how documents are flattened into backup spreadsheets, and the backup file names;
  - the retention rule that keeps the newest archives;
  - how the streaming backup export frames its output.
  Modules: `StorageMonitor`, `DbConnect`, `DbBackup`, `BackupExport`.
- **Lab work** (`src/app/redux/slices/labWorkSlice.ts`,
  `src/schemas/zobLabWorkSchema.ts`, `src/app/api/doctor/labWork/add/route.ts`,
  the add and edit forms, the lab work list page):
  - the client store's reducer;
  - the request schema;
  - the create route from form data to the HTTP response;
  - the forms' validation and payloads;
  - the list page's filter and pagination.
  Modules: `LabWorkSlice`, `LabWorkSchema`, `LabWorkRoute`, `LabWorkForms`, `LabWorkPage`.
- **The AI query route** (`src/app/api/aiQuery/route.ts`): the guardrails
  that decide which collections and operations a model-generated plan may
  touch, the result limits, and the response statuses. Module `AiQuery`.
- **Tables and pagination** (`src/app/components/DataTable.tsx`): search,
  date parsing, sorting and page windows. Modules `DataTable` and `Pagination`.
- **Analytics**:
  - lab work analytics: status shares, processing-time bins, turnaround, moving averages;
  - billing analytics: patient ranking, visit frequency, cohorts, growth;
  - the revenue page: totals, maps by mode, month and patient, and the CSV export.
  Modules: `LabAnalytics`, `BillingAnalytics`, `Ranking`, `Revenue`.
- **Billing** (`src/app/components/doctor/PatientBillingForm.tsx`): the
  treatment rows, subtotal and balance, the invoice header and the billing
  history. Modules `BillingForm` and `Records`.
- **Booking and registration**: the appointment booking wizard and the
  patient registration wizard, with patient look-up. Modules `BookingForm`,
  `RegistrationForm` and `Patients`.
- **The doctor dashboard** (`src/app/dashboard/pages/Doctor/page.tsx`):
  time-slot parsing, upcoming appointments, the period counts, the
  pending lab-work card and the treatment pies. Module `DoctorDashboard`.
- **The patient detail view**
  (`src/app/components/doctor/PatientDetailView.tsx`): the appointment and
  billing charts keyed by year or month, and the history lists. Module
  `PatientDetail`.

Shared helper modules:

- `Wrappers`: `Option` and `Result`.
- `Lists`: filters, counts and sums.
- `Text`: lower-casing, substring search, split and join, trimming, decimal digits.
- `Tally`: an insertion-ordered map from keys to counts, the model of a
  JavaScript object used as an accumulator.
- `Sorting`: stable insertion sort, by number or by text.
- `Stats`: mean, median, rates and rounding.

Everything that touches the outside world is a parameter of the model, so
each property holds for every behaviour of it. This covers the database,
the file system, the archiver, Cloudinary, the language model, the clock
and the locale formatting.

The code behaves as follows, which a reader might not expect:

- `DbBackup.CleanupOldBackups` stops at the first failed deletion, because
  all the deletions sit inside one `try`.
- A storage check first tests the connection and only then applies the
  five-minute throttle. An error status replaces the cached status but not
  the time of the last check.
- `DbConnect.Connect` with zero retries fails with no recorded error,
  because the last error is never set.

## Model

| member | source | states |
|---|---|---|
| StorageMonitor.MessageText | src/app/utils/dbConnect.ts:117-130 | the normal message reads "Storage usage normal"; the warning and critical messages open with "WARNING: " and "CRITICAL: ", the error message with "Storage monitoring error: " |
| StorageMonitor.MessageKindsDistinct | src/app/utils/dbConnect.ts:117-130 | two messages with the same text are of the same kind, so a listener can tell normal, warning, critical and error apart from the text alone |
| StorageMonitor.Classify | src/app/utils/dbConnect.ts:17-21 | at least 95% of the 512 MiB budget is critical, from 80% up to 95% is a warning, below 80% is normal; the bands agree with comparing `100 * size` against 95 and 80 times the budget |
| StorageMonitor.StatusFor | src/app/utils/dbConnect.ts:100-136 | a successful check asks for a backup exactly outside the normal band, reports the measured size and its share of the budget, and picks the critical, warning or normal message by band |
| StorageMonitor.ErrorStatus | src/app/utils/dbConnect.ts:161-174 | a failed check reports no backup need, zero usage and zero share, and a message opening with "Storage monitoring error: " |
| StorageMonitor.CheckStorage | src/app/utils/dbConnect.ts:67-175 | a missing or not-ready connection and a missing database end in the error status before the throttle; a successful check within five minutes returns the cached status without asking for stats; only a successful check moves the last-check time and notifies the listeners; the backup fires only in the critical band; the result is always cached and the check never fails; conversely every successful check outside the throttle window moves the last-check time to now and notifies every listener |
| StorageMonitor.Fail | src/app/utils/dbConnect.ts:161-174 | the catch branch caches the error status and changes nothing else |
| StorageMonitor.LastStatus | src/app/utils/dbConnect.ts:601-603 | the last status is present exactly when one was cached |
| StorageMonitor.StartMonitoring | src/app/utils/dbConnect.ts:557-589 | a second start while monitoring changes nothing; otherwise the stale timer is cleared, one timer runs, both flags are set and a first check is scheduled; the cache and listeners are untouched |
| StorageMonitor.StopMonitoring | src/app/utils/dbConnect.ts:591-599 | after a stop no timer runs and both flags are down; the cache and listeners are untouched |
| StorageMonitor.OperationsPreserveInvariants | src/app/utils/dbConnect.ts:557-599 | start, stop and check keep the monitor's lifecycle invariant (at most one running timer, which exists exactly while monitoring) and the cache invariant |
| StorageMonitor.StopWhenStopped | src/app/utils/dbConnect.ts:591-599 | stopping a monitor that is not running only clears the shared "started" flag |
| StorageMonitor.CheckAlwaysAnswers | src/app/utils/dbConnect.ts:84-90 | once a status has been cached, even a throttled check returns a status |
| StorageMonitor.AddListener | src/app/utils/dbConnect.ts:539-541 | registering appends the listener and changes nothing else |
| StorageMonitor.RemoveListener | src/app/utils/dbConnect.ts:543-545 | every registration of the listener goes and every other listener stays, in order: the registry is filtered by inequality with the listener |
| StorageMonitor.AddThenRemove | src/app/utils/dbConnect.ts:539-545 | removing a listener just added restores a registry that did not hold it |
| DbConnect.Connect | src/app/utils/dbConnect.ts:613-717 | a live connection is returned at once without an attempt; otherwise at most `retries` attempts, each failed one but the last followed by a back-off of `initialDelayMs · 2^(a−1)`; success exactly when some attempt succeeds, and then on the first one; after the last failure the last error (none when no attempt ran) is thrown; only the first connection promise schedules the monitor |
| DbBackup.ItemCell | src/app/utils/dbConnect.ts:313-319 | an array item becomes flat: identifiers and dates as text, nested objects as their JSON text, flat values unchanged |
| DbBackup.Cell | src/app/utils/dbConnect.ts:306-325 | a field value is flattened: identifier to its hex text, date to its ISO text, array to its converted items joined by "; ", other object to its JSON text, anything else unchanged |
| DbBackup.TransformDocument | src/app/utils/dbConnect.ts:297-329 | a document keeps its field names in order with every value flattened; anything but an object gives the empty record |
| DbBackup.TransformFlatIsIdentity | src/app/utils/dbConnect.ts:297-329 | a document that is already flat comes back unchanged |
| DbBackup.TransformIdempotent | src/app/utils/dbConnect.ts:297-329 | flattening a flattened document changes nothing |
| DbBackup.FieldsOf | src/app/utils/dbConnect.ts:331-345 | the header lists every field name of every document, each once, in ascending text order, and nothing for no documents |
| DbBackup.FileStamp | src/app/utils/dbConnect.ts:201 | the archive stamp is the ISO time with every ':' and '.' turned into '-' and every other character kept |
| DbBackup.TableFor | src/app/utils/dbConnect.ts:247-296 | an empty collection writes no table; otherwise `<collection>.csv` holds every document flattened, in order, under a header listing each field of those rows once, ascending |
| DbBackup.Tables | src/app/utils/dbConnect.ts:220-223 | the i-th table is the table of the i-th non-empty collection: one per non-empty collection, in the listed order, none for an empty one |
| DbBackup.PerformBackup | src/app/utils/dbConnect.ts:195-231 | without a database the backup fails with the "No database connection available for backup" error before the `try`; with one it succeeds exactly when no step inside the `try` throws, and otherwise fails with the error that step threw, re-thrown unchanged; on success the tables go into `temp-backup/<stamp>` and the archive is `backups/backup-<stamp>.zip`, with one table per non-empty collection, in order, each being that collection's table |
| DbBackup.Archives | src/app/utils/dbConnect.ts:506-511 | only directory entries named "backup-…zip" are considered |
| DbBackup.NewestFirst | src/app/utils/dbConnect.ts:524-525 | the archives are reordered, none lost or added, by modification time newest first |
| DbBackup.NewestFirstKeepsTies | src/app/utils/dbConnect.ts:524-525 | archives with the same modification time keep their listing order, as the stable `Array.prototype.sort` leaves them |
| DbBackup.CleanupOldBackups | src/app/utils/dbConnect.ts:489-535 | a missing directory, a failed `stat` or at most five archives delete nothing; otherwise the deleted names are those of the archives beyond the five newest, unlinked in order and stopping at the first failed unlink; only archives from the listing are deleted |
| DbBackup.UnlinkUntilFailure | src/app/utils/dbConnect.ts:530-533 | the files are unlinked in order until the first unlink that fails |
| DbBackup.RetentionKeepsNewest | src/app/utils/dbConnect.ts:524-533 | the five newest archives survive, other files are never touched, and when every unlink succeeds the deleted names are exactly the archives beyond the newest five, in newest-first order |
| BackupExport.SelectCollections | src/app/utils/backup.ts:21-29 | an administrator exports every collection the database lists, and a failed listing is passed on; a doctor exports appointments, labworks, patients and billings, in that order, without a listing |
| BackupExport.Frame | src/app/utils/backup.ts:37-47 | an entry opens with "[\n" and closes with "\n]", and an empty collection gives exactly "[\n\n]" |
| BackupExport.FrameRoundTrip | src/app/utils/backup.ts:37-47 | for single-line non-empty JSON texts the documents can be read back from the entry: the commas sit only between documents |
| BackupExport.WithCommasAt | src/app/utils/backup.ts:38-43 | line i of an entry body is document i followed by the "," written before the next document, and the last document carries no comma |
| BackupExport.StripCommasAt | src/app/utils/backup.ts:38-43 | reading back, every line but the last loses its trailing separator comma and the last line is kept as written |
| BackupExport.StripWithCommas | src/app/utils/backup.ts:38-43 | dropping the separator commas from the comma-carrying lines gives back exactly the documents written |
| BackupExport.JoinWithCommas | src/app/utils/backup.ts:38-43 | writing ",\n" between documents is the same text as putting "," after each document but the last and joining the lines with "\n" |
| BackupExport.StreamBackup | src/app/utils/backup.ts:9-52 | without a database handle the export fails with "DB not connected" before any archive; a failed listing fails it with the listing's error; otherwise it succeeds exactly when every selected collection can be read, with one entry `<collection>.json` per selected collection, in order, each framing that collection's documents, and fails with the error of the first collection whose cursor fails |
| BackupExport.Entries | src/app/utils/backup.ts:31-48 | collections are read in order; the result holds one entry per collection, named after it, holding its framed documents, exactly when no cursor fails, and otherwise the error of the first that fails |
| LabWorkSlice.Initial | src/app/redux/slices/labWorkSlice.ts:27-31 | the slice starts with no lab work, not loading and no error |
| LabWorkSlice.FindIndex | src/app/redux/slices/labWorkSlice.ts:110-113 | the position of the first item with the identifier, or the length when there is none |
| LabWorkSlice.ReplaceFirst | src/app/redux/slices/labWorkSlice.ts:110-115 | only the first item with a matching identifier is replaced, keeping its position and the length; with no match nothing changes |
| LabWorkSlice.RemoveId | src/app/redux/slices/labWorkSlice.ts:121-122 | the items kept are exactly those with another identifier, in their order: the list filtered by that test |
| LabWorkSlice.Reduce | src/app/redux/slices/labWorkSlice.ts:88-128 | each action's effect: a pending fetch or delete sets loading and clears the error; a fulfilled fetch replaces the data; a rejection clears loading and sets its message or the default; a created item is prepended; an update replaces in place; a fulfilled delete removes the identifier; clearing the error touches only the error; other actions change nothing; the updated list is the first-match replacement and the list after a delete is the identifier's removal |
| LabWorkSlice.CreateThenDelete | src/app/redux/slices/labWorkSlice.ts:107-124 | deleting a newly created order whose identifier is not shared gives back the earlier list |
| LabWorkSlice.DeleteIdempotent | src/app/redux/slices/labWorkSlice.ts:121-124 | a second delete of the same identifier removes nothing more |
| LabWorkSlice.LoadingFollowsRequests | src/app/redux/slices/labWorkSlice.ts:94-128 | loading is set by the pending fetch and delete and cleared by every settled fetch and delete |
| LabWorkSchema.Statuses | src/schemas/zobLabWorkSchema.ts:32-35 | as written the schema allows Pending, In Progress, Received, Fitted and Cancelled; the corrected schema allows the stored model's five |
| LabWorkSchema.Issues | src/schemas/zobLabWorkSchema.ts:6-39 | the failing fields are exactly those whose rule is broken |
| LabWorkSchema.Build | src/schemas/zobLabWorkSchema.ts:6-39 | the accepted record carries the request's fields, with a non-empty lab name, a listed order type, a listed status that defaults to Pending, and attachments and tooth numbers exactly when present |
| LabWorkSchema.Parse | src/schemas/zobLabWorkSchema.ts:6-39 | success exactly when every field passes, giving the built record; otherwise a non-empty list naming exactly the failing fields |
| LabWorkSchema.CorrectedStatusStorable | src/app/model/LabWork.model.ts:68-72 | every status the corrected schema accepts is one the stored model accepts |
| LabWorkSchema.InProgressPassesSchemaOnly | src/schemas/zobLabWorkSchema.ts:32-35 | "In Progress" passes the schema as written but not the stored model |
| LabWorkSchema.AttachmentRecordRejected | src/schemas/zobLabWorkSchema.ts:38 | as written a request whose attachments are records rather than texts fails, naming the attachments |
| LabWorkSchema.AttachmentRecordsAccepted | src/app/model/LabWork.model.ts:74 | under the corrected schema attachment records are never a reason for failure |
| LabWorkRoute.AttachmentFiles | src/app/api/doctor/labWork/add/route.ts:22-25 | the attachments are exactly the file entries under "attachments" with a positive size |
| LabWorkRoute.FileIssues | src/app/api/doctor/labWork/add/route.ts:28-36 | a file gets one complaint for exceeding 10 MiB and one for a type outside jpeg, png, webp and pdf, so none exactly when it is acceptable |
| LabWorkRoute.FileErrors | src/app/api/doctor/labWork/add/route.ts:27-36 | no errors exactly when every file is acceptable, and at most two per file |
| LabWorkRoute.UploadAll | src/app/api/doctor/labWork/add/route.ts:48-49 | the uploads succeed exactly when every upload does, giving one result per file in order; otherwise an upload's own error is reported |
| LabWorkRoute.AttachmentRecord | src/app/api/doctor/labWork/add/route.ts:52-58 | the stored attachment holds the upload's URL and its file name, falling back to the submitted file's name when the service gives none |
| LabWorkRoute.AttachmentRecords | src/app/api/doctor/labWork/add/route.ts:52-58 | one attachment per uploaded file, in order |
| LabWorkRoute.LastValue | src/app/api/doctor/labWork/add/route.ts:61 | a form name's value is the value of its last entry, present exactly when some entry has that name |
| LabWorkRoute.FormObject | src/app/api/doctor/labWork/add/route.ts:61 | the form object has one key per entry name, holding the last value given for it |
| LabWorkRoute.RequestObject | src/app/api/doctor/labWork/add/route.ts:64-69 | the request carries the decoded tooth numbers, the attachment records and the request time as sentToLabOn, and every other form field unchanged |
| LabWorkRoute.StatusCode | src/app/api/doctor/labWork/add/route.ts:104-118 | a created record answers 201 and a refusal answers with its own status |
| LabWorkRoute.Prepare | src/app/api/doctor/labWork/add/route.ts:21-69 | any file error answers 400 "File validation failed" with no upload; a failed upload answers 500 with its message; otherwise the request object is built from the form, the uploads and the time |
| LabWorkRoute.Submit | src/app/api/doctor/labWork/add/route.ts:72-100 | a schema failure answers 400 "Validation failed" without an insert; a status the stored model refuses answers 500; otherwise the insert's outcome is the answer |
| LabWorkRoute.Create | src/app/api/doctor/labWork/add/route.ts:17-102 | files are uploaded only when all pass validation, and the answer is the first failing stage's, or 201 with the created record |
| LabWorkRoute.AsWrittenRefusesUploads | src/schemas/zobLabWorkSchema.ts:38 | as written, once a file passes the checks and every upload succeeds, the request is refused with 400 after the files were uploaded |
| LabWorkRoute.CorrectedAcceptsUploads | src/app/api/doctor/labWork/add/route.ts:52-72 | with the corrected schema the attachment records the route builds never cause a refusal |
| LabWorkRoute.AsWrittenInProgressFails | src/app/model/LabWork.model.ts:68-72 | as written an "In Progress" request is never created nor inserted, and answers 500 once everything before the insert succeeds |
| LabWorkRoute.CorrectedReachesInsert | src/app/model/LabWork.model.ts:68-72 | with the corrected schema a request that passes the schema always reaches the insert |
| AiQuery.StatusOf | src/app/api/aiQuery/route.ts:92-286 | a missing message answers 400, a failure 500 and an answer 200 |
| AiQuery.AnalysisOf | src/app/api/aiQuery/route.ts:133-152 | an unparseable analysis falls back to all three collections with a plain query; an analysis naming no collection gets "appointments"; the result always names at least one collection |
| AiQuery.OperationsFor | src/app/api/aiQuery/route.ts:198-216 | one operation per collection, in order, with an empty query, the given sort and limit 5 |
| AiQuery.PlanOf | src/app/api/aiQuery/route.ts:192-216 | an unparseable plan becomes one newest-first query per collection; a plan without operations becomes one unsorted query per collection; otherwise the plan's operations run; there is always an operation when there is a collection |
| AiQuery.EffectiveLimit | src/app/api/aiQuery/route.ts:230-235 | a missing or zero limit becomes 5, a limit above 10 becomes 10, any other is kept |
| AiQuery.Execute | src/app/api/aiQuery/route.ts:50-89 | an aggregation takes precedence over query, sort and limit, and a database error gives no documents |
| AiQuery.RunAll | src/app/api/aiQuery/route.ts:218-240 | results exist exactly for the allowed collections some operation names, each holding the last such operation's documents; other collections are skipped |
| AiQuery.Handle | src/app/api/aiQuery/route.ts:92-286 | a missing or empty message answers 400 "Missing message" before any connection or model call; an unreadable body, a failed connection, a failed analysis, plan or final model call, and an empty analysis each answer 500 with that failure's message; once the analysis and plan are there, a successful final call always answers 200 with the model's text, or the fixed fallback text when it is empty; an answer carries the collections analysed, the operations planned and their results |
| DataTable.DayFirst | src/app/components/DataTable.tsx:68-74 | a day-first text yields a day and month of at most two digits and a four-digit year |
| DataTable.ParseDate | src/app/components/DataTable.tsx:63-84 | falsy values, numbers and booleans give no date; a date value passes through; a day-first text is read as that local calendar day; any other text goes to the generic reader |
| DataTable.DayFirstOfDigits | src/app/components/DataTable.tsx:68-74 | a slash-separated two-digit day and month and four-digit year are read as their values |
| DataTable.DayFirstReadsFormatted | src/app/components/DataTable.tsx:68-74 | any day written as DD/MM/YYYY is read back as that day |
| DataTable.Searched | src/app/components/DataTable.tsx:89-97 | with a search text only the rows matching it remain, in order; an empty search keeps every row |
| DataTable.SelectedRows | src/app/components/DataTable.tsx:86-123 | after the search and the date filter exactly the rows passing both remain, in their original order; with neither active the rows are unchanged |
| DataTable.FilteredRows | src/app/components/DataTable.tsx:86-151 | the rows kept are exactly those passing the search and date filter; without a sort they stay in input order, with one they are ordered by the column in the chosen direction; no search, filter or sort gives the rows back; the rows are the selected ones, each as often as before, and without a sort exactly the selected list |
| DataTable.SortKeepsTies | src/app/components/DataTable.tsx:126-150 | the column sort is stable: rows with equal sort keys stay in the order the filters left them |
| Sorting.SortStable | src/app/components/DataTable.tsx:126-150 | the sort (stable, as `Array.prototype.sort` is) keeps the entries that share any one key in their original order |
| DataTable.PaginatedRows | src/app/components/DataTable.tsx:165-169 | the page is the current page of the filtered rows: at most a page's worth of them, at least one when the page exists, and only selected rows |
| DataTable.HandleSort | src/app/components/DataTable.tsx:171-178 | the clicked column becomes active; clicking the active one flips its direction, another starts ascending; nothing else changes |
| DataTable.SortTwiceRestores | src/app/components/DataTable.tsx:171-178 | two clicks on the active column restore the view |
| DataTable.SetSearch | src/app/components/DataTable.tsx:180-182 | a changed search text returns to page 1 |
| DataTable.SetFilterMode | src/app/components/DataTable.tsx:180-182 | a changed date filter returns to page 1 |
| DataTable.Previous | src/app/components/DataTable.tsx:288 | the previous-page button moves back one page but never below 1 |
| DataTable.Next | src/app/components/DataTable.tsx:296 | the next-page button moves forward one page but never past the last |
| Pagination.TotalPages | src/app/components/DataTable.tsx:165 | the page count is the least number of pages of the given size holding every row |
| Pagination.SliceIndex | src/app/components/DataTable.tsx:168 | a slice bound counts negative indices from the end and is clamped to the length |
| Pagination.Slice | src/app/components/DataTable.tsx:168 | a slice holds the rows between its clamped bounds |
| Pagination.Window | src/app/components/DataTable.tsx:166-168 | at most a page's worth of consecutive rows from the start index, none past the end |
| Pagination.PageItems | src/app/components/DataTable.tsx:166-169 | a page holds at most a page's worth of rows, at least one when the page exists, none past the last page |
| Pagination.PageRows | src/app/components/DataTable.tsx:166-169 | page p shows row (p−1)·k + i at position i |
| Pagination.PageMembers | src/app/components/DataTable.tsx:166-169 | a page holds only rows of the list |
| Pagination.PageStart | src/app/components/DataTable.tsx:165-168 | a page starts inside the rows exactly when its number is at most the page count |
| Pagination.PagesPartitionRows | src/app/components/DataTable.tsx:165-169 | the pages read in order give back exactly the rows: none dropped, none shown twice |
| Pagination.RowPage | src/app/components/DataTable.tsx:165-169 | row i is shown on page i div k + 1 at position i mod k |
| Pagination.PageWindow | src/app/dashboard/pages/Doctor/labWork/page.tsx:143-160 | at most five consecutive page numbers within the page count, none when there are no pages, containing the current page when it exists, and exactly five when there are at least five pages |
| Pagination.Range | src/app/dashboard/pages/Doctor/labWork/page.tsx:155-157 | the consecutive numbers from lo to hi |
| Pagination.GoToPage | src/app/dashboard/pages/Doctor/labWork/page.tsx:136-140 | only a page between 1 and the page count is accepted; anything else keeps the current page |
| Pagination.PrevPage | src/app/components/DataTable.tsx:288 | one page back, never below 1 |
| Pagination.NextPage | src/app/components/DataTable.tsx:296 | one page forward, never past the page count |
| LabWorkPage.Filtered | src/app/dashboard/pages/Doctor/labWork/page.tsx:109-112 | a card is listed exactly when its patient name contains the search term ignoring case and the status filter is "All" or its status; the order is kept |
| LabWorkPage.NoFilterKeepsNamed | src/app/dashboard/pages/Doctor/labWork/page.tsx:109-112 | with no search term and "All", every card with a patient name is listed in order |
| LabWorkPage.TotalPages | src/app/dashboard/pages/Doctor/labWork/page.tsx:116-117 | the page count is the least number of pages holding every listed card |
| LabWorkPage.CurrentItems | src/app/dashboard/pages/Doctor/labWork/page.tsx:125-128 | the current page holds at most a page's worth of listed cards, and some when the page exists |
| LabWorkPage.ListedCardHasPage | src/app/dashboard/pages/Doctor/labWork/page.tsx:125-128 | every listed card appears on the page its position gives |
| LabWorkPage.GoToPage | src/app/dashboard/pages/Doctor/labWork/page.tsx:136-140 | a page outside 1 to the page count is ignored |
| LabWorkPage.PageNumbers | src/app/dashboard/pages/Doctor/labWork/page.tsx:143-160 | at most five consecutive existing pages, containing the current one, five whenever there are five |
| LabWorkPage.SetSearch | src/app/dashboard/pages/Doctor/labWork/page.tsx:119-122 | a changed search term returns to page 1 |
| LabWorkPage.SetStatusFilter | src/app/dashboard/pages/Doctor/labWork/page.tsx:119-122 | a changed status filter returns to page 1 |
| LabWorkPage.SetItemsPerPage | src/app/dashboard/pages/Doctor/labWork/page.tsx:262-267 | choosing a page size always returns to page 1 |
| LabWorkPage.ResetShowsFirstPage | src/app/dashboard/pages/Doctor/labWork/page.tsx:119-128 | after a new search term the first page is shown, non-empty whenever a card is listed |
| LabAnalytics.StatusOf | src/app/components/doctor/LabWorkAnalytics.tsx:90 | an order's status is its own when set and non-empty, otherwise "Pending" |
| LabAnalytics.StatusDateFollowsCompletion | src/app/components/doctor/LabWorkAnalytics.tsx:31-44 | Received and Fitted orders are dated on return, all others on dispatch |
| LabAnalytics.LabNameOf | src/app/components/doctor/LabWorkAnalytics.tsx:99 | an order's lab is never blank: "Unspecified Lab" stands in for a missing name |
| LabAnalytics.Shares | src/app/components/doctor/LabWorkAnalytics.tsx:159-166 | every counted name appears once with its count and its share of the orders, largest count first |
| LabAnalytics.StatusCountsCoverOrders | src/app/components/doctor/LabWorkAnalytics.tsx:88-91 | the status counts add up to the number of orders, and a status is charted exactly when some order has it |
| LabAnalytics.CompletionRate | src/app/components/doctor/LabWorkAnalytics.tsx:92 | the completion rate lies in 0 to 100; it is 100 exactly when every order is Fitted or Received and 0 exactly when none is |
| LabAnalytics.ProcessingDays | src/app/components/doctor/LabWorkAnalytics.tsx:120-141 | one turnaround per order with both dates, in order: the i-th is the return day minus the dispatch day of the i-th order that has both dates, and there are as many as such orders |
| LabAnalytics.Bin | src/app/components/doctor/LabWorkAnalytics.tsx:143-148 | a turnaround falls in the bin whose bounds of 3, 7, 14, 21 and 30 days enclose it, or in 31+ |
| LabAnalytics.Bins | src/app/components/doctor/LabWorkAnalytics.tsx:73-80 | six bins, each holding the number of turnarounds that fall in it |
| LabAnalytics.BinsCoverAll | src/app/components/doctor/LabWorkAnalytics.tsx:143-148 | every turnaround falls in exactly one bin, so the bins add up to the number of turnarounds |
| LabAnalytics.ProcessingTimeAnalysis | src/app/components/doctor/LabWorkAnalytics.tsx:244-253 | one row per bin, in bin order, each with its count and its share of the turnarounds, 0 when none is known |
| LabAnalytics.OnTimeRate | src/app/components/doctor/LabWorkAnalytics.tsx:269-277 | the share of turnarounds of at most seven days as a percentage, 0 when none is known |
| LabAnalytics.OnTimeIsFirstTwoBins | src/app/components/doctor/LabWorkAnalytics.tsx:143-148 | the on-time orders are exactly those in the first two bins |
| LabAnalytics.AverageTurnaround | src/app/components/doctor/LabWorkAnalytics.tsx:255-256 | the mean turnaround, 0 when none is known |
| LabAnalytics.MedianTurnaround | src/app/components/doctor/LabWorkAnalytics.tsx:258-266 | 0 for no turnarounds; otherwise the middle of the sorted turnarounds for an odd count and the mean of the two middle ones for an even count, with at least half the turnarounds on each side of it |
| Stats.MedianOfSorted | src/app/components/doctor/LabWorkAnalytics.tsx:258-266 | the median is the middle of every ascending arrangement of the values, so it does not depend on how they were sorted |
| Stats.SortedUnique | src/app/components/doctor/LabWorkAnalytics.tsx:258-260 | two ascending lists holding the same values are the same list |
| LabAnalytics.OrderTypeTurnaround | src/app/components/doctor/LabWorkAnalytics.tsx:311-333 | the mean turnaround of the orders of one type, 0 when none has both dates |
| LabAnalytics.LabTurnaround | src/app/components/doctor/LabWorkAnalytics.tsx:350-372 | the mean turnaround of the orders shown under one lab name, 0 when none has both dates |
| LabAnalytics.UnspecifiedLabTurnaround | src/app/components/doctor/LabWorkAnalytics.tsx:354 | an unnamed order returned after five days is shown under "Unspecified Lab" with a turnaround of 0 as written, and 5 when orders are selected by the shown name |
| LabAnalytics.Profitability | src/app/components/doctor/LabWorkAnalytics.tsx:335-348 | the benchmark of the eight listed order types, and 70 exactly for any other type |
| LabAnalytics.QualityRating | src/app/components/doctor/LabWorkAnalytics.tsx:374-383 | the rating of the four listed labs, and 85 exactly for any other lab |
| LabAnalytics.ReworkRate | src/app/components/doctor/LabWorkAnalytics.tsx:385-394 | the rework rate of the four listed labs, and 8 exactly for any other lab |
| LabAnalytics.MonthItemsAsWritten | src/app/components/doctor/LabWorkAnalytics.tsx:107-133 | as written, each dated order contributes once and each order with both dates once more |
| LabAnalytics.MonthItems | src/app/components/doctor/LabWorkAnalytics.tsx:107-117 | one item per dated order, at the month of its status date |
| LabAnalytics.StatusOverTime | src/app/components/doctor/LabWorkAnalytics.tsx:107-117 | counting each order once: under each (month, status) exactly the orders of that status whose status date falls in that month, so the counts over all months and statuses add up to the number of dated orders |
| LabAnalytics.MonthItemsSum | src/app/components/doctor/LabWorkAnalytics.tsx:107-117 | counted once, the items under each (month, status) add up to the orders of that status dated in that month |
| LabAnalytics.StatusOverTimeAsWritten | src/app/components/doctor/LabWorkAnalytics.tsx:107-133 | as written: under each (month, status) the orders of that status dated in that month plus the orders of that status with both dates that came back in that month |
| LabAnalytics.MonthItemsAsWrittenSum | src/app/components/doctor/LabWorkAnalytics.tsx:107-133 | the items accumulated as written add up, under each (month, status), to the orders dated there plus the orders with both dates returned there |
| LabAnalytics.ReceivedOrderCountedTwice | src/app/components/doctor/LabWorkAnalytics.tsx:126-133 | one received order shows as two Received orders in its month as written, and as one when counted once |
| LabAnalytics.WeeklyDeliveries | src/app/components/doctor/LabWorkAnalytics.tsx:120-125 | a week is listed, once, exactly when some order with both dates came back in it, with the number of such orders; the counts add up to the orders with both dates |
| LabAnalytics.WeekEntries | src/app/components/doctor/LabWorkAnalytics.tsx:182-194 | the weekly counts reordered, none lost or added, so that the first days of their weeks ascend |
| LabAnalytics.WindowStart | src/app/components/doctor/LabWorkAnalytics.tsx:197 | a week's window starts at most three weeks before it, never before the first |
| LabAnalytics.MovingAverages | src/app/components/doctor/LabWorkAnalytics.tsx:196-201 | each week's moving average is the mean of its count and up to three counts before it |
| LabAnalytics.SteadyDeliveries | src/app/components/doctor/LabWorkAnalytics.tsx:196-201 | a constant weekly count gives a flat moving average at that count |
| LabAnalytics.ForecastedVolume | src/app/components/doctor/LabWorkAnalytics.tsx:203 | the forecast is 10% over the last moving average, 0 with no deliveries |
| LabAnalytics.WeekCounts | src/app/components/doctor/LabWorkAnalytics.tsx:182-194 | one count per week with a return, each the number of orders returned that week, so positive, in ascending order of the weeks' first days |
| LabAnalytics.Summarize | src/app/components/doctor/LabWorkAnalytics.tsx:46-306 | no orders give the all-zero summary; otherwise the summary holds the order count and the rates, means and forecast above; the forecast is the one of the weekly counts in week order |
| Ranking.Ranked | src/app/components/doctor/BillingAnalytics.tsx:153-177 | every distinct name appears exactly once with its number of occurrences, largest count first |
| Ranking.CountsMeaning | src/app/components/doctor/BillingAnalytics.tsx:153-156 | each name's count is its number of occurrences, the counts add up to the number of names, and a name is counted exactly when it occurs |
| BillingAnalytics.NameFor | src/app/components/doctor/BillingAnalytics.tsx:160-170 | the name shown is that of the first patient whose printed id matches, or the id itself when none does |
| BillingAnalytics.LastBillingDate | src/app/components/doctor/BillingAnalytics.tsx:161-171 | the date of the patient's newest bill, present exactly when the patient has a bill |
| BillingAnalytics.PatientData | src/app/components/doctor/BillingAnalytics.tsx:148-177 | one row per billed patient, each with its number of bills, name and newest date, most bills first |
| BillingAnalytics.RowsCountBills | src/app/components/doctor/BillingAnalytics.tsx:153-156 | every row counts at least one bill |
| BillingAnalytics.Frequencies | src/app/components/doctor/BillingAnalytics.tsx:179-212 | the largest, smallest and mean bills per patient, all 0 with no patients, and how many patients exceed 1.5, 1 and 0.5 times the mean |
| BillingAnalytics.FrequencyCountsNested | src/app/components/doctor/BillingAnalytics.tsx:192-200 | every high-frequency patient is a medium one and every medium one a low one |
| BillingAnalytics.Search | src/app/components/doctor/BillingAnalytics.tsx:216-226 | an empty query keeps every row; otherwise exactly the rows whose name or id contains it ignoring case, in order |
| BillingAnalytics.BandsMeaning | src/app/components/doctor/BillingAnalytics.tsx:229-262 | each count has the band whose leading number it reaches, cohort labels and tiers tell bands apart, and bands are ordered by leading number descending |
| BillingAnalytics.Cohorts | src/app/components/doctor/BillingAnalytics.tsx:229-262 | the non-empty cohorts, each with its number of patients and percentage, in descending order of leading number, with every patient's cohort listed |
| BillingAnalytics.CohortsByLead | src/app/components/doctor/BillingAnalytics.tsx:261 | the cohort list is ordered by the leading number of its label, largest first |
| BillingAnalytics.CohortsCoverPatients | src/app/components/doctor/BillingAnalytics.tsx:234-250 | the cohorts' patients add up to the number of patients |
| BillingAnalytics.GrowthRate | src/app/components/doctor/BillingAnalytics.tsx:275-280 | the relative change against the previous total when it is positive; otherwise 1 when there is a current total and 0 when not |
| BillingAnalytics.GrowthSign | src/app/components/doctor/BillingAnalytics.tsx:275-280 | for totals, growth is positive exactly when the total rose and zero exactly when it stayed |
| BillingAnalytics.PeakBillings | src/app/components/doctor/BillingAnalytics.tsx:283-286 | the largest current count, 0 when there are none |
| Revenue.Percentage | src/app/dashboard/pages/Doctor/revenue/page.tsx:186-187 | a part as a percentage of a positive whole, and 0 when the whole is not positive |
| Revenue.Average | src/app/dashboard/pages/Doctor/revenue/page.tsx:198-199 | a total per item, and 0 when there are no items |
| Revenue.GrowthSign | src/app/dashboard/pages/Doctor/revenue/page.tsx:178-183 | when the previous period earned something, growth is positive exactly when the current period earned more and zero exactly when it earned the same |
| Revenue.TopPatients | src/app/dashboard/pages/Doctor/revenue/page.tsx:190-193 | at most five patients from the per-patient revenue, most first, none left out earning more than one listed; the list is the first entries of the per-patient revenue stably sorted most first, so each patient appears at most as often as in the input |
| Revenue.TotalsMeaning | src/app/dashboard/pages/Doctor/revenue/page.tsx:136-175 | the running figures are the sums of amount, received, due and discount (missing as 0), the number of bills, the paid and pending counts and the two period sums |
| Revenue.MapsMeaning | src/app/dashboard/pages/Doctor/revenue/page.tsx:148-163 | the payment-mode, month and patient maps are the tallies of the bills' amounts, bills of unknown patients left out of the last |
| Revenue.MapsAddUp | src/app/dashboard/pages/Doctor/revenue/page.tsx:148-156 | the payment-mode and month maps each add up to the total revenue |
| Revenue.Analytics | src/app/dashboard/pages/Doctor/revenue/page.tsx:97-212 | no bills give every figure 0 and every map empty; the invoice count is the number of bills |
| Revenue.AnalyticsFigures | src/app/dashboard/pages/Doctor/revenue/page.tsx:136-199 | the totals are sums over the bills, the paid and pending counts together are at most the invoice count, the averages are per bill, growth is the change as a percentage of the previous period and efficiency the share received |
| Revenue.AnalyticsMaps | src/app/dashboard/pages/Doctor/revenue/page.tsx:148-193 | each payment mode and month holds the amounts filed under it, each map adds up to the revenue, and the top patients are the five best of the per-patient tally |
| Revenue.PaidOrPending | src/app/dashboard/pages/Doctor/revenue/page.tsx:145-146 | paid and pending bills together are at most all bills |
| Revenue.Rows | src/app/dashboard/pages/Doctor/revenue/page.tsx:84-94 | one row per bill, in order, named after its patient or "Unknown" |
| Revenue.Filtered | src/app/dashboard/pages/Doctor/revenue/page.tsx:213-229 | a row is shown exactly when the search term occurs in its invoice, patient or payment mode and the status and payment-mode filters admit it; the order is kept |
| Revenue.PageListsEverything | src/app/dashboard/pages/Doctor/revenue/page.tsx:64-66 | the page's fixed empty search and "All" filters list every bill |
| Revenue.CurrentItems | src/app/dashboard/pages/Doctor/revenue/page.tsx:231-235 | the table shows the first ten filtered rows |
| Revenue.CsvCells | src/app/dashboard/pages/Doctor/revenue/page.tsx:391-401 | a bill gives nine cells, one per header |
| Revenue.CsvLines | src/app/dashboard/pages/Doctor/revenue/page.tsx:379-406 | the header line first, then one comma-joined line per filtered bill |
| Revenue.CsvRoundTrip | src/app/dashboard/pages/Doctor/revenue/page.tsx:379-406 | when no cell holds a comma or line break, the file splits back into the header and one line per bill, and each line into its nine cells |
| BillingForm.AddRow | src/app/components/doctor/PatientBillingForm.tsx:167-174 | one blank row is appended and the other rows are unchanged |
| BillingForm.RemoveAt | src/app/components/doctor/PatientBillingForm.tsx:178 | only the entry at the index is dropped and the rest keep their order |
| BillingForm.RemoveRow | src/app/components/doctor/PatientBillingForm.tsx:176-182 | a row is removed only when there are several, so the list never empties |
| BillingForm.ChangeRow | src/app/components/doctor/PatientBillingForm.tsx:184-209 | an edit changes one field of one row; every other row and field stays |
| BillingForm.NeverBelowOneRow | src/app/components/doctor/PatientBillingForm.tsx:167-182 | whatever the user does, a form with a row keeps at least one |
| BillingForm.InitialFormNeverEmpty | src/app/components/doctor/PatientBillingForm.tsx:100-102 | starting from the single blank row, the form always keeps a row |
| BillingForm.AddRowKeepsSubtotal | src/app/components/doctor/PatientBillingForm.tsx:212-215 | adding a blank row leaves the subtotal unchanged |
| BillingForm.RemoveRowSubtotal | src/app/components/doctor/PatientBillingForm.tsx:212-215 | removing a row takes exactly its price times quantity off the subtotal |
| BillingForm.ChangeRowSubtotal | src/app/components/doctor/PatientBillingForm.tsx:212-215 | editing a row replaces its amount in the subtotal and nothing else |
| BillingForm.RemoveAddedRow | src/app/components/doctor/PatientBillingForm.tsx:167-182 | removing the row just added restores the rows |
| BillingForm.OrZero | src/app/components/doctor/PatientBillingForm.tsx:216 | an empty field reads as 0 |
| BillingForm.BalanceDue | src/app/components/doctor/PatientBillingForm.tsx:631 | the balance, the amount received and the discount add up to the subtotal |
| BillingForm.BalanceOfUndiscounted | src/app/components/doctor/PatientBillingForm.tsx:212-217 | with non-negative prices and quantities and nothing deducted, the balance is the subtotal and not negative |
| BillingForm.InvoiceId | src/app/components/doctor/PatientBillingForm.tsx:139-141 | the invoice number is the printed patient id, a dash and six digits whose value is the draw plus 100000 |
| BillingForm.InvoiceIdInjective | src/app/components/doctor/PatientBillingForm.tsx:139-141 | two draws give the same invoice number only when they are the same draw |
| BillingForm.AddressLine | src/app/components/doctor/PatientBillingForm.tsx:133-135 | the address line starts with the street and a comma and ends with a dash and the postal code |
| BillingForm.FillHeader | src/app/components/doctor/PatientBillingForm.tsx:124-141 | choosing a patient fills the name, ids, contact number, gender and e-mail from the patient, overwrites the address only when the patient has one, and sets the invoice number to the printed id, a dash and the drawn six-digit number |
| BillingForm.LatestThree | src/app/components/doctor/PatientBillingForm.tsx:144-153 | at most three of the patient's bills, newest first, none left out newer than one kept; the list is the first entries of the patient's bills stably sorted newest first, so no bill is repeated beyond its occurrences |
| BillingForm.History | src/app/components/doctor/PatientBillingForm.tsx:144-162 | the saved history is the latest three bills with their null and undefined fields dropped |
| Records.Sanitize | src/app/components/doctor/PatientBillingForm.tsx:155-161 | exactly the entries whose value is neither null nor undefined are kept, in order |
| Records.SanitizeIdempotent | src/app/components/doctor/PatientDetailView.tsx:491-501 | sanitising twice is sanitising once |
| Patients.Suggestions | src/app/components/BookAppointmentForm.tsx:293-303 | no suggestions for an empty query; otherwise exactly the patients whose name or printed id contains it ignoring case, in order |
| Patients.SuggestionsKeepNameMatches | src/app/components/doctor/AddLabWorkForm.tsx:151-161 | a non-empty query suggests every patient whose name contains it |
| Patients.SearchChange | src/app/dashboard/pages/Doctor/patientRecords/page.tsx:62-73 | the input is replaced and the suggestions are exactly the patients matching on the printed id in id mode and on the name otherwise, ignoring case |
| Patients.IdModeIgnoresNames | src/app/dashboard/pages/Doctor/patientRecords/page.tsx:66-70 | an input in id mode never matches on the name alone |
| Patients.SelectSuggestion | src/app/dashboard/pages/Doctor/patientRecords/page.tsx:75-79 | choosing a suggestion selects the patient, shows the name and clears the suggestions |
| Patients.SelectFromQuery | src/app/dashboard/pages/Doctor/patientRecords/page.tsx:81-87 | a patient id parameter selects the patient with that id; with no match the selection is unchanged |
| Patients.FindById | src/app/dashboard/pages/Doctor/patientRecords/page.tsx:83-85 | the first patient with the id, present exactly when one has it |
| LabWorkForms.MaterialsFor | src/app/components/doctor/AddLabWorkForm.tsx:39-82 | an order type's materials come from the table, and an unknown or empty type has none |
| LabWorkForms.EveryOrderTypeHasMaterials | src/app/components/doctor/AddLabWorkForm.tsx:39-82 | each of the eight order types offers at least one material |
| LabWorkForms.OthersOffersEverything | src/app/components/doctor/AddLabWorkForm.tsx:39-82 | "Others" offers every material some order type offers |
| LabWorkForms.NewAddForm | src/app/components/doctor/AddLabWorkForm.tsx:90-104 | a new order has every field empty, status "Pending" and impressions taken today |
| LabWorkForms.AddErrors | src/app/components/doctor/AddLabWorkForm.tsx:115-131 | the failures are exactly the checks the form breaks |
| LabWorkForms.AddValidIff | src/app/components/doctor/AddLabWorkForm.tsx:115-131 | the form is valid exactly when patient and lab are non-blank, a type is chosen, "Others" has a non-blank text, a tooth is selected and a delivery date is set |
| LabWorkForms.ChangeAdd | src/app/components/doctor/AddLabWorkForm.tsx:142-149 | typing changes only the named field and never the chosen patient, the teeth, the files or the order type |
| LabWorkForms.ChoosePatient | src/app/components/doctor/AddLabWorkForm.tsx:163-169 | choosing a suggested patient records that patient's id and changes no other field; the "patient required" complaint is gone exactly when that id is not blank |
| LabWorkForms.AddFiles | src/app/components/doctor/AddLabWorkForm.tsx:178-186 | chosen files are appended after those already chosen |
| LabWorkForms.Splice | src/app/components/doctor/AddLabWorkForm.tsx:191 | one entry is removed at the index, a negative index counting from the end, none past the end |
| LabWorkForms.RemoveFile | src/app/components/doctor/AddLabWorkForm.tsx:188-194 | only the file at that position goes |
| LabWorkForms.RemoveLastUndoesAdd | src/app/components/doctor/AddLabWorkForm.tsx:178-194 | removing a file just chosen undoes the choice |
| LabWorkForms.ClearFiles | src/app/components/doctor/AddLabWorkForm.tsx:449-451 | the clear button empties the file list and changes nothing else |
| LabWorkForms.Payload | src/app/components/doctor/AddLabWorkForm.tsx:205-229 | the posted form holds the twelve text fields, the tooth list as JSON, then one attachments entry per chosen file |
| LabWorkForms.PayloadAttachments | src/app/components/doctor/AddLabWorkForm.tsx:226-229 | the server treats exactly the non-empty chosen files as attachments, in the order chosen |
| LabWorkForms.SubmitAdd | src/app/components/doctor/AddLabWorkForm.tsx:196-233 | the form is posted exactly when it is valid and not already submitting; an invalid form shows its failures |
| LabWorkForms.OrText | src/app/components/doctor/EditLabWorkForm.tsx:128-140 | a missing or empty field falls back to the default |
| LabWorkForms.DatePart | src/app/components/doctor/EditLabWorkForm.tsx:135-137 | the date part of a time stamp holds no "T" |
| LabWorkForms.DatePartOfStamp | src/app/components/doctor/EditLabWorkForm.tsx:135-137 | a time stamp's date part is the text before its "T" |
| LabWorkForms.InitEdit | src/app/components/doctor/EditLabWorkForm.tsx:124-142 | without a lab work nothing changes; otherwise missing fields default to empty, "Pending" or no teeth and the delivery date keeps its date part |
| LabWorkForms.ChangeEdit | src/app/components/doctor/EditLabWorkForm.tsx:144-147 | an edit changes only the named field; the tooth input becomes text |
| LabWorkForms.EditErrors | src/app/components/doctor/EditLabWorkForm.tsx:153-157 | an order type is required, and "Others" needs a description; no errors exactly when both hold |
| LabWorkForms.ParseTeeth | src/app/components/doctor/EditLabWorkForm.tsx:168-178 | typed text is split on commas, trimmed and emptied pieces dropped; a list passes through; nothing gives no teeth; the typed list is the comma-separated pieces, trimmed, with the empty ones filtered out |
| LabWorkForms.CleanPieces | src/app/components/doctor/EditLabWorkForm.tsx:172-174 | the kept pieces are the trimmed pieces, in order, with the empty ones filtered out; a text is kept exactly when it is non-empty and some piece trims to it |
| LabWorkForms.ParseTeethOfJoined | src/app/components/doctor/EditLabWorkForm.tsx:168-178 | typing a comma-separated list of trimmed non-empty tooth numbers gives that list back |
| LabWorkForms.SubmitEdit | src/app/components/doctor/EditLabWorkForm.tsx:149-195 | failing checks show their errors and dispatch nothing; without a selected lab work nothing is sent; otherwise the update carries the form with the parsed teeth |
| BookingForm.BookedSlots | src/app/components/BookAppointmentForm.tsx:263-274 | without a doctor profile no slot is booked; otherwise a slot is booked exactly when this doctor has an appointment in it on the chosen day |
| BookingForm.AvailableSlots | src/app/components/BookAppointmentForm.tsx:276-282 | the 21 fixed slots in order, each marked booked exactly when it is in the booked list and popular exactly when it is 10:00 AM, 02:00 PM or 04:00 PM |
| BookingForm.PopularSlotPositions | src/app/components/BookAppointmentForm.tsx:64-86 | exactly the first, ninth and thirteenth slots are popular |
| BookingForm.NewForm | src/app/components/BookAppointmentForm.tsx:226-245 | a new form is on step 1 with no patient chosen, not verified and no preview |
| BookingForm.SelectPatient | src/app/components/BookAppointmentForm.tsx:305-314 | choosing a patient sets the patient id and contact, shows "name (id)", verifies and moves to step 2 |
| BookingForm.PatientChange | src/app/components/BookAppointmentForm.tsx:316-323 | typing replaces the query and clears the chosen patient and the verification |
| BookingForm.SelectDay | src/app/components/BookAppointmentForm.tsx:599-606 | choosing a day sets it and moves to step 2 |
| BookingForm.SelectSlot | src/app/components/BookAppointmentForm.tsx:631-638 | a booked slot cannot be chosen; a free one is set and moves to step 3 |
| BookingForm.Previous | src/app/components/BookAppointmentForm.tsx:826 | "Previous" goes back one step but not below 1 |
| BookingForm.Continue | src/app/components/BookAppointmentForm.tsx:835-840 | "Continue" goes forward one step but not past 4, and not from step 1 before a patient is verified |
| BookingForm.Submit | src/app/components/BookAppointmentForm.tsx:332-342 | without a verified patient an error is shown and the preview is not opened; otherwise the data is previewed |
| BookingForm.Review | src/app/components/BookAppointmentForm.tsx:846-851 | the review button does nothing before a patient is verified; afterwards it moves to step 4 and previews the data |
| BookingForm.StepStaysInRange | src/app/components/BookAppointmentForm.tsx:826-851 | whatever the user does, the step stays between 1 and 4 |
| BookingForm.Progress | src/app/components/BookAppointmentForm.tsx:398-411 | progress is 25, 50, 75 and 100 for steps 1 to 4 and 0 otherwise |
| BookingForm.Confirm | src/app/components/BookAppointmentForm.tsx:344-362 | nothing is sent without a preview; otherwise a "Scheduled" appointment for the previewed patient and slot, with doctor and creator both the signed-in user |
| BookingForm.ConfirmedPatientWasChosen | src/app/components/BookAppointmentForm.tsx:305-362 | a confirmed booking names the patient chosen from the list |
| RegistrationForm.Issues | src/app/dashboard/pages/Doctor/patientRecords/patientRegistrationForm/page.tsx:87-98 | the complaints are exactly the rules the values break, each once, in the schema's field order |
| RegistrationForm.ValidIff | src/app/dashboard/pages/Doctor/patientRecords/patientRegistrationForm/page.tsx:87-98 | the values pass exactly when name, contact and age are filled in, the gender is Male, Female or Other, the e-mail is an address and the password has at least six characters |
| RegistrationForm.DefaultsRefused | src/app/dashboard/pages/Doctor/patientRecords/patientRegistrationForm/page.tsx:87-98 | the untouched form is refused for its name and password but not its gender |
| RegistrationForm.Progress | src/app/dashboard/pages/Doctor/patientRecords/patientRegistrationForm/page.tsx:196-211 | progress is 10, 30, 50, 70 and 100 for steps 1 to 5 and 0 otherwise |
| RegistrationForm.ProgressIncreasing | src/app/dashboard/pages/Doctor/patientRecords/patientRegistrationForm/page.tsx:196-211 | progress grows with the step |
| RegistrationForm.Previous | src/app/dashboard/pages/Doctor/patientRecords/patientRegistrationForm/page.tsx:755-764 | "Previous" goes back one step but not below 1 |
| RegistrationForm.Continue | src/app/dashboard/pages/Doctor/patientRecords/patientRegistrationForm/page.tsx:768-777 | "Continue" goes forward one step but not past 5 |
| RegistrationForm.StepStaysInRange | src/app/dashboard/pages/Doctor/patientRecords/patientRegistrationForm/page.tsx:755-777 | the buttons keep the step between 1 and 5 |
| RegistrationForm.JoinedOrEmpty | src/app/dashboard/pages/Doctor/patientRecords/patientRegistrationForm/page.tsx:231-232 | a missing or empty list gives ""; a list of comma-free items is read back by splitting at commas |
| RegistrationForm.Confirm | src/app/dashboard/pages/Doctor/patientRecords/patientRegistrationForm/page.tsx:221-240 | nothing is sent without a preview; otherwise the preview with both lists comma-joined and the doctor's id, or "", in the header |
| DoctorDashboard.Hour24 | src/app/dashboard/pages/Doctor/page.tsx:159-161 | the hour is defined exactly when the hour text parses |
| DoctorDashboard.To24HourIsSplit | src/app/dashboard/pages/Doctor/page.tsx:155-164 | the conversion reads the time and modifier before and after the first space, and hours and minutes around the first colon |
| DoctorDashboard.HourOfSlot | src/app/dashboard/pages/Doctor/page.tsx:159-163 | PM adds 12 except to 12, 12 AM becomes 0, and the hour is padded to two digits |
| DoctorDashboard.To24HourOfSlot | src/app/dashboard/pages/Doctor/page.tsx:155-164 | every well-formed "hh:mm AM/PM" becomes its padded 24-hour hour with the minutes kept |
| DoctorDashboard.BeforeDash | src/app/dashboard/pages/Doctor/page.tsx:167 | the start of a slot is the text before its first " - ", or all of it |
| DoctorDashboard.BeforeDashOfTime | src/app/dashboard/pages/Doctor/page.tsx:167 | a time without dashes is its own start, alone or before " - " |
| DoctorDashboard.ClockMinutes | src/app/dashboard/pages/Doctor/page.tsx:168-169 | a time read as a clock time gives a minute of the day from 0 to 1440, or nothing |
| DoctorDashboard.ClockMinutesOf | src/app/dashboard/pages/Doctor/page.tsx:168-169 | "HH:mm" is read as minute HH·60 + mm |
| DoctorDashboard.SlotStartOf | src/app/dashboard/pages/Doctor/page.tsx:166-170 | a slot "hh:mm AM/PM", alone or followed by " - " and its end, starts at its 24-hour minute of the day |
| DoctorDashboard.BookingSlotsWellFormed | src/app/components/BookAppointmentForm.tsx:64-86 | each of the booking form's 21 slots is a well-formed 12-hour time |
| DoctorDashboard.BookingSlotsStart | src/app/dashboard/pages/Doctor/page.tsx:166-170 | the booking form's i-th slot starts 30·i minutes after 10:00, so later slots start later |
| DoctorDashboard.CountersMeaning | src/app/dashboard/pages/Doctor/page.tsx:182-207 | the follow-up, new, upcoming and today counters each count the appointments passing their test |
| DoctorDashboard.FollowUpsAndNewAtMost | src/app/dashboard/pages/Doctor/page.tsx:192-193 | follow-ups and new consultations together never exceed the appointments |
| DoctorDashboard.UpcomingAtMostOpen | src/app/dashboard/pages/Doctor/page.tsx:196 | completed and cancelled appointments are never upcoming |
| DoctorDashboard.LaterDaysUpcoming | src/app/dashboard/pages/Doctor/page.tsx:197-199 | when every appointment is open and on a later day, all are upcoming and none is today |
| DoctorDashboard.UpcomingToday | src/app/dashboard/pages/Doctor/page.tsx:172-207 | an open appointment today in a booking slot is upcoming exactly when the clock has not passed the slot's start |
| DoctorDashboard.SlotlessTodayNotUpcoming | src/app/dashboard/pages/Doctor/page.tsx:200-205 | a same-day appointment without a slot is not upcoming |
| DoctorDashboard.BucketsOf | src/app/dashboard/pages/Doctor/page.tsx:216-237 | each period's labels are listed once in both columns |
| DoctorDashboard.BucketsCount | src/app/dashboard/pages/Doctor/page.tsx:216-237 | under each label, the completed and the scheduled appointments carrying it; other statuses add nothing |
| DoctorDashboard.BucketsSameLabels | src/app/dashboard/pages/Doctor/page.tsx:216-228 | both columns list the same labels in the order they first appear |
| DoctorDashboard.Labels | src/app/dashboard/pages/Doctor/page.tsx:210-212 | one period label per appointment, in order |
| DoctorDashboard.BucketsLabels | src/app/dashboard/pages/Doctor/page.tsx:216-228 | a label is listed exactly when some appointment carries it, whatever its status |
| DoctorDashboard.BucketsTotal | src/app/dashboard/pages/Doctor/page.tsx:229-237 | the completed column adds up to the completed appointments and the scheduled column to the scheduled ones |
| DoctorDashboard.UniqueDatesMeaning | src/app/dashboard/pages/Doctor/page.tsx:214 | a date is listed exactly when some appointment falls on it, never more dates than appointments |
| DoctorDashboard.MonthlyChartCounts | src/app/dashboard/pages/Doctor/page.tsx:280-299 | twelve bars, Jan to Dec, each counting the completed and the scheduled appointments of that month |
| DoctorDashboard.PeriodChartCounts | src/app/dashboard/pages/Doctor/page.tsx:300-309 | one bar per week or year label some appointment carries, none twice, each counting that label's completed and scheduled appointments |
| DoctorDashboard.PendingCount | src/app/dashboard/pages/Doctor/page.tsx:134-136 | the card counts orders whose status is exactly "Pending", at most all orders |
| DoctorDashboard.PendingCountAgainstAnalytics | src/app/dashboard/pages/Doctor/page.tsx:134-136 | the card never shows more than the analytics' pending orders, and both agree when every order has a status |
| DoctorDashboard.Units | src/app/dashboard/pages/Doctor/page.tsx:374-375 | a missing or zero quantity counts once, any other its value |
| DoctorDashboard.TreatmentItems | src/app/dashboard/pages/Doctor/page.tsx:373-376 | one item per treatment, in order |
| DoctorDashboard.TreatmentCounts | src/app/dashboard/pages/Doctor/page.tsx:368-379 | each treatment name is listed once |
| DoctorDashboard.TreatmentCountsMeaning | src/app/dashboard/pages/Doctor/page.tsx:368-379 | each treatment's slice is the units of that treatment over the bills the filter keeps |
| DoctorDashboard.PieData | src/app/dashboard/pages/Doctor/page.tsx:360-411 | no bills give three empty pies; otherwise the counts over the last week, this month and this year |
| DoctorDashboard.MonthWithinYear | src/app/dashboard/pages/Doctor/page.tsx:390-403 | with no negative quantity, this month's slice of a treatment never exceeds this year's |
| PatientDetail.PatientAppointments | src/app/components/doctor/PatientDetailView.tsx:130-132 | exactly the appointments of the patient, in order |
| PatientDetail.PatientBillings | src/app/components/doctor/PatientDetailView.tsx:134-136 | exactly the bills of the patient, in order |
| PatientDetail.PatientLabWorks | src/app/components/doctor/PatientDetailView.tsx:139-141 | exactly the lab orders whose patient reference is this patient; an order without one belongs to nobody |
| PatientDetail.UpcomingCountMeaning | src/app/components/doctor/PatientDetailView.tsx:143-148 | the card counts the patient's appointments dated no earlier than now and neither completed nor cancelled |
| PatientDetail.LengthOrZero | src/app/components/doctor/PatientDetailView.tsx:165-172 | the length of a list, 0 when it is missing |
| PatientDetail.TreatmentTotalIsSum | src/app/components/doctor/PatientDetailView.tsx:150-153 | the total is the sum of the treatment-list lengths, a missing list counting 0 |
| PatientDetail.AppointmentCounts | src/app/components/doctor/PatientDetailView.tsx:204-210 | each key is counted once |
| PatientDetail.TreatmentCounts | src/app/components/doctor/PatientDetailView.tsx:213-221 | each key is listed once |
| PatientDetail.ChartKeys | src/app/components/doctor/PatientDetailView.tsx:224-229 | the keys of both counts, each once, in ascending text order |
| PatientDetail.ChartDataMeaning | src/app/components/doctor/PatientDetailView.tsx:188-235 | the chart runs through the keys in ascending order, each once; a key appears only when some appointment or bill falls under it; each point counts the appointments and sums the treatments under its key |
| PatientDetail.ChartCoversAll | src/app/components/doctor/PatientDetailView.tsx:224-235 | every appointment and bill has a point |
| PatientDetail.ChartTreatmentsTotal | src/app/components/doctor/PatientDetailView.tsx:150-221 | the treatments on the chart add up to the total-treatments card over the same bills |
| PatientDetail.ChartKeysChronological | src/app/components/doctor/PatientDetailView.tsx:194-201 | for four-digit years, ordering keys as texts orders them in time: by year, then month |
| PatientDetail.SafeFormatDate | src/app/components/doctor/PatientDetailView.tsx:109-126 | "N/A" for falsy values, booleans, other objects and unparsable texts or numbers; otherwise the locale's text of the instant; an invalid date object shows "Invalid Date" |
| PatientDetail.NotAvailableIff | src/app/components/doctor/PatientDetailView.tsx:109-126 | when the locale never writes "N/A", the table shows "N/A" exactly for falsy values and for values that are not date objects and give no instant |

## Left out

- Network, database, file system and archive I/O are left out. Their results are parameters (`insert`, `upload`, `unlink`, `list`, the document collections).
- JavaScript `Date` and time zones are left out: days, months, weeks and timestamps arrive as already computed values, and `toISOString`, `toLocaleDateString` and the `date-fns` formats are functions passed in.
- `toFixed`, `Math.round` and floating-point division are left out: rates and shares are exact `real`s, and the one rounding step the dashboard shows is modelled on integers.
- `localeCompare`, which the table's text sort uses, is left out: text sorts by code point. The other sorts use the default comparison or a subtracting comparator, which the model follows.
- `DataTable.FilteredRows`: in a column that mixes numbers with other values, the model orders every number before every other value. The source compares two numbers numerically and any other pair by the lower-cased `String()` of both cells, so `[{age: 35}, {}]` ascending puts the row without an age first there. That comparator is not a consistent order on such a column (9 < 10 as numbers, "10" < "9" as texts, "9" ties with 9), so the engine's result for it is not determined; columns of numbers only, or of no numbers, sort as the source does.
- Texts are sequences of code points, while JavaScript compares and measures strings in UTF-16 code units. Outside the Basic Multilingual Plane the default text order and lengths can therefore differ.
- `Text.ToLower` folds only the ASCII letters A to Z; `toLowerCase` also folds other scripts, so the search can miss a match on non-ASCII capitals.
- `BillingForm` and `Revenue` hold amounts as integers, while `Number()` of a form field can be fractional. Fractional prices, discounts and payments are not modelled.
- `LabWorkRoute.Submit`: the status failure is reported alone. The stored model's check is modelled for the status only; when other fields also fail it, Mongoose's message names those paths too.
- The doctor dashboard's yearly chart keeps years in first-seen order, but `Object.keys` lists integer-like keys (years) in ascending order. The weekly chart's labels are not integer-like, so its first-seen order is right. The same holds for the treatment pies (`DoctorDashboard.PieData`), built with `Object.entries` over treatment names: a treatment named by an integer-like text such as "12" would come before the others there, while the model keeps first-seen order. Left out because that depends on the engine's property order, not on the component.
- `JSON.stringify` and `JSON.parse` are left out: they are decoding functions passed in, with their failure as a `Result`.
- The billing trends series on the billing analytics page is left out: it only formats the already-modelled monthly figures with `date-fns`.
- `Pagination.TotalPages`: requires at least one item per page. Every caller picks the page size from a fixed list of positive numbers.
- `BillingForm.ChangeRow`: requires the index to name an existing row. The row inputs exist only for existing rows, so the form never writes past the end of the array.
- `LabWorkForms.DatePart`: models the `YYYY-MM-DD` prefix of an ISO stamp. The `RangeError` that `toISOString` throws on an invalid date is left out because the stored dates come from the schema's date check.
- `Revenue.Rows`: takes both lists as loaded. The source's empty answer while the bills or the patients are still loading is left out, because loading is I/O.
- `DataTable.ParseDate`: models the empty, day-first and non-text branches. The generic `new Date(text)` reader and the local calendar are functions passed in.
- `DoctorDashboard.ClockMinutes`: counts time of day in minutes rather than the milliseconds of `getTime`, because only comparisons within one day matter.
- The dashboard's registration chart, detailed appointment dates and table rows are left out: each is a re-formatting of lists the model already computes.
- The dashboard's rendering moment is an input, and so is the moment seven days earlier that `setDate(getDate() - 7)` computes.
- The Cloudinary upload, the database insert and the language model's call are parameters of `LabWorkRoute.Create` and `AiQuery.Handle`, so nothing about their internals is stated.
- Concurrency is left out: timers, the monitor's `setInterval`, overlapping requests, the uploads `Promise.all` runs side by side (and those still running after one fails) and React's batching of state updates. Each handler is one step of a state machine.
- `LabWorkRoute.Create`: takes the form as already read. A failing `req.formData()` (src/app/api/doctor/labWork/add/route.ts:21, inside the `try`) would answer 500 with its message, and a failing `dbConnect()` (line 18, before the `try`) rejects the handler with no answer of its own; both are database or request I/O and are not modelled.
- `BackupExport.StreamBackup`: models the database handle, the collection listing and each collection's cursor as inputs that may fail. An error of the archiver itself (`archive.finalize`, src/app/utils/backup.ts:50) is not modelled, and neither is what a client already read of the stream before a cursor failed.
- `RegistrationForm`: the optional `address` (street, city, state, postal code) and `emergencyContact` (full name, contact number, relationship) groups of the wizard are not modelled. Every field in them is an optional text with no check, so they never block a step or the submission; they only travel to the preview and the request body.
- `LabWorkRoute.UploadAll`: reports the error of the first failing file in file order. `Promise.all` rejects with the failure that settles first in time, so when several uploads fail, which error the 500 carries is not fixed by the file order; whether the uploads fail, and that the answer is 500, are as the source has them.

## Findings

| source | as written | input that shows it | evidently intended | confidence | as-written member | corrected member |
|---|---|---|---|---|---|---|
| src/schemas/zobLabWorkSchema.ts:38 | the schema types `attachments` as a list of strings, but the route puts the upload records (objects with url, name and type) there | any form with one valid file whose upload succeeds: the files are uploaded, then the request is refused with 400 "Validation failed" naming `attachments` | the schema accepts the records the route builds, as the stored model does | not executed | LabWorkRoute.AsWrittenRefusesUploads | LabWorkRoute.CorrectedAcceptsUploads |
| src/schemas/zobLabWorkSchema.ts:32-35 | the schema's statuses include "In Progress" and omit "Rework"; the stored model allows "Rework" and not "In Progress" | a request with status "In Progress": it passes the schema, the model's check then refuses it, and the route answers 500 | the schema offers exactly the statuses the model stores | not executed | LabWorkRoute.AsWrittenInProgressFails | LabWorkRoute.CorrectedReachesInsert |
| src/app/components/doctor/LabWorkAnalytics.tsx:126-133 | every order with both dates is counted a second time, at the month it came back; a received or fitted order is already dated by its return (lines 37-39), so it counts twice in the return month, while any other status is split over the month it was sent and the month it came back | one Received order sent on day 1 and returned on day 9: it shows as two Received orders in the month of day 9 | each order counted once, at the month of its status date | not executed | LabAnalytics.ReceivedOrderCountedTwice | LabAnalytics.StatusOverTime |
| src/app/components/doctor/LabWorkAnalytics.tsx:354 | the lab turnaround selects orders by their raw lab name, while the distribution lists unnamed orders as "Unspecified Lab" | one unnamed order returned after five days: listed under "Unspecified Lab" with turnaround 0 | the turnaround of the orders the entry lists, here 5 | not executed | LabAnalytics.UnspecifiedLabTurnaround | LabAnalytics.LabTurnaround |
