# Diff King job tracker: a verified model of its store, sync and screen logic

The Diff King job tracker is a desktop application for a workshop. It keeps
four kinds of record:

- **jobs**: repairs, fabrication and deliveries, each with items, payments,
  a status and an importance;
- **queries**: phone enquiries that may later become jobs;
- **bookings**: calendar bookings;
- **an audit log** of every job change.

The records live in a local store that is saved in browser storage and in a
jobs file. The store is synchronised with a remote database by a
last-writer-wins rule.

This project models the deterministic core of that application in Dafny and
proves properties of it:

- **The store reducers** for jobs, queries and bookings. They are pure
  functions from a state and an action to a new state. The clock reading and
  the fresh audit id are parameters.
- **The store around them**:
  - last-writer-wins reconciliation of remote lists;
  - the audit-log union;
  - the 60-day archive sweep;
  - normalisation of a saved state at start-up.
- **A `SyncEngine` class** holding the module-level sync flags of the store.
  Its methods change that state step by step. The flags are:
  - "a remote merge is being applied";
  - "remote jobs have loaded";
  - the last synced audit id;
  - a "push pending" flag in place of the debounce timer.
- **The row mappers** between records and their snake_case database rows, and
  the typed database records. This includes:
  - the upload procedure with its slice of unsynced audit entries;
  - the four-table download;
  - the filter that drops this client's own realtime audit inserts.
- **The utilities**:
  - urgency levels and due-date labels;
  - runtime type guards;
  - status formatting;
  - the XOR obfuscation of stored credentials;
  - HTML escaping and the print sheet's paid and due values.
- **The logic inside the screens and forms**:
  - the job board's filter, sort, sections, payments and selection;
  - the calendar grid, date keys, month navigation and drag-and-drop;
  - id allocation and the customer autocomplete list;
  - quick-add queries and query-to-job conversion;
  - the two "amount paid" calculators, which disagree on `2+3*4`;
  - form sanitising on save and submit;
  - the CSV export and the JSON import check;
  - the drawings list of the fabrication handbook;
  - the `--profile=` argument of the main process.

Numbers are exact (`real`, with an explicit NaN where JavaScript can produce
one). Strings are sequences of characters; the credential obfuscation works
on UTF-16 code units.

Each source file is one Dafny module:

| file | module |
|---|---|
| base.dfy | `Base` |
| lists.dfy | `Lists` |
| model.dfy | `Model` |
| job_reducer.dfy | `JobReducer` |
| query_reducer.dfy | `QueryReducer` |
| booking_reducer.dfy | `BookingReducer` |
| store.dfy | `Store` |
| store_load.dfy | `StoreLoad` |
| sync_engine.dfy | `Sync` |
| supabase_sync.dfy | `SupabaseSync` |
| database.dfy | `Database` |
| urgency.dfy | `Urgency` |
| type_guards.dfy | `TypeGuards` |
| formatters.dfy | `Formatters` |
| encryption.dfy | `Encryption` |
| print_html.dfy | `PrintHtml` |
| job_tracking.dfy | `JobTracking` |
| calendar.dfy | `Calendar` |
| ids.dfy | `Ids` |
| customers.dfy | `Customers` |
| queries.dfy | `Queries` |
| job_creation.dfy | `JobCreation` |
| expr_tokens.dfy | `ExprTokens` |
| job_edit_modal.dfy | `JobEditModal` |
| job_form.dfy | `JobForm` |
| query_form.dfy | `QueryForm` |
| settings.dfy | `Settings` |
| handbook.dfy | `Handbook` |
| main_process.dfy | `MainProcess` |

To verify, give all files to Dafny at once:

    dafny verify *.dfy

## Model

| member | source | states |
|---|---|---|
| Model.Importance.Name | src/types/index.ts:10 | an importance's name is one of the four names the job type allows |
| Base.OrString | src/components/JobEditModal.tsx:71-72 | `s \|\| fallback` on an optional text: the text when present and non-empty, the fallback otherwise |
| Base.Trim | src/main.ts:15 | `trim()`: never longer, and neither end of a non-empty result is white space; Base.TrimIsMiddle completes the characterisation |
| Base.TrimIsMiddle | src/main.ts:15 | `trim()` keeps a middle slice of the text and cuts off only white space on either side, which with Base.Trim's contract determines the result |
| Base.TrimStart | src/main.ts:15 | leading white space removed: a suffix that starts with a non-space, after only spaces |
| Base.TrimEnd | src/main.ts:15 | trailing white space removed: a prefix that ends with a non-space, before only spaces |
| Base.TrimEmptyIff | src/screens/QueriesScreen.tsx:105 | a text trims to nothing exactly when it is all white space |
| Base.TrimIdempotent | src/screens/QueriesScreen.tsx:110-111 | trimming twice is trimming once |
| Base.Lower | src/screens/QueriesScreen.tsx:72-77 | `toLowerCase()` restricted to ASCII: each letter A-Z becomes its lower-case letter, every other character is kept, one character at a time |
| Base.Split | src/main.ts:15 | `split(sep)`: at least one piece and no piece holds the separator |
| Base.JoinSplit | src/main.ts:15 | joining the pieces with the separator gives the text back |
| Base.SplitAfterFirst | src/main.ts:15 | the first piece ends at the first separator |
| Base.NatToString | src/screens/JobCreationScreen.tsx:26 | `String(n)` of a natural number is a non-empty run of digits |
| Base.IndexFields | src/store/index.ts:73-77 | the properties of an array-like value: each element under its index written in decimal, and no other key |
| Base.CharValues | src/store/index.ts:73-77 | a string's elements as a spread sees them: one one-character string per character, in order |
| Base.SpreadFields | src/store/index.ts:69-77 | what `{...v}` copies: an object's own fields, a string's characters and an array's elements by index, nothing for null, undefined, booleans and numbers |
| Base.ParseIntPrefix | src/screens/JobCreationScreen.tsx:20-23 | `Number.parseInt(s, 10)` is NaN exactly when no digit follows the leading spaces and an optional sign |
| Base.ParseIntOfNatToString | src/screens/JobCreationScreen.tsx:20-26 | a generated id reads back as its number |
| Lists.Filter | src/screens/JobCreationScreen.tsx:15 | `filter`: never longer, and every element kept passes the test |
| Lists.FilterCount | src/screens/QueriesScreen.tsx:28-29 | each passing element is kept as often as it appears, every other dropped |
| Lists.Map | src/screens/QueriesScreen.tsx:130-133 | `map`: same length, each element transformed in place |
| Lists.MapConcat | src/store/supabaseSync.ts:354-356 | mapping a concatenation maps each part, in order |
| Lists.MapWhere | src/screens/HandbookFabricationScreen.tsx:79-81 | `map(d => d.id === id ? f(d) : d)`: the elements with the id transformed, the others kept |
| Lists.Find | src/main.ts:11 | `find`: a found element is in the list and passes the test |
| Lists.FindFirst | src/main.ts:11 | nothing found exactly when no element passes, otherwise the first one that does |
| JobReducer.DeleteJobAt | src/store/jobReducer.ts:142-145 | `deleteJob` builds DELETE_JOB for the id, stamped with the current time |
| JobReducer.StatusSet | src/store/jobReducer.ts:174-184 | the job with the new status and a fresh `updatedAt`; `completedAt` is set to now exactly when the status is 'complete', cleared otherwise; nothing else changes |
| JobReducer.SoftDeleted | src/store/jobReducer.ts:213-217 | flagged deleted with the given time and a fresh `updatedAt`; nothing else changes |
| JobReducer.Restored | src/store/jobReducer.ts:230-241 | deleted and archived flags cleared with their times; `completedAt` re-stamped exactly when it was set; fresh `updatedAt`; nothing else changes |
| JobReducer.Imported | src/store/jobReducer.ts:266-272 | keeps a set `updatedAt` or stamps now; `isArchived` becomes a plain boolean, true only when it was true; nothing else changes |
| JobReducer.Archived | src/store/jobReducer.ts:289-297 | flagged archived with the given time; nothing else changes (no `updatedAt`) |
| JobReducer.ApplyStatus | src/store/jobReducer.ts:174-185 | same length; every job with the id gets the status, every other job is kept |
| JobReducer.ApplyUpdate | src/store/jobReducer.ts:198-200 | same length; every job with the payload's id becomes the stamped payload, every other job is kept |
| JobReducer.ApplyDelete | src/store/jobReducer.ts:213-217 | same length; every job with the id is soft-deleted, every other job is kept |
| JobReducer.ApplyRestore | src/store/jobReducer.ts:230-241 | same length; every job with the id is restored, every other job is kept |
| JobReducer.ApplyImport | src/store/jobReducer.ts:266-272 | same length; every job is normalised in place |
| JobReducer.ApplyArchive | src/store/jobReducer.ts:289-297 | same length; exactly the jobs whose id is listed are archived |
| JobReducer.Reduce | src/store/jobReducer.ts:156-314 | the audited actions prepend exactly one entry, with the clock's id and time, before the old log; REPLACE_JOBS and unknown actions keep the log |
| JobReducer.CreateAudit | src/store/jobReducer.ts:131-135 | an audit entry with the clock's id and time; no contract of its own, stated by JobReducer.Reduce and JobReducer.AuditActionsDeclared |
| JobReducer.AddJobPrepends | src/store/jobReducer.ts:158-170 | ADD_JOB puts the stamped job first, keeps the old jobs behind it, and logs JOB_CREATED for its id |
| JobReducer.PerJobActionsKeepIds | src/store/jobReducer.ts:171-250 | status, update, delete, restore and archive keep the list of ids, in order |
| JobReducer.OthersUntouched | src/store/jobReducer.ts:171-250 | status, delete and restore leave every job with another id as it was |
| JobReducer.ArchiveTouchesOnlyArchiveFields | src/store/jobReducer.ts:286-305 | after ARCHIVE_JOBS a job is archived exactly when listed or already archived, and its `updatedAt`, status, payment and deleted flag are kept |
| JobReducer.ClearAndOther | src/store/jobReducer.ts:251-262 | CLEAR_JOBS empties the list; an unknown action returns the state unchanged |
| JobReducer.AuditActionsDeclared | src/store/jobReducer.ts:162-304 | every logged action is one of the declared audit actions of src/types/index.ts |
| JobReducer.SetJobsKeepsPayload | src/store/jobReducer.ts:263-280 | SET_JOBS keeps the payload's length and ids and every set `updatedAt` |
| QueryReducer.SoftDeleted | src/store/queryReducer.ts:99-103 | flagged deleted with the given time and a fresh `updatedAt`; nothing else changes |
| QueryReducer.Imported | src/store/queryReducer.ts:108-111 | a query with a set `updatedAt` is kept as it is; otherwise it is stamped now |
| QueryReducer.Reduce | src/store/queryReducer.ts:82-121 | ADD_QUERY adds one query; update, delete and set keep the length of the list they map; REPLACE_QUERIES installs the payload; an unknown action changes nothing |
| QueryReducer.AddQueryPrepends | src/store/queryReducer.ts:84-88 | the stamped query goes in front of the old ones |
| QueryReducer.UpdateQueryOnlyMatching | src/store/queryReducer.ts:89-95 | a query with the payload's id becomes the stamped payload; any other is kept |
| QueryReducer.DeleteQueryKeepsIds | src/store/queryReducer.ts:96-104 | DELETE_QUERY keeps the ids in order; every query with the id becomes its soft-deleted, restamped self and every other query is left as it is |
| QueryReducer.SetQueriesFillsStamps | src/store/queryReducer.ts:105-112 | SET_QUERIES normalises each query in place, and every one ends up with an `updatedAt` |
| BookingReducer.WithDefaultStatus | src/store/bookingReducer.ts:87 | `{ status: 'confirmed', ...payload }`: the payload's own status wins, 'confirmed' fills a missing one |
| BookingReducer.SoftDeleted | src/store/bookingReducer.ts:99-103 | flagged deleted with the given time and a fresh `updatedAt`; nothing else changes |
| BookingReducer.Imported | src/store/bookingReducer.ts:108-111 | a booking with a set `updatedAt` is kept as it is; otherwise it is stamped now |
| BookingReducer.Reduce | src/store/bookingReducer.ts:82-121 | ADD_BOOKING adds one booking that always has a status; update and delete keep the length; SET_BOOKINGS keeps the payload's length; REPLACE_BOOKINGS installs the payload; an unknown action changes nothing |
| BookingReducer.AddBookingDefaultsStatus | src/store/bookingReducer.ts:84-88 | the new booking goes first, stamped now, with its own status or 'confirmed', and is otherwise the payload |
| BookingReducer.UpdateBookingOnlyMatching | src/store/bookingReducer.ts:89-95 | a booking with the payload's id becomes the stamped payload; any other is kept |
| BookingReducer.DeleteBookingKeepsIds | src/store/bookingReducer.ts:96-104 | DELETE_BOOKING keeps the ids in order; every booking with the id becomes its soft-deleted, restamped self and every other booking is left as it is |
| BookingReducer.SetBookingsFillsStamps | src/store/bookingReducer.ts:105-112 | SET_BOOKINGS normalises each booking in place |
| Store.RootReduce | src/store/index.ts:122-126 | the combined reducer: an action for one slice leaves the other two slices unchanged |
| Store.ClientIdFor | src/store/index.ts:139-150 | 'server' outside a window; otherwise the stored client id when it is set and non-empty, the freshly generated one otherwise |
| Store.LastWithId | src/store/index.ts:191 | the look-up in `new Map(current.map(...))`: the last record in the list with that id (a later duplicate overwrites an earlier one), absent exactly when no record has it |
| Store.StampTime | src/store/index.ts:197-198 | a missing or empty `updatedAt` counts as time 0 |
| Store.Pick | src/store/index.ts:192-200 | the incoming record when there is no local one; the result is always the incoming or the local record |
| Store.MergeRemote | src/store/index.ts:189-200 | one record per remote record, in remote order, with the remote id, each the remote record or a local one |
| Store.MergeKeepsRemoteIds | src/store/index.ts:189-206 | the merged ids are exactly the remote ids in order, so a local record whose id is not remote is dropped |
| Store.MergeLocalWinsIff | src/store/index.ts:197-199 | the local record wins exactly when its time is strictly later than the remote one's |
| Store.MergeTieOrNaNRemoteWins | src/store/index.ts:197-199 | on equal times, or when either time does not parse, the remote record wins |
| Store.MergeMissingStampIsZero | src/store/index.ts:197-199 | a remote record without a stamp loses to a local record stamped after the epoch |
| Store.LastWithIdDistinct | src/store/index.ts:191 | with distinct ids, looking up a record's own id gives that record |
| Store.MergeIdempotent | src/store/index.ts:189-256 | merging the same remote list a second time changes nothing |
| Store.DedupFirst | src/store/index.ts:214-219 | the reduce that keeps the first entry of each id is never longer than its input |
| Store.MergeAudit | src/store/index.ts:208-222 | the loop over incoming then current entries computes exactly the keep-the-first fold |
| Store.DedupDistinct | src/store/index.ts:214-219 | the merged log has no two entries with the same id |
| Store.DedupKeepsIds | src/store/index.ts:214-219 | every id of the input appears in the merged log, which holds only input entries |
| Store.DedupPrefix | src/store/index.ts:214-219 | deduplicating a longer list extends the deduplicated prefix |
| Store.IncomingWins | src/store/index.ts:214-219 | the incoming entries come first, and on an id clash the incoming entry is kept |
| Store.Cutoff | src/store/index.ts:156-157 | now minus the 60-day retention window of src/constants/config.ts, in milliseconds |
| Store.ArchiveCandidates | src/store/index.ts:155-179 | exactly the ids of the jobs the archive rule selects |
| Store.ArchiveRule | src/store/index.ts:161-176 | never an archived job; a deleted job with a deletion time exactly when deleted 60 or more days ago, whatever it owes; otherwise a completed job with a completion time exactly when fully paid and completed 60 or more days ago; any other job never |
| Store.IsArchiveCandidate | src/store/index.ts:161-176 | the sweep's filter; no contract of its own, its three branches are stated by Store.ArchiveRule and its use by Store.ArchiveCandidates |
| Store.NoCandidatesNoIds | src/store/index.ts:155-187 | with no candidate, the sweep has nothing to dispatch |
| Store.SweepLeavesNoCandidates | src/store/index.ts:181-187 | after archiving the candidates, a second sweep at the same time finds none |
| StoreLoad.LoadFileState | src/store/index.ts:16-28 | nothing when the file is missing or empty; otherwise the parse, nothing when it throws |
| StoreLoad.LoadState | src/store/index.ts:30-45 | nothing outside a window; the stored state when it is non-empty and parses; the file's state when storage is empty, fails or does not parse |
| StoreLoad.LoadStateNothing | src/store/index.ts:30-45 | with neither a parsable stored state nor a parsable file, nothing is loaded |
| StoreLoad.OrDefault | src/store/index.ts:75-76 | `x \|\| fallback`: the property when truthy, the fallback otherwise |
| StoreLoad.NormalizeRecord | src/store/index.ts:73-92 | throws on null or undefined; otherwise a stamped object in which a truthy `updatedAt` or `importance` is kept and a falsy one becomes the current time or 'Medium' |
| StoreLoad.NormalizeRecordSpread | src/store/index.ts:73-77 | the record holds exactly the properties the spread copies (an object's fields, a string's characters, an array's elements) plus `updatedAt` and, for a job, `importance`; every other copied property keeps its value |
| StoreLoad.NormalizeStringRecord | src/store/index.ts:73-77 | a stored job that is the string "ab" becomes the record {"0": "a", "1": "b", importance: "Medium", updatedAt: now} |
| StoreLoad.NormalizeList | src/store/index.ts:73-92 | throws exactly when some element is null or undefined; otherwise normalises each element in place |
| StoreLoad.NormalizeSlice | src/store/index.ts:80-93 | a missing slice, or one without a list array, becomes a slice holding only an empty list; otherwise the slice's fields with the list normalised, throwing exactly when a list element is null or undefined |
| StoreLoad.NormalizeState | src/store/index.ts:64-95 | no preloaded state exactly when the state, its jobs slice or the jobs array is missing; throws exactly when a job, or an element of a present queries or bookings list, is null or undefined; otherwise the jobs normalised, the audit log kept when it is an array and empty otherwise, the two other slices normalised, and every other field of the state and of the jobs slice kept |
| StoreLoad.NormalizedIsWellFormed | src/store/index.ts:64-95 | a normalised state has every job, query and booking stamped, every job with an importance, and array-valued audit, queries and bookings |
| StoreLoad.NormalizeStampedList | src/store/index.ts:73-92 | a list already stamped is left as it is |
| StoreLoad.NormalizeSliceStable | src/store/index.ts:80-93 | a slice already normalised is left as it is |
| StoreLoad.NormalizeIdempotent | src/store/index.ts:64-95 | normalising a normalised state changes nothing |
| Sync.EngineDispatches | src/store/index.ts:186-254 | each dispatch the engine makes (replace jobs, set audit, replace queries, replace bookings, archive) changes exactly its own part of the state |
| Sync.Swept | src/store/index.ts:181-187 | the archive sweep touches only the jobs slice |
| Sync.SweptSettles | src/store/index.ts:181-187 | after a sweep no job is left to archive, and the job ids are unchanged |
| Sync.AfterRemoteJobsMirrorsRemote | src/store/index.ts:189-206 | after `applyRemoteJobs` the store holds exactly the remote job ids in remote order, nothing is left to archive, and queries and bookings are untouched |
| Sync.AfterRemoteAuditIsUnion | src/store/index.ts:208-222 | the log after `applyRemoteAudit` holds the union of the incoming and local ids, each once, incoming entries first; nothing else changes |
| Sync.AfterRemoteQueriesAndBookingsMirrorRemote | src/store/index.ts:224-256 | queries and bookings end up with exactly the remote ids in remote order, each merge touching only its own slice |
| Sync.RefreshMirrorsRemote | src/store/index.ts:336-356 | a complete download leaves exactly the remote job, query and booking ids, every downloaded audit id, and nothing to archive |
| Sync.SyncEngine.constructor | src/store/index.ts:130-153 | the store starts from the preloaded state, idle, with nothing loaded, pending or started |
| Sync.SyncEngine.Dispatch | src/store/index.ts:291-315 | a dispatch applies the combined reducer, saves the new state, and schedules a push unless a remote apply is under way or nothing was loaded yet |
| Sync.SyncEngine.Commit | src/store/index.ts:291-315 | installs a state with the same saving and push scheduling as a dispatch |
| Sync.SyncEngine.RunArchiveSweep | src/store/index.ts:181-187 | the state becomes the swept state; with no candidate nothing is dispatched, saved or scheduled |
| Sync.SyncEngine.ApplyRemoteJobs | src/store/index.ts:189-206 | the state becomes the merged jobs followed by a sweep; the remote data counts as loaded; only the sweep's own dispatch can schedule a push |
| Sync.SyncEngine.ApplyRemoteAudit | src/store/index.ts:208-222 | no entries: nothing happens; otherwise the audit union is stored without scheduling a push |
| Sync.SyncEngine.ApplyRemoteQueries | src/store/index.ts:224-239 | the merged queries are stored without scheduling a push |
| Sync.SyncEngine.ApplyRemoteBookings | src/store/index.ts:241-256 | the merged bookings are stored without scheduling a push |
| Sync.SyncEngine.PushAndReport | src/store/index.ts:305-314 | the push result is the upload's report; on error the status shows it and the audit watermark is kept; on success the watermark advances and the status is success |
| Sync.SyncEngine.SyncTimerFires | src/store/index.ts:301-314 | the debounced push runs once, clears the pending flag, and advances the watermark only on success |
| Sync.SyncEngine.TriggerManualSync | src/store/index.ts:322-334 | does nothing while a remote apply is under way; otherwise pushes and reports as the timer does |
| Sync.SyncEngine.TriggerManualRefresh | src/store/index.ts:336-356 | on a download error only the status changes; otherwise each downloaded part is applied in order and the status is success |
| Sync.SyncEngine.ApplyDownload | src/store/index.ts:343-354 | applies jobs, audit, queries and bookings, each only when downloaded |
| Sync.SyncEngine.TryStartSync | src/store/index.ts:265-283 | sync counts as started once it was, or when the client is configured and the subscription comes back |
| Sync.SyncEngine.OnRealtimeAudit | src/store/supabaseSync.ts:256-269 | a realtime audit insert from another client is merged into the log; one from this client is ignored; no push is scheduled |
| SupabaseSync.DecodeEncodeSeq | src/store/supabaseSync.ts:20-25 | a JSON array column read back gives the list written, when each element reads back |
| SupabaseSync.DecodeEncodeSeqOpt | src/store/supabaseSync.ts:22-25 | an optional array column (written as null when absent) reads back as what was written |
| SupabaseSync.JsonColumnsRoundTrip | src/store/supabaseSync.ts:20-25 | items, measurements, attachments, payments and query items each read back from their JSON form |
| SupabaseSync.FromDbJob | src/store/supabaseSync.ts:7-34 | a row read as a job, each field from its camelCase or snake_case column; no contract of its own, stated by SupabaseSync.KeyPrecedence, SupabaseSync.EmptyRowDefaults and SupabaseSync.JobRowRoundTrip |
| SupabaseSync.ToDbJob | src/store/supabaseSync.ts:36-60 | a job written as a row with snake_case columns; no contract of its own, its inverse is stated by SupabaseSync.JobRowRoundTrip |
| SupabaseSync.OptStringColumn | src/store/supabaseSync.ts:15-16 | an optional text written as the value or null reads back the same, whichever spelling is looked at first |
| SupabaseSync.JobRowJsonColumns | src/store/supabaseSync.ts:20-25 | a job's items, measurements, attachments and payment history survive the row round trip |
| SupabaseSync.JobRowRoundTrip | src/store/supabaseSync.ts:7-60 | `fromDbJob(toDbJob(j))` is j with the two flags made explicit booleans (false when missing) |
| SupabaseSync.KeyPrecedence | src/store/supabaseSync.ts:12-31 | the camelCase spelling wins for names and flags, the snake_case one for `updated_at` and `completed_at`, and the other spelling is used only when the first is null or missing |
| SupabaseSync.EmptyRowDefaults | src/store/supabaseSync.ts:7-34 | a row with no columns gives the defaults: empty id, 'Repair', 'Medium', 'not started', no items, not deleted, not archived, no stamps |
| SupabaseSync.FromDbAudit | src/store/supabaseSync.ts:62-72 | a row read as an audit entry; no contract of its own, stated by SupabaseSync.AuditRowRoundTrip |
| SupabaseSync.ToDbAudit | src/store/supabaseSync.ts:74-81 | an entry without a client id is uploaded with this client's id |
| SupabaseSync.AuditRowRoundTrip | src/store/supabaseSync.ts:62-81 | an audit entry reads back from its row, with the client id filled in |
| SupabaseSync.FromDbQuery | src/store/supabaseSync.ts:83-96 | a row read as a query; no contract of its own, stated by SupabaseSync.QueryRowRoundTrip |
| SupabaseSync.ToDbQuery | src/store/supabaseSync.ts:98-108 | a query written as a row; no contract of its own, its inverse is stated by SupabaseSync.QueryRowRoundTrip |
| SupabaseSync.QueryRowRoundTrip | src/store/supabaseSync.ts:83-108 | a query reads back from its row with the deleted flag made an explicit boolean |
| SupabaseSync.FromDbBooking | src/store/supabaseSync.ts:110-125 | a booking read from a row never has a status |
| SupabaseSync.ToDbBooking | src/store/supabaseSync.ts:127-139 | a booking written as a row, without its status; no contract of its own, stated by SupabaseSync.BookingRowRoundTrip |
| SupabaseSync.BookingRowRoundTrip | src/store/supabaseSync.ts:110-139 | a booking reads back from its row without its status, so a booking with a status never survives the round trip |
| SupabaseSync.UploadedJobsReadBack | src/store/supabaseSync.ts:317-323 | every uploaded job reads back from its row, position by position |
| SupabaseSync.FirstIndexOf | src/store/supabaseSync.ts:348 | `findIndex`: the first position with the id, or -1 when none has it |
| SupabaseSync.UnsyncedAudit | src/store/supabaseSync.ts:346-352 | the entries before the watermark when it is set and found, the whole log otherwise; never the watermark entry itself |
| SupabaseSync.PendingAudit | src/store/supabaseSync.ts:354-356 | never more rows than the log has entries; which rows, and in what order, is stated by PendingAuditSpec, PendingAuditSingle and PendingAuditConcat |
| SupabaseSync.PendingAuditSpec | src/store/supabaseSync.ts:346-356 | only the entries newer than the watermark count; each of them that is unowned or this client's gives its `toDbAudit` row, and every row is the `toDbAudit` of such an entry |
| SupabaseSync.PendingAuditSingle | src/store/supabaseSync.ts:354-356 | one entry gives its `toDbAudit` row exactly when it is unowned or this client's, and no row otherwise |
| SupabaseSync.PendingAuditConcat | src/store/supabaseSync.ts:354-356 | the rows keep the log's order: the rows of a log are the rows of its first part followed by the rows of the rest |
| SupabaseSync.PendingAuditOwned | src/store/supabaseSync.ts:354-356 | every uploaded audit row carries this client's id, or the empty id it already had |
| SupabaseSync.PushReport | src/store/supabaseSync.ts:307-366 | fails exactly when a client exists and an attempted upsert fails, reporting the first failure and keeping the watermark; success moves the watermark to the newest entry; without a client nothing is attempted |
| SupabaseSync.PushCallsOrder | src/store/supabaseSync.ts:317-363 | the upserts go to jobs, queries, bookings and audit in that order, each only after the previous one succeeded |
| SupabaseSync.PushCallsContent | src/store/supabaseSync.ts:317-363 | the upserts carry all jobs, all queries, all bookings, and the pending audit rows only when there are some |
| SupabaseSync.Push | src/store/supabaseSync.ts:307-366 | the upload method returns the report and makes exactly the upserts specified |
| SupabaseSync.FetchReport | src/store/supabaseSync.ts:156-198 | all four lists, mapped, exactly when the client exists and every table read succeeds; otherwise only the first failure's message, tables read in the order jobs, audit, queries, bookings |
| SupabaseSync.Fetch | src/store/supabaseSync.ts:156-198 | the download method returns the report and reads the tables up to the first failure |
| SupabaseSync.RealtimeAudit | src/store/supabaseSync.ts:256-269 | an inserted audit row is delivered unless it carries this client's id |
| SupabaseSync.OwnUploadIsNotEchoed | src/store/supabaseSync.ts:256-269 | an entry this client uploads is not delivered back to it |
| Database.JobRoundTrips | src/types/database.ts:47-107 | `fromDbJob` and `toDbJob` are inverse to each other, in both directions |
| Database.ToDbJob | src/types/database.ts:47-76 | a job as a typed row; no contract of its own, Database.JobRoundTrips states that Database.FromDbJob undoes it |
| Database.FromDbJob | src/types/database.ts:78-107 | a typed row as a job; no contract of its own, Database.JobRoundTrips states that Database.ToDbJob undoes it |
| Database.AuditRoundTrips | src/types/database.ts:109-132 | the audit converters are inverse to each other, `client_id` included |
| Database.QueryRoundTrips | src/types/database.ts:149-178 | the query converters are inverse to each other |
| Database.ToDbQuery | src/types/database.ts:149-164 | a query as a typed row; no contract of its own, Database.QueryRoundTrips states its inverse |
| Database.FromDbQuery | src/types/database.ts:166-178 | a typed row as a query; no contract of its own, Database.QueryRoundTrips states its inverse |
| Database.BookingRoundTrips | src/types/database.ts:194-224 | a booking survives the round trip except for its status, which is lost; a row survives unchanged |
| Database.ToDbBooking | src/types/database.ts:194-208 | a booking as a typed row, without its status; no contract of its own, stated by Database.BookingRoundTrips |
| Urgency.ToLocalDate | src/utils/urgency.ts:6-17 | null for the empty string; the local date from the three parts when `value` splits on '-' into exactly three numeric parts (month counted from 0); otherwise the parsed date, null when it is invalid |
| Urgency.RoundDiv | src/utils/urgency.ts:32 | `Math.round(n / m)`: the result is within half a unit of the exact quotient, halves rounding up |
| Urgency.WholeDaysExact | src/utils/urgency.ts:32 | a difference of a whole number of days rounds to exactly that number |
| Urgency.DaysUntil | src/utils/urgency.ts:25-33 | null exactly when the date does not parse; otherwise the rounded number of days between the starts of today and of the due day |
| Urgency.ImportanceRank | src/utils/urgency.ts:35-50 | orders the four urgencies from Urgent (0) to Low (3) |
| Urgency.UrgencyFromDays | src/utils/urgency.ts:35-50 | Medium without a due date; otherwise Urgent, High, Medium or Low exactly when the day count falls in the band set by the thresholds of src/constants/config.ts |
| Urgency.UrgencyMonotone | src/utils/urgency.ts:40-49 | a later due date never gives a more urgent level |
| Urgency.Weeks | src/utils/urgency.ts:68 | at least 2, and within half a week of the day count divided by 7 |
| Urgency.DueLabel | src/utils/urgency.ts:52-72 | each branch of `formatDueLabel`: no due date, today, tomorrow, overdue by n day(s) with the singular for one day, n weeks from 14 days on, n days otherwise |
| Urgency.DigitsThenText | src/utils/urgency.ts:65 | the decimal digits of a number followed by text that does not start with a digit read back as that number |
| Urgency.DigitPrefixAppend | src/utils/urgency.ts:65 | the digit prefix of digits followed by a non-digit is those digits |
| Urgency.NumberPrefixInjective | src/utils/urgency.ts:65-71 | a number rendered in front of text that does not start with a digit determines both the number and the text |
| Urgency.OverdueLabelInjective | src/utils/urgency.ts:64-65 | two equal overdue labels name the same number of days |
| Urgency.DaysLabelInjective | src/utils/urgency.ts:71 | two equal 'Due in n days' labels name the same n |
| Urgency.LabelKindsDiffer | src/utils/urgency.ts:57-71 | labels from different branches (overdue, today, tomorrow, days) never coincide |
| Urgency.DueLabelInjective | src/utils/urgency.ts:52-72 | below 14 days, the label determines the day count |
| TypeGuards.EnumGuardsExact | src/utils/typeGuards.ts:19-59 | each enumeration guard accepts exactly the strings of its type (the lists of src/types/index.ts) and nothing that is not a string |
| TypeGuards.IsJobCategory | src/utils/typeGuards.ts:19-27 | `isJobCategory`; no contract of its own, TypeGuards.EnumGuardsExact states it accepts exactly the category strings |
| TypeGuards.IsJobStatus | src/utils/typeGuards.ts:29-37 | `isJobStatus`; no contract of its own, TypeGuards.EnumGuardsExact states it accepts exactly the status strings |
| TypeGuards.IsJobImportance | src/utils/typeGuards.ts:39-44 | `isJobImportance`; no contract of its own, TypeGuards.EnumGuardsExact states it accepts exactly the importance strings |
| TypeGuards.IsAuditAction | src/utils/typeGuards.ts:46-59 | `isAuditAction`; no contract of its own, TypeGuards.EnumGuardsExact states it accepts exactly the audit action strings |
| TypeGuards.ImportanceNamesAccepted | src/utils/typeGuards.ts:39-41 | the name of every urgency level passes `isJobImportance` |
| TypeGuards.ReducerAuditActionsAccepted | src/utils/typeGuards.ts:46-59 | every audit entry the job reducer writes carries an action `isAuditAction` accepts |
| TypeGuards.EveryMeansAll | src/utils/typeGuards.ts:76 | `Array.prototype.every` holds exactly when the predicate holds at every index |
| TypeGuards.ArrayGuardsExact | src/utils/typeGuards.ts:64-117 | an array guard passes exactly for an array whose every element has the required fields with the required types; an empty array passes, a non-array never does |
| TypeGuards.IsJobItem | src/utils/typeGuards.ts:64-73 | `isJobItem`; no contract of its own, TypeGuards.ArrayGuardsExact states the arrays it accepts |
| TypeGuards.IsJobItemArray | src/utils/typeGuards.ts:75-80 | `isJobItemArray`; no contract of its own, TypeGuards.ArrayGuardsExact states it holds exactly for arrays of job items |
| TypeGuards.IsMeasurement | src/utils/typeGuards.ts:82-95 | `isMeasurement`; no contract of its own, TypeGuards.ArrayGuardsExact states the arrays it accepts |
| TypeGuards.IsMeasurementArray | src/utils/typeGuards.ts:97-102 | `isMeasurementArray`; no contract of its own, TypeGuards.ArrayGuardsExact states it holds exactly for arrays of measurements |
| TypeGuards.IsJobAttachment | src/utils/typeGuards.ts:104-113 | `isJobAttachment`; no contract of its own, TypeGuards.ArrayGuardsExact states the arrays it accepts |
| TypeGuards.IsJobAttachmentArray | src/utils/typeGuards.ts:115-120 | `isJobAttachmentArray`; no contract of its own, TypeGuards.ArrayGuardsExact states it holds exactly for arrays of attachments |
| TypeGuards.ValidateString | src/utils/typeGuards.ts:122-124 | the value when it is a string, the fallback otherwise |
| TypeGuards.ValidateNumber | src/utils/typeGuards.ts:129-131 | the value when it is a number, the fallback otherwise |
| TypeGuards.ValidateBoolean | src/utils/typeGuards.ts:136-138 | the value when it is a boolean, the fallback otherwise |
| TypeGuards.ValidateRoundTrip | src/utils/typeGuards.ts:122-138 | a value of the right type comes back unchanged whatever the fallback, and null always gives the fallback |
| Formatters.FormatStatus | src/utils/formatters.ts:3-7 | fails (the call throws) exactly when some space-separated word of the status is empty |
| Formatters.TitleCase | src/utils/formatters.ts:3-7 | reference definition: same length, every character at the start or after a space upper-cased, the rest kept |
| Formatters.TitleCaseAfterWord | src/utils/formatters.ts:5-7 | title-casing a word, a space and the rest is capitalising the word and title-casing the rest |
| Formatters.JoinCapitalized | src/utils/formatters.ts:5-7 | joining the capitalised words with spaces is title-casing the joined words |
| Formatters.FormatStatusIsTitleCase | src/utils/formatters.ts:3-7 | when no word is empty, `formatStatus` is the reference title-casing |
| Formatters.UpperCharSpace | src/utils/formatters.ts:6 | upper-casing gives a space exactly from a space |
| Formatters.TitleCaseSameSpaces | src/utils/formatters.ts:3-7 | title-casing keeps the spaces exactly where they were |
| Formatters.SameSpacesSameEmptyWords | src/utils/formatters.ts:5 | strings with spaces at the same places split into as many words of the same lengths |
| Formatters.TitleCaseKeepsWords | src/utils/formatters.ts:3-7 | title-casing creates no empty word |
| Formatters.FormatStatusIdempotent | src/utils/formatters.ts:3-7 | formatting a formatted status changes nothing |
| Formatters.FormatStatusKeepsShape | src/utils/formatters.ts:3-7 | the formatted status has the same length and the same number of words |
| Formatters.OneWord | src/utils/formatters.ts:3-7 | a single word is capitalised |
| Formatters.TwoWords | src/utils/formatters.ts:3-7 | two words are each capitalised and joined by one space |
| Formatters.DatePart | src/utils/formatters.ts:12-13 | `formatDateISO`'s `split('T')[0]`: the longest prefix without 'T', followed in the input by a 'T' when shorter |
| Formatters.SplitHead | src/utils/formatters.ts:13 | the first piece of a split is a prefix of the string, followed by the separator when shorter |
| Encryption.BitXorInvolution | src/utils/encryption.ts:22 | xor-ing twice with the same key unit gives the unit back |
| Encryption.BitXorSelf | src/utils/encryption.ts:22 | a unit xor-ed with itself is zero |
| Encryption.BitXorBound | src/utils/encryption.ts:22 | the xor of two m-bit numbers is an m-bit number, so a code unit stays a code unit |
| Encryption.Pow2Values | src/utils/encryption.ts:22 | the byte and code-unit bounds 2^8 and 2^16 |
| Encryption.MachineKey | src/utils/encryption.ts:7-13 | `getMachineKey`: never empty, built from the screen size inside a window, the fixed key otherwise |
| Encryption.Units | src/utils/encryption.ts:22 | `charCodeAt` over a string: one code unit per character, of the same value |
| Encryption.AsciiConcat | src/utils/encryption.ts:10 | joining ASCII strings gives ASCII |
| Encryption.IntToStringAscii | src/utils/encryption.ts:10 | a rendered integer is ASCII |
| Encryption.MachineKeyAscii | src/utils/encryption.ts:7-13 | the machine key is ASCII |
| Encryption.KeyUnits | src/utils/encryption.ts:18-22 | the key's code units: at least one, all below 0x80 |
| Encryption.XorUnit | src/utils/encryption.ts:22 | `String.fromCharCode(a ^ b)` is the bitwise xor of the two units |
| Encryption.Xor | src/utils/encryption.ts:19-24 | one unit per text unit, the i-th xor-ed with the key unit at i modulo the key length |
| Encryption.XorInvolution | src/utils/encryption.ts:15-45 | xor-ing with the repeated key twice gives the text back |
| Encryption.XorLatin1 | src/utils/encryption.ts:19-26 | Latin-1 text xor-ed with a Latin-1 key stays Latin-1, so `btoa` accepts it |
| Encryption.Encrypt | src/utils/encryption.ts:15-27 | '' for empty text; otherwise `btoa` of the xor-ed units, and the failure `btoa` throws |
| Encryption.Decrypt | src/utils/encryption.ts:29-45 | '' for the empty string and when `atob` throws; otherwise the decoded units xor-ed with the key |
| Encryption.DecryptEncrypt | src/utils/encryption.ts:15-45 | Latin-1 text under a Latin-1 key always encrypts, and decrypting the result gives the text back |
| Encryption.MachineRoundTrip | src/utils/encryption.ts:7-45 | the same round trip under the machine key, for any screen size |
| PrintHtml.ReplaceAll | src/utils/printHtml.ts:7 | `replace(/c/g, rep)`: when the replacement holds no c, no c is left |
| PrintHtml.ReplaceAllConcat | src/utils/printHtml.ts:7-11 | a global replace works piece by piece over a concatenation |
| PrintHtml.ReplaceAllNoNew | src/utils/printHtml.ts:7-11 | a replace brings in no character absent from both the input and the replacement |
| PrintHtml.ReplaceAllAbsent | src/utils/printHtml.ts:7-11 | replacing a character that does not occur changes nothing |
| PrintHtml.EscapeChar | src/utils/printHtml.ts:5-12 | the entity each of the five special characters becomes, the character itself otherwise |
| PrintHtml.EscapeHtml | src/utils/printHtml.ts:5-12 | the five chained replaces; no contract of its own, stated by PrintHtml.EscapeHtmlIsPerChar, PrintHtml.EscapeHtmlSafe, PrintHtml.EscapeHtmlAmpersands and PrintHtml.UnescapeEscape |
| PrintHtml.ReplaceAllSingle | src/utils/printHtml.ts:7-11 | on one character, a replace gives the replacement or the character |
| PrintHtml.LaterStagesAbsent | src/utils/printHtml.ts:8-11 | the last four replaces leave a string without their characters unchanged |
| PrintHtml.LaterStagesAbsentFrom2 | src/utils/printHtml.ts:9-11 | likewise for the last three replaces |
| PrintHtml.EscapeHtmlOneChar | src/utils/printHtml.ts:5-12 | `escapeHtml` of one character is that character's entity |
| PrintHtml.EscapeOneLt | src/utils/printHtml.ts:8 | '<' becomes "&lt;" |
| PrintHtml.EscapeOneGt | src/utils/printHtml.ts:9 | '>' becomes "&gt;" |
| PrintHtml.EscapeOneQuot | src/utils/printHtml.ts:10 | '"' becomes "&quot;" |
| PrintHtml.EscapeOneApos | src/utils/printHtml.ts:11 | '\'' becomes "&#039;" |
| PrintHtml.EscapeHtmlIsPerChar | src/utils/printHtml.ts:5-12 | the five chained replaces equal escaping each character on its own, because '&' goes first |
| PrintHtml.EscapeHtmlSplit | src/utils/printHtml.ts:5-12 | escaping distributes over concatenation |
| PrintHtml.EscapeHtmlSafe | src/utils/printHtml.ts:5-12 | the output holds none of '<', '>', '"' and '\'' |
| PrintHtml.EscapeHtmlPlain | src/utils/printHtml.ts:5-12 | text without special characters is left as it is |
| PrintHtml.EscapeCharsPlain | src/utils/printHtml.ts:5-12 | the per-character escaping leaves plain text as it is |
| PrintHtml.EscapeHtmlAmpersands | src/utils/printHtml.ts:5-12 | every '&' of the output starts one of the five entities, so no entity is escaped twice |
| PrintHtml.EscapeCharsAmpersands | src/utils/printHtml.ts:5-12 | the same for the per-character escaping |
| PrintHtml.UnescapeEntity | src/utils/printHtml.ts:5-12 | reading back an entity gives its special character |
| PrintHtml.UnescapePlain | src/utils/printHtml.ts:5-12 | reading back a character other than '&' gives that character |
| PrintHtml.UnescapeOne | src/utils/printHtml.ts:5-12 | reading back the escape of any one character gives that character |
| PrintHtml.UnescapeEscape | src/utils/printHtml.ts:5-12 | the escaping is lossless: reading entities back gives the original text |
| PrintHtml.UnescapeEscapeChars | src/utils/printHtml.ts:5-12 | the same for the per-character escaping |
| PrintHtml.PaidAmount | src/utils/printHtml.ts:16 | `job.totalPaid \|\| 0`: the amount paid, 0 when absent |
| PrintHtml.PrintPaidVersusSweep | src/utils/printHtml.ts:15-18 | the print view's "paid in full" is the archive sweep's payment rule plus "something was paid" |
| PrintHtml.ZeroTotalUnpaid | src/utils/printHtml.ts:15-18 | a job with no items and no payment counts as paid for the sweep but not in the print view |
| PrintHtml.DueDate | src/utils/printHtml.ts:19 | the estimated dispatch date when set and non-empty, the job date otherwise |
| JobTracking.DateRangeInclusive | src/screens/JobTrackingScreen.tsx:110-121 | with both bounds set, a job is kept exactly when its date lies between them, bounds included, in code-unit order |
| JobTracking.InDateRange | src/screens/JobTrackingScreen.tsx:110-121 | the date filter; no contract of its own, stated by JobTracking.DateRangeInclusive |
| JobTracking.SearchMatches | src/screens/JobTrackingScreen.tsx:84-98 | the search filter over id, name, phone, invoice and quote number; no contract of its own, used by JobTracking.FilterStagesCount and JobTracking.FilteredJobsSpec |
| JobTracking.FilterStagesCount | src/screens/JobTrackingScreen.tsx:78-124 | the filter stages keep every copy of a job meeting every filter (category, search, status, urgency, dates, not archived) and drop every other |
| JobTracking.KeyBeforeAsymmetric | src/screens/JobTrackingScreen.tsx:125-133 | the comparator never puts two jobs each before the other |
| JobTracking.KeyTies | src/screens/JobTrackingScreen.tsx:125-133 | two jobs the comparator cannot order have the same rank and date |
| JobTracking.KeyBeforeSplit | src/screens/JobTrackingScreen.tsx:125-133 | the comparator's order is negatively transitive, as a consistent sort comparator must be |
| JobTracking.InsertAtFront | src/screens/JobTrackingScreen.tsx:125-133 | a job not after the head of a sorted list may lead it |
| JobTracking.BehindHead | src/screens/JobTrackingScreen.tsx:125-133 | a head that no later job precedes keeps the list sorted |
| JobTracking.InsertSorted | src/screens/JobTrackingScreen.tsx:125-133 | insertion keeps the list sorted and adds exactly the one job |
| JobTracking.SortBySorted | src/screens/JobTrackingScreen.tsx:123-133 | the sort gives a sorted permutation of its input |
| JobTracking.InsertStable | src/screens/JobTrackingScreen.tsx:123-133 | insertion keeps jobs with equal keys in their order |
| JobTracking.SortByStable | src/screens/JobTrackingScreen.tsx:123-133 | the sort is stable, as `Array.prototype.sort` is |
| JobTracking.SortBy | src/screens/JobTrackingScreen.tsx:123-133 | the board's sort, an insertion sort; no contract of its own, stated by JobTracking.SortBySorted and JobTracking.SortByStable |
| JobTracking.FilteredJobsSpec | src/screens/JobTrackingScreen.tsx:78-134 | the board shows exactly the jobs meeting every filter, each as often as in the store, never an archived one, sorted by urgency rank and then latest date first |
| JobTracking.FilteredJobs | src/screens/JobTrackingScreen.tsx:78-134 | the board's list; no contract of its own, stated by JobTracking.FilteredJobsSpec and JobTracking.FilteredJobsStable |
| JobTracking.FilteredJobsStable | src/screens/JobTrackingScreen.tsx:123-133 | jobs with the same urgency and date keep their store order |
| JobTracking.BlankSearchKeepsAll | src/screens/JobTrackingScreen.tsx:79-84 | a blank search term normalises to the empty term, which switches the search filter off |
| JobTracking.FullyPaidAgreesWithPrint | src/screens/JobTrackingScreen.tsx:137-141 | the board's "fully paid" is the print view's "paid in full" |
| JobTracking.IsJobFullyPaid | src/screens/JobTrackingScreen.tsx:137-141 | the board's payment test; no contract of its own, stated by JobTracking.FullyPaidAgreesWithPrint |
| JobTracking.SectionsPartition | src/screens/JobTrackingScreen.tsx:143-158 | the active, paid-and-completed and deleted sections split the shown jobs: each job lands in exactly one, and together they hold every copy |
| JobTracking.AddPayment | src/screens/JobTrackingScreen.tsx:219-233 | the amount is added to what was paid and one record dated with today's day is appended to the history; nothing else changes |
| JobTracking.AddPaymentKeepsLedger | src/screens/JobTrackingScreen.tsx:219-233 | when the paid amount matched the history's sum before a payment, it still does after it |
| JobTracking.Toggle | src/screens/JobTrackingScreen.tsx:235-245 | the id's membership flips and every other id's is kept |
| JobTracking.ToggleTwice | src/screens/JobTrackingScreen.tsx:235-245 | toggling twice restores the selection |
| JobTracking.FindJob | src/screens/JobTrackingScreen.tsx:161 | `jobs.find`: none exactly when no job has the id; otherwise the first job with it |
| JobTracking.CompletionPrint | src/screens/JobTrackingScreen.tsx:160-170 | a print is made exactly when the job exists, the new status is 'complete' and the job was not complete, and it shows the job as complete |
| JobTracking.NoReprint | src/screens/JobTrackingScreen.tsx:160-170 | completing a job that is already complete prints nothing |
| Calendar.FirstDayOfWeek | src/screens/CalendarScreen.tsx:29-32 | the Monday-first column of a JavaScript weekday: always 0 to 6, and one step behind it modulo 7 (Sunday goes to 6) |
| Calendar.Pad2 | src/screens/CalendarScreen.tsx:35-36 | `padStart(2, '0')` of a number: only digits |
| Calendar.NatToStringLength | src/screens/CalendarScreen.tsx:34-37 | one, two and four digits for numbers of those sizes |
| Calendar.Pad2Value | src/screens/CalendarScreen.tsx:35-36 | a number below 100 pads to exactly two digits that read back as the number |
| Calendar.DigitsOrder | src/screens/CalendarScreen.tsx:34-37 | for digit strings of equal length, string order and equality are numeric order and equality |
| Calendar.KeyParts | src/screens/CalendarScreen.tsx:34-37 | a key for a valid date is four year digits, two month digits (month + 1) and two day digits, each reading back as its part |
| Calendar.KeyTextOrder | src/screens/CalendarScreen.tsx:34-37 | keys with fixed-width parts compare part by part |
| Calendar.KeyTextEqual | src/screens/CalendarScreen.tsx:34-37 | keys with fixed-width parts are equal only when their parts are |
| Calendar.DateKeyOrder | src/screens/CalendarScreen.tsx:34-37 | for four-digit years, string order of keys is date order, which the past-day test relies on |
| Calendar.DateKeyInjective | src/screens/CalendarScreen.tsx:34-37 | two valid dates have the same key exactly when they are the same date |
| Calendar.FormatDateKey | src/screens/CalendarScreen.tsx:34-38 | `YYYY-MM-DD` of a date; no contract of its own, stated by Calendar.DateKeyOrder and Calendar.DateKeyInjective |
| Calendar.CalendarCells | src/screens/CalendarScreen.tsx:179-194 | a whole number of weeks: blank cells before the first, one cell per day with its key, and fewer than a week of blanks after |
| Calendar.PaddedLength | src/screens/CalendarScreen.tsx:190-192 | the smallest multiple of 7 not below the count |
| Calendar.PrevMonth | src/screens/CalendarScreen.tsx:196-203 | one month back, January going to December of the year before |
| Calendar.NextMonth | src/screens/CalendarScreen.tsx:205-212 | one month on, December going to January of the next year |
| Calendar.MonthIndexInjective | src/screens/CalendarScreen.tsx:196-212 | a valid view is determined by its month count |
| Calendar.NavigationRoundTrip | src/screens/CalendarScreen.tsx:196-212 | next then previous, and previous then next, give the same month back |
| Calendar.NextBookingIdIsNew | src/screens/CalendarScreen.tsx:157-164 | the new id reads as a number above every readable id, deleted bookings included, is no booking's id, and is "0" when no id reads |
| Calendar.NextBookingId | src/screens/CalendarScreen.tsx:157-164 | the next booking id; no contract of its own, stated by Calendar.NextBookingIdIsNew |
| Calendar.BookingsByDate | src/screens/CalendarScreen.tsx:167-176 | each day's list is the non-deleted bookings of that day in their original order, and only days with bookings have an entry |
| Calendar.FindLive | src/screens/CalendarScreen.tsx:127 | `find`: the first booking in the list that has the id and is not deleted, absent only when there is none |
| Calendar.HandleDrop | src/screens/CalendarScreen.tsx:120-133 | nothing on a past day, for an unknown or deleted booking, or on the same day; otherwise the booking with the new date |
| Calendar.DropMovesOnlyDate | src/screens/CalendarScreen.tsx:120-133 | after the resulting update every booking with the dropped id becomes the found booking with the new date and a fresh `updatedAt`; every other booking is kept |
| Ids.MaxStep | src/screens/JobCreationScreen.tsx:19-25 | one reduce step: never below the running maximum, at least the id's number when it reads, and one of the two |
| Ids.MaxParsedId | src/screens/JobCreationScreen.tsx:19-25 | the largest number an id reads as, from -1; no contract of its own, stated by Ids.MaxParsedIdAbove, Ids.MaxParsedIdAtLeast and Ids.MaxParsedIdAttained |
| Ids.MaxParsedIdAbove | src/screens/JobCreationScreen.tsx:19-25 | the maximum is at least -1 and at least every number an id reads as |
| Ids.MaxParsedIdAtLeastInit | src/screens/JobCreationScreen.tsx:19-25 | the maximum never drops below the starting -1 |
| Ids.MaxParsedIdAtLeast | src/screens/JobCreationScreen.tsx:19-25 | every readable id's number is at most the maximum |
| Ids.MaxParsedIdAttained | src/screens/JobCreationScreen.tsx:19-25 | the maximum is -1 or the number of some id |
| Ids.NextId | src/screens/JobCreationScreen.tsx:18-27 | the next id is a non-empty string |
| Ids.NextIdOfNone | src/screens/JobCreationScreen.tsx:18-27 | when no id reads as a number the next id is "0" |
| Ids.NextIdIsNew | src/screens/JobCreationScreen.tsx:18-27 | the next id reads as a number above every readable id and is none of the ids |
| Ids.NextIdFresh | src/screens/QueriesScreen.tsx:81-101 | the same for the ids of any list: fresh, above every readable id, "0" for an empty list |
| Ids.NextJobIdIsNew | src/screens/JobCreationScreen.tsx:18-27 | the next job id is no job's id, is above every readable job id, and is "0" with no jobs |
| Ids.NextJobId | src/screens/JobCreationScreen.tsx:18-27 | the next job id; no contract of its own, stated by Ids.NextJobIdIsNew |
| Customers.CollectFirst | src/screens/JobCreationScreen.tsx:29-42 | the loop over candidates with a key map yields the first candidate of every non-blank key, in order |
| Customers.DedupStep | src/screens/JobCreationScreen.tsx:31-39 | a candidate is taken exactly when its key is non-blank and unseen, and its key is then seen |
| Customers.DedupKeysFresh | src/screens/JobCreationScreen.tsx:31-39 | every customer offered has a non-blank key not seen before |
| Customers.DedupKeysDistinct | src/screens/JobCreationScreen.tsx:29-42 | no two customers offered share a key |
| Customers.DedupKeepsFirst | src/screens/JobCreationScreen.tsx:29-42 | the first candidate with each non-blank unseen key is offered |
| Customers.DedupOnlyFirst | src/screens/JobCreationScreen.tsx:29-42 | only first candidates of their key are offered |
| Customers.Dedup | src/screens/JobCreationScreen.tsx:29-42 | the first customer of each non-blank key; no contract of its own, stated by Customers.DedupKeysDistinct, Customers.DedupKeepsFirst and Customers.DedupOnlyFirst |
| Customers.QueriesScreenCustomers | src/screens/QueriesScreen.tsx:32-55 | the jobs' customers, then the queries' (with a blank address), first of each trimmed lower-case name |
| Customers.JobCreationCustomers | src/screens/JobCreationScreen.tsx:29-42 | the jobs' customers, first of each trimmed lower-case name |
| Customers.JobsBeforeQueries | src/screens/QueriesScreen.tsx:32-55 | a job's customer whose name is first among the jobs is offered even when a query has the same name |
| Queries.ActiveDeletedPartition | src/screens/QueriesScreen.tsx:28-29 | every query sits in exactly one of the active and deleted lists, as often as it is stored, and each list holds only its own kind |
| Queries.ActiveQueries | src/screens/QueriesScreen.tsx:28 | the queries not deleted; no contract of its own, stated by Queries.ActiveDeletedPartition |
| Queries.FilteredQueriesSpec | src/screens/QueriesScreen.tsx:67-79 | the shown list holds every copy of a query of the chosen kind that the case-insensitive search over name, phone, id and description accepts, or all of that kind when the term is blank, and nothing else |
| Queries.FilteredQueries | src/screens/QueriesScreen.tsx:67-79 | the shown queries; no contract of its own, stated by Queries.FilteredQueriesSpec |
| Queries.NextQueryIdIsNew | src/screens/QueriesScreen.tsx:81-90 | the new query id reads as a number above every readable id, is no query's id, and is "0" for an empty list |
| Queries.NextQueryId | src/screens/QueriesScreen.tsx:81-90 | the next query id; no contract of its own, stated by Queries.NextQueryIdIsNew |
| Queries.QuickAdd | src/screens/QueriesScreen.tsx:103-117 | nothing is added exactly when the trimmed name or phone is blank; otherwise a query with the next id, the trimmed name and phone, the trimmed note or 'Phone query', no items and today's date |
| Queries.QuickAddIsNew | src/screens/QueriesScreen.tsx:103-119 | dispatching the quick-added query puts it, stamped, before the existing ones with an id none of them has |
| Queries.ToJobItems | src/screens/QueriesScreen.tsx:130-133 | one job item per query item, same description, price 0 |
| Queries.ConvertedJob | src/screens/QueriesScreen.tsx:129-147 | the job built from a query: next job id, chosen category, the query's customer, phone and description, blank address, 'Medium', 'not started', today's date, and the items at a zero total |
| Queries.ZeroPricedTotal | src/screens/QueriesScreen.tsx:130-133 | items that all cost 0 total 0 |
| Queries.ConvertToJobEffect | src/screens/QueriesScreen.tsx:129-150 | after the two dispatches the new job heads the job list with a fresh id and the rest unchanged, and the query keeps its place, soft-deleted |
| ExprTokens.Sanitize | src/components/JobEditModal.tsx:26 | only digits, '+', '-', '*' and '.' are left |
| ExprTokens.SanitizeSpec | src/components/JobEditModal.tsx:26 | every kept character stays as often as it appears, every other one goes, and a string of kept characters is unchanged |
| ExprTokens.DigitsEnd | src/components/JobEditModal.tsx:29 | the end of the run of digits from a position: all digits up to it, none at it |
| ExprTokens.NumberEnd | src/components/JobEditModal.tsx:29 | a number token starting at a digit is at least one character long |
| ExprTokens.TokensFrom | src/components/JobEditModal.tsx:29 | every operator token is '+', '-' or '*' |
| ExprTokens.Pow10 | src/components/JobEditModal.tsx:39 | a power of ten is at least 1 |
| ExprTokens.NumberValue | src/components/JobEditModal.tsx:39 | a number token's value is never negative |
| ExprTokens.Fraction | src/components/JobEditModal.tsx:39 | a fractional part is never negative |
| ExprTokens.Operand | src/components/JobEditModal.tsx:39 | an operand is never negative |
| ExprTokens.DigitValueOfOne | src/components/JobEditModal.tsx:39 | a one-digit token is worth its digit |
| ExprTokens.DigitStep | src/components/JobEditModal.tsx:29 | a single digit before an operator or the end is a number token of its own |
| ExprTokens.OperatorStep | src/components/JobEditModal.tsx:29 | an operator character is an operator token of its own |
| ExprTokens.TokensOfSample | src/components/JobEditModal.tsx:26-29 | helper for JobForm.CalculatorsDisagree: "2+3*4" sanitizes and tokenizes to 2, '+', 3, '*', 4 |
| ExprTokens.SampleTokens | src/components/JobEditModal.tsx:29 | helper for JobForm.CalculatorsDisagree: "2+3*4" tokenizes to 2, '+', 3, '*', 4 |
| JobEditModal.NumAdd | src/components/JobEditModal.tsx:57 | a sum is a number exactly when both sides are |
| JobEditModal.NumSub | src/components/JobEditModal.tsx:58 | a difference is a number exactly when both sides are |
| JobEditModal.NumMul | src/components/JobEditModal.tsx:47 | a product is a number exactly when both sides are |
| JobEditModal.Max0 | src/components/JobEditModal.tsx:61 | `Math.max(0, x)`: NaN for NaN, otherwise the larger of 0 and x |
| JobEditModal.NumsOf | src/components/JobEditModal.tsx:32-41 | the operand array holds only numbers |
| JobEditModal.OpsWithoutProducts | src/components/JobEditModal.tsx:32-41 | a stream without '*' tokens gives no '*' operator |
| JobEditModal.SplitLengths | src/components/JobEditModal.tsx:32-41 | every token goes to exactly one of the two arrays |
| JobEditModal.AlternatingCounts | src/components/JobEditModal.tsx:32-41 | in an alternating stream the number of operands in a prefix is fixed by its length |
| JobEditModal.WellFormedAlternates | src/components/JobEditModal.tsx:32-41 | a well-formed stream gives one more operand than operators |
| JobEditModal.LeadingOperatorCounts | src/components/JobEditModal.tsx:32-41 | a stream with a leading operator gives as many operands as operators and ends operator, number |
| JobEditModal.LastOperator | src/components/JobEditModal.tsx:32-41 | the last operator pushed is the one before the final number |
| JobEditModal.SplitSnoc | src/components/JobEditModal.tsx:32-41 | one more token extends exactly one of the two arrays |
| JobEditModal.PrecValueFinite | src/components/JobEditModal.tsx:43-61 | the precedence value of numbers is a number |
| JobEditModal.PrecValue | src/components/JobEditModal.tsx:43-61 | the usual-precedence value of an operand and operator stream; no contract of its own, stated by JobEditModal.PrecValueFinite and used by JobEditModal.EvaluateWellFormed |
| JobEditModal.CollapsePreserves | src/components/JobEditModal.tsx:46-48 | replacing a product's two operands by their product and dropping its '*' keeps the precedence value |
| JobEditModal.SpliceTwo | src/components/JobEditModal.tsx:47 | `nums.splice(i, 2, x)` puts x in place of the two operands |
| JobEditModal.MulPass | src/components/JobEditModal.tsx:43-52 | after pass 1 no '*' is left once none was before the start |
| JobEditModal.MulPassPreserves | src/components/JobEditModal.tsx:43-52 | pass 1 keeps one more operand than operators and keeps the precedence value |
| JobEditModal.MulPassWithoutProducts | src/components/JobEditModal.tsx:43-52 | pass 1 changes nothing when no '*' remains |
| JobEditModal.AddPassFolds | src/components/JobEditModal.tsx:54-59 | pass 2 from any point, started from the prefix's value, folds to the whole value of a product-free stream |
| JobEditModal.AddPassRunsOut | src/components/JobEditModal.tsx:54-59 | with no more operands than operators and a final '+' or '-', pass 2 reads past the operands and gives NaN |
| JobEditModal.EvaluateWellFormed | src/components/JobEditModal.tsx:25-65 | a well-formed expression evaluates to its usual-precedence value clamped at 0, a number never below 0 |
| JobEditModal.EvaluateLeadingSign | src/components/JobEditModal.tsx:25-65 | a leading '+' or '-' before a well-formed product-free expression gives NaN |
| JobEditModal.EvaluateMathExpression | src/components/JobEditModal.tsx:25-65 | the two-pass loop computes the evaluation: 0 for nothing left after sanitizing, the clamped precedence value for a well-formed expression, NaN after a leading sign |
| JobEditModal.Evaluate | src/components/JobEditModal.tsx:25-65 | the modal's calculator; no contract of its own, stated by JobEditModal.EvaluateMathExpression, JobEditModal.EvaluateWellFormed and JobEditModal.EvaluateLeadingSign |
| JobEditModal.PrecedenceSample | src/components/JobEditModal.tsx:43-59 | helper for JobForm.CalculatorsDisagree: 2 + 3 * 4 with precedence is 14 |
| JobEditModal.EvaluateSample | src/components/JobEditModal.tsx:25-65 | helper for JobForm.CalculatorsDisagree: "2+3*4" evaluates to 14 |
| JobEditModal.SampleOperands | src/components/JobEditModal.tsx:32-41 | helper for JobForm.CalculatorsDisagree: the sample's tokens split into 2, 3, 4 and '+', '*' |
| JobEditModal.SplitFive | src/components/JobEditModal.tsx:32-41 | five alternating tokens split into three operands and two operators |
| JobEditModal.OpenItems | src/components/JobEditModal.tsx:79 | the modal opens with the job's items, or one empty row when it has none |
| JobEditModal.OpenMeasurements | src/components/JobEditModal.tsx:80-82 | the modal opens with the job's measurement rows when it has some, and never with none |
| JobEditModal.OpenForm | src/components/JobEditModal.tsx:68-87 | the opened form has rows to edit, the optional numbers as text ('' when missing) and the paid total (0 when missing) |
| JobEditModal.NonEmpty | src/components/JobEditModal.tsx:153 | `s \|\| undefined`: absent exactly for the empty string |
| JobEditModal.TrimmedNumber | src/components/JobEditModal.tsx:148-149 | absent exactly when the text is blank, otherwise the trimmed text |
| JobEditModal.TrimmedNumberStable | src/components/JobEditModal.tsx:148-149 | a saved number saves back the same |
| JobEditModal.SavedItems | src/components/JobEditModal.tsx:133-155 | the rows with text or a positive price, or all rows when none has |
| JobEditModal.SavedMeasurements | src/components/JobEditModal.tsx:136-161 | kept only for Fabrication, as the non-blank rows or all rows when none is non-blank |
| JobEditModal.SavedAttachments | src/components/JobEditModal.tsx:162 | absent exactly when there are none |
| JobEditModal.SavedPayment | src/components/JobEditModal.tsx:163 | present exactly for a positive paid amount |
| JobEditModal.SaveJob | src/components/JobEditModal.tsx:132-165 | the saved job keeps the id, status, payment history, timestamps and deleted and archived flags; takes the edited details; drops a blank invoice or quote number and an unset due date; keeps measurements exactly for Fabrication, attachments only when any and a payment only when positive; and its importance is the urgency of the due date, or of the job date when there is none. A present number is the trimmed text, a present due date, attachment list or payment is the form's; the items are SavedItems of the form's items and the measurements SavedMeasurements of its rows |
| JobEditModal.SavedItemsSpec | src/components/JobEditModal.tsx:133-155 | when any row has text or a price, exactly those rows are saved, each as often as it appears; otherwise all rows are |
| JobEditModal.SavedItemsStable | src/components/JobEditModal.tsx:133-155 | reopening and saving again keeps the saved items |
| JobEditModal.SavedMeasurementsStable | src/components/JobEditModal.tsx:136-161 | reopening and saving again keeps the saved measurements |
| JobEditModal.SaveTwice | src/components/JobEditModal.tsx:68-165 | opening a saved job and saving it unchanged gives the same job |
| JobForm.OperandAt | src/components/JobForm.tsx:33 | an operand is never negative, 0 past the end |
| JobForm.Max0 | src/components/JobForm.tsx:38 | the larger of 0 and the result |
| JobForm.Evaluate | src/components/JobForm.tsx:24-42 | the form's calculator never gives a negative amount |
| JobForm.EvaluateMathExpression | src/components/JobForm.tsx:24-42 | the left-to-right loop computes the evaluation, never negative, and 0 when nothing is left after sanitizing |
| JobForm.FoldStep | src/components/JobForm.tsx:31-37 | one loop step applies an operator to the result and the next operand |
| JobForm.EvaluateSample | src/components/JobForm.tsx:24-42 | "2+3*4" evaluates left to right to 20 |
| JobForm.CalculatorsDisagree | src/components/JobForm.tsx:24-42 | the form and the edit modal give 20 and 14 for "2+3*4" |
| JobForm.FoldIsSum | src/components/JobForm.tsx:31-37 | with only '+' and '-' left, the loop is a signed sum |
| JobForm.FoldFrom | src/components/JobForm.tsx:31-37 | the left-to-right loop as a function; no contract of its own, stated by JobForm.FoldIsSum and JobForm.EvaluateMathExpression |
| JobForm.SumStep | src/components/JobForm.tsx:34-35 | a '+' adds, a '-' subtracts |
| JobForm.SumAgrees | src/components/JobForm.tsx:31-37 | the signed sum of a product-free stream equals the edit modal's precedence value |
| JobForm.SumInvariantStep | src/components/JobForm.tsx:31-37 | one '+' or '-' step keeps the sum equal to the prefix's precedence value |
| JobForm.PrefixStep | src/components/JobForm.tsx:31-37 | an operator and a number extend the prefix's two arrays by one each |
| JobForm.PrecStep | src/components/JobEditModal.tsx:54-59 | the precedence value with one more '+' or '-' term is the old value plus or minus it |
| JobForm.AgreesWithoutProducts | src/components/JobForm.tsx:24-42 | on a well-formed expression without '*' the two calculators agree |
| JobForm.DraftMeasurements | src/components/JobForm.tsx:168-190 | measurements are sent only for Fabrication with some non-blank row, and then are exactly the non-blank rows |
| JobForm.SubmitDraft | src/components/JobForm.tsx:161-193 | the draft carries the form's details, the numbers only when not blank and then trimmed, the due date only when set, the urgency of the due date or job date, the form's attachments only when any, the form's payment only when positive, the kept items only (no fallback) and DraftMeasurements of the rows |
| JobForm.DraftItems | src/components/JobForm.tsx:164-186 | only rows with text or a positive price are sent, each as often as it appears |
| JobForm.DraftMeasurementRows | src/components/JobForm.tsx:168-190 | measurements are sent exactly for Fabrication with some non-blank row, and every sent row is non-blank |
| JobForm.FindCustomer | src/components/JobForm.tsx:63-65 | a found customer is one of the list whose name matches the trimmed value, ignoring case |
| JobForm.FindCustomerFirst | src/components/JobForm.tsx:63-65 | nothing is found exactly when no name matches, and otherwise the first match is |
| JobForm.CustomerNameChange | src/components/JobForm.tsx:61-70 | the name becomes the value; phone and address change only to the found customer's non-empty ones, and are taken whenever non-empty; nothing else changes |
| JobCreation.JobCount | src/screens/JobCreationScreen.tsx:15 | the header count never exceeds the number of jobs |
| JobCreation.JobCountSplits | src/screens/JobCreationScreen.tsx:15 | the count and the deleted-or-archived jobs make up the whole list, and the count is 0 exactly when no job is live |
| JobCreation.JobCountCons | src/screens/JobCreationScreen.tsx:15 | one more job in front raises the count by one exactly when it is neither deleted nor archived |
| JobCreation.Submit | src/screens/JobCreationScreen.tsx:44-49 | the job has the next id, status 'not started', every field of the draft, and nothing else set |
| JobCreation.SubmitAddsNewJob | src/screens/JobCreationScreen.tsx:44-51 | after `addJob` the new job heads the list with a fresh id above every readable one, the other jobs follow unchanged, and the live count goes up by one |
| QueryForm.Blank | src/components/QueryForm.tsx:12-19 | the blank form has exactly one empty item row |
| QueryForm.ItemChange | src/components/QueryForm.tsx:21-32 | only the row at the index changes, to the new text; an index outside the list changes nothing |
| QueryForm.ItemChangeLaws | src/components/QueryForm.tsx:21-32 | writing a row's own text back changes nothing, a second write replaces the first, and an index outside the list is ignored |
| QueryForm.AddItem | src/components/QueryForm.tsx:34-36 | the rows followed by one new empty row |
| QueryForm.RemoveItem | src/components/QueryForm.tsx:38-40 | one row fewer exactly when the index is inside the list |
| QueryForm.RemoveItemOutside | src/components/QueryForm.tsx:38-40 | an index outside the list removes nothing |
| QueryForm.RemoveItemInside | src/components/QueryForm.tsx:38-40 | an index inside the list removes exactly that row, the others keeping their order |
| QueryForm.RemoveAddedItem | src/components/QueryForm.tsx:34-40 | adding a row and removing it gives the rows back |
| QueryForm.SubmittedItems | src/components/QueryForm.tsx:45-51 | never more rows than the form has |
| QueryForm.SubmittedItemsSpec | src/components/QueryForm.tsx:45-51 | when any row has text, exactly the rows with text are sent, each as often as it appears; when none has, all rows are sent as they are |
| QueryForm.Submit | src/components/QueryForm.tsx:42-59 | the draft carries the form's details, the submitted rows and today's date, and the form goes back to blank |
| QueryForm.SubmitBlank | src/components/QueryForm.tsx:42-58 | submitting the blank form sends its single empty row |
| Handbook.LoadDrawings | src/screens/HandbookFabricationScreen.tsx:14-22 | no drawings when the entry is missing, empty, unreadable or unparsable; otherwise the parsed list |
| Handbook.LastDot | src/screens/HandbookFabricationScreen.tsx:52 | the position of the last '.' in a name, absent only when there is none |
| Handbook.StripExtension | src/screens/HandbookFabricationScreen.tsx:52 | the name or a prefix of it, shorter only by a final '.' with at least one further character and no '.' after it |
| Handbook.StripExtensionOf | src/screens/HandbookFabricationScreen.tsx:52 | `base.ext` loses exactly `.ext`; a name with no '.' or ending in '.' is kept whole |
| Handbook.NewDrawings | src/screens/HandbookFabricationScreen.tsx:45-58 | one drawing per file read |
| Handbook.AddFiles | src/screens/HandbookFabricationScreen.tsx:41-68 | with no files or a failed read the list is unchanged; otherwise the new drawings, named after their files without extension and holding their data, come first and the old list follows |
| Handbook.RemoveDrawing | src/screens/HandbookFabricationScreen.tsx:70-71 | no drawing with the id is left |
| Handbook.RemoveDrawingKeeps | src/screens/HandbookFabricationScreen.tsx:70-71 | every drawing with another id stays as often as before, and an unknown id changes nothing |
| Handbook.PreviewAfterRemove | src/screens/HandbookFabricationScreen.tsx:72 | the preview is closed exactly when it showed the removed drawing, and otherwise kept |
| Handbook.CommitRename | src/screens/HandbookFabricationScreen.tsx:75-84 | without a rename or with a blank name the list is unchanged; otherwise the drawings with that id get the trimmed name and the rest are kept |
| Handbook.CommitRenameOnce | src/screens/HandbookFabricationScreen.tsx:75-84 | committing the same rename twice is committing it once, and a renamed drawing's name is never blank nor padded |
| MainProcess.SecondPiece | src/main.ts:15 | the second piece of a split on '=' holds no '=' |
| MainProcess.ProfileName | src/main.ts:10-17 | the profile is never empty; it is 'default' without a profile argument, and otherwise 'default' or a trimmed value taken from one |
| MainProcess.ProfileNameOf | src/main.ts:10-17 | the first `--profile=v` argument decides: the profile is v trimmed, or 'default' when v is blank, whatever follows a further '=' and whatever later arguments say |
| Settings.JobFields | src/screens/SettingsScreen.tsx:74-90 | one cell per header, a missing optional field giving '' |
| Settings.EscapeQuotes | src/screens/SettingsScreen.tsx:91 | doubling quotes never shortens a value |
| Settings.QuoteField | src/screens/SettingsScreen.tsx:91 | a cell is its escaped value between two quotes |
| Settings.ParseQuoted | src/screens/SettingsScreen.tsx:91 | reading a quoted value (the export's inverse, in the quoting of section 2 of RFC 4180) always consumes text |
| Settings.Prepend | src/screens/SettingsScreen.tsx:91 | a read value with one more character in front, failing only when the rest fails |
| Settings.ParseRecord | src/screens/SettingsScreen.tsx:87-94 | reading a record always consumes text |
| Settings.QuotedRoundTrip | src/screens/SettingsScreen.tsx:91 | an escaped value and its closing quote read back as the value, whatever follows that is not a quote |
| Settings.RecordLast | src/screens/SettingsScreen.tsx:91-93 | one quoted cell before a line end or the end reads back as that one value |
| Settings.RecordMore | src/screens/SettingsScreen.tsx:91-93 | a quoted cell, a comma and the rest of a record read back as the value before the rest's values |
| Settings.RecordTextCons | src/screens/SettingsScreen.tsx:87-94 | a record is its first cell, then a comma and the rest when there is more |
| Settings.RecordRoundTrip | src/screens/SettingsScreen.tsx:87-94 | every exported record reads back as exactly its values, however many quotes, commas or line feeds they hold |
| Settings.RowsLast | src/screens/SettingsScreen.tsx:95 | a last record reads back as a one-row list |
| Settings.RowsMore | src/screens/SettingsScreen.tsx:95 | a record, a line feed and further rows read back as the record's row before theirs |
| Settings.RowsRoundTrip | src/screens/SettingsScreen.tsx:95 | records joined by line feeds read back as the list of their values |
| Settings.RowsSingle | src/screens/SettingsScreen.tsx:95 | one record alone reads back as itself |
| Settings.RowsShift | src/screens/SettingsScreen.tsx:95 | records that each read back still do after the first is dropped |
| Settings.RowsCons | src/screens/SettingsScreen.tsx:95 | a readable first record in front of readable rows reads back as the longer list |
| Settings.JoinCons | src/screens/SettingsScreen.tsx:95 | joining several parts is the first, the separator, then the join of the rest |
| Settings.JobRowsReadBack | src/screens/SettingsScreen.tsx:87-94 | each job's line reads back as that job's cells |
| Settings.JoinAvoids | src/screens/SettingsScreen.tsx:95 | joining parts and a separator free of a character gives a text free of it |
| Settings.SplitJoin | src/screens/SettingsScreen.tsx:95 | splitting joined parts that avoid the separator gives the parts back |
| Settings.FirstLineOf | src/screens/SettingsScreen.tsx:95 | the text before the first line feed is the header line, the rest the body |
| Settings.HeadersArePlain | src/screens/SettingsScreen.tsx:74-86 | no header holds a comma, line feed or quote |
| Settings.ExportRoundTrip | src/screens/SettingsScreen.tsx:73-95 | the export reads back as the headers and, for each job in order, its cells, one per header |
| Settings.ExportCsv | src/screens/SettingsScreen.tsx:73-95 | the export text; no contract of its own, stated by Settings.ExportRoundTrip and Settings.HeaderLine |
| Settings.HeaderLine | src/screens/SettingsScreen.tsx:95 | the header line holds no line feed and splits back into the headers |
| Settings.ImportJson | src/screens/SettingsScreen.tsx:105-127 | an alert exactly when the text does not parse or is not an array; the jobs are replaced exactly when it is an array and the user confirms, by that array |
| Settings.SyncLabelsDistinct | src/screens/SettingsScreen.tsx:129-137 | each sync state has its own label and its own class, and only idle has no class |
| Settings.SyncStateLabel | src/screens/SettingsScreen.tsx:129-132 | the status label; no contract of its own, stated by Settings.SyncLabelsDistinct |
| Settings.SyncStateClass | src/screens/SettingsScreen.tsx:134-137 | the status class; no contract of its own, stated by Settings.SyncLabelsDistinct |

## Left out

- Network I/O is not modelled. This covers the remote-database client, its queries, upserts and realtime channels. Their replies are parameters of the download, upload and refresh operations, and `src/supabaseClient.ts` is not part of this model.
- Timers are not modelled: the debounce and interval timers of the store and of the remote-database sync. The engine keeps a "push pending" flag instead, so timer cancellation and event-loop interleavings are not captured.
- Storage I/O is not modelled: browser storage, the jobs file and its IPC bridge (`src/utils/ipc.ts`, `src/preload.ts`), and the settings context. What a read returns is a parameter, and a failed read or parse is an absent value. Writes are not modelled.
- The Electron main process is not modelled beyond the choice of profile. That leaves out windows, printing to PDF, temporary files and auto-update.
- React rendering and the DOM are not modelled: lists, navigation, toasts, dialogs, the downloads made through object URLs, and the HTML template of the print sheet.
- These screens and components are not part of this model:
  - `ArchivedJobsScreen.tsx` and `HandbookRepairScreen.tsx`;
  - `BearingSearchScreen.tsx`;
  - `JobList.tsx`, `QueryList.tsx` and `JobStatus.tsx`.
- Other calendar and queries features are not modelled: the calendar's booking modal and its submit, and the queries screen's own name look-up. The name look-up is modelled once, for the job form.
- Clock and randomness are parameters:
  - `Date.now()`, `new Date().toISOString()` and today's date;
  - `Math.random()`, used for audit ids, the client id and drawing ids.
- Dates are not modelled:
  - `Date.parse` and `new Date(string)` are parameters;
  - the calendar's weekday of the first of the month and its number of days are parameters;
  - so are the start-of-day instants behind a day count.
- Floating point is not modelled. Amounts are exact reals: rounding, `toFixed` and `formatCurrency` are left out, and `parseFloat` of a number token is its exact decimal value.
- `Base.Lower`, `Base.LowerChar`, `Base.UpperChar`: case mapping covers the ASCII letters A-Z and a-z only. `toLowerCase` and `toUpperCase` map every Unicode letter, and can change the length of a string (the lower case of 'İ' is two characters). This affects the search of the job board and the queries screen, the customer keys and name look-ups, and `Formatters.FormatStatus`.
- `Base.IsSpace`, `Base.Trim`: white space is the full set `trim` removes (the Unicode space separators, tab, vertical tab, form feed, the byte-order mark and the four line terminators). The set is fixed at the space separators of current Unicode versions, where JavaScript engines follow their own Unicode version.
- `JobTracking.KeyBefore`, `JobTracking.FilteredJobsSpec`: the sort's date tie-break compares the two dates in code-unit order. `localeCompare` uses the locale's collation instead. The two orders agree on `YYYY-MM-DD` dates made of ASCII digits, which is what the job form stores; for other date text the modelled order may differ from the browser's.
- `btoa`, `atob` and the screen-size part of the machine key are not modelled. `btoa` and `atob` are parameters that may fail; only the XOR and the key's shape are modelled.
- `Base.SpreadFields`, `Base.CharValues`: a spread string is split one character per key. JavaScript splits it per UTF-16 code unit, so a character outside the Basic Multilingual Plane gives one key here and two in the browser. Objects are maps, so the order of their properties is not modelled.
- `JobReducer.Reduce`, `QueryReducer.Reduce`, `BookingReducer.Reduce`: an update's payload is treated as a whole record. The object spread merges only the properties present, and property presence is not modelled.
- Unchecked casts are not modelled:
  - enumerated fields (status, category, importance, audit action) are plain strings, so any string a cast lets through can be represented;
  - a JSON or database cell of the wrong type decodes to the field's default;
  - the cast of an imported array to jobs is not modelled (`Settings.ImportJson` hands back the array as parsed);
  - the cast of stored drawings is not modelled (`Handbook.LoadDrawings` takes the parser's typed result).
- The CSV export's `job[key]` is not modelled as a look-up. It is written as the list of the eleven fields in header order, with `?? ''` applied to the optional ones. Numbers in the CSV are not rendered, because all eleven exported fields are text.
- `JobEditModal.EvaluateLeadingSign`: the NaN result is proved only for a leading sign followed by a product-free expression. With a '*' after a leading sign, pass 1 multiplies misaligned operands and the result is not characterised.
- `JobEditModal.EvaluateWellFormed`: proved for well-formed token streams only. Other malformed streams, such as two operators in a row or a trailing operator, are evaluated by the model but not characterised.
- `JobForm.AgreesWithoutProducts`: the two calculators are shown to agree on well-formed expressions without '*'. Where they differ, only the sample `2+3*4` is proved (`JobForm.CalculatorsDisagree`).
- `Handbook.NewDrawings`: its contract states only the count. The per-drawing name and data are stated by `Handbook.AddFiles`, which is what the screen uses.
