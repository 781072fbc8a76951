# HeryJs, verified in part

This project models the stateful core of HeryJs in Dafny and proves what that core is
for. The audit log comes first: a per-tenant hash chain that concurrent transactions append
to, that erasures redact in place, that verifications and exports walk page by page, and
that streamers hand to sinks range by range. Around it stand smaller cores whose behaviour
is a loop, a protocol or a transformation: the lexer that reads source text for log calls,
the dev dashboard's recorder and its pruning, tenant purging, optimistic concurrency and
workflow in the snippet service, the login throttle, the `git cat-file --batch` reader, and
backup naming and retention.

`dafny verify dfyconfig.toml` checks everything.

## How the audit log is put together

* `JsValues`, `JsonText` and `CanonicalJson` say what `canonicalJson` writes and why one
  text means one data.
* `AuditEntries` holds an entry and what a chain of entries is. It takes the hashing as a
  value, `Hashing`, and relies on three facts about it. `AuditChain.SealedIsOk` proves them
  of canonical JSON with any digest function to 64 hex digits. A digest is a parameter
  everywhere; it is never assumed injective, since no function into 64 digits is. So tamper
  evidence (`TamperEvidence`) names the two entries whose texts would have to collide.
* `AuditTable` is the table as readers see it: committed rows, in the order they became
  visible. Each database statement reads the rows committed when it runs.
* `AuditWriters` is a machine of writer transactions (lock, read the tail, append, any
  number of times, then commit or roll back) and of redactions (one row update each). Its
  guarantee to everyone else is `Evolves`: rows stay, but for redacted data, and new rows of
  a tenant lie above all it had.
* `AuditErasure` is a machine of redactors over that one: they read batches and update row
  by row while transactions append and other redactors take the same rows.
* `AuditReaders`, `AuditStream` and `AuditDelivery` rely on nothing else of the log than
  `Evolves`. `AuditSystem` puts all of them into one machine and proves the results over
  every run.
* `AuditSealed` says what canonical JSON makes of all this: markers that name the payload they
  replace, and exports that can be checked without the log.
* `AuditDatabase` is the same services as a class that changes its tables in place, one
  caller at a time; its writes, batches and redactions are shown to be runs of the machine.

Times, clocks and what a transport throws are parameters. The digest, the lock key of a
tenant and the text of a time are functions the results hold for whatever they are.

## Where the code and its documentation part

* `canonicalJson` drops a member named `__proto__`, because it assigns it onto a plain
  object: two different data then share a hash (`CanonicalJson.ProtoMemberIsInvisible`).
  Without such keys the text decides the data (`CanonicalJson.CanonicalIffSameData`).
* A transition checks its guard on the record its caller holds. A summary emptied since does
  not stop a publish (`Snippet.PublishLandsUnguarded`); exactly when that happens is
  `Snippet.UnguardedExactly`, and of versions only the one that was read excludes it
  (`Snippet.LaterVersionsMayBeUnguarded`).
* The comment on transitions says two callers firing from one state cannot both succeed. They
  can, once the state has come back in between (`Snippet.BothReadersMove`), and only then
  (`Snippet.SecondMoveNeedsReturn`, `Snippet.LandsExactly`).
* `restore` with fields writes without a version check and can wipe out an update
  (`Snippet.RestoreOverwritesUnseen`); exactly at the version read it cannot
  (`Snippet.SeenExactlyAtSameVersion`).
* A call of `recordFailure` cut off before its EXPIRE may leave a counter that never expires
  (`LoginThrottle.CutCallLeavesNoExpiry`), and one cut off before its DEL a full one
  (`LoginThrottle.CutCallLeavesFull`); exactly when is `LoginThrottle.AtRestExactly`.
* TTL answers in whole seconds, to the nearest, so the last half second of a lock no longer
  refuses (`LoginThrottle.LockEndsEarly`), and all of it before does
  (`LoginThrottle.WaitIsBounded`).
* Parentheses in strings count, so a log call's arguments may be taken to end in one, and what
  follows is never looked at; a call that is never closed loses the last unit of its text
  (`StripStrings.ParenInStringEndsCall`). Exactly when the arguments are taken whole is
  `StripStrings.ArgumentsExactly`.
* A literal question mark in a statement renders as a placeholder does, so two different
  statements may be grouped (`SqlFingerprint.MarkLooksBound`); exactly which are is
  `SqlFingerprint.GroupedExactly`.
* An object git does not have ends the reading loop without a word, the rest unread
  (`CatFileBatch.MissingHidesNext`); which ids that leaves without a digest is
  `CatFileBatch.MappedExactly`.
* A dump made by a clock that runs behind may be removed at once
  (`DatabaseBackup.LateDumpGoes`); exactly when is `DatabaseBackup.KeptUnlessOld`. A failed dump
  removes a dump of the same second (`DatabaseBackup.FailedDumpTakesTwin`), those being the
  ones with its name (`DatabaseBackup.SameSecondSameName`).
* A database URL that names no database lists, and so prunes, the dumps of every database
  (`DatabaseBackup.NamelessTakesOthers`).
* Rows tied with the oldest kept one all survive pruning, so a tenant may keep more than the
  cap (`DashboardPrune.TiedRowsOutliveCap`), and does exactly when there are such rows
  (`DashboardPrune.OverCapExactlyWhenTied`).
* A redactor counts rows another one redacted after it had read them
  (`AuditErasure.BothCount`); its count is the rows it newly redacted exactly when there were
  none (`AuditErasure.FinishedErasedExactly`).

## Model

| member | source | states |
|---|---|---|
| JsonText.Readable | src/technical/audit/canonical-json.ts:1-3 | The text JSON.stringify writes is uniquely readable: two trees whose texts start alike up to a delimiter are the same tree and leave the same rest |
| JsonText.PrintInjective | src/technical/audit/canonical-json.ts:1-3 | Two JSON trees with one text are one tree |
| JsonText.PrintPaired | src/technical/audit/canonical-json.ts:1-3 | Surrogates in the text come in pairs, lone ones being escaped, so the bytes hashed decode to the text |
| JsonText.LiteralsPrint | src/technical/audit/canonical-json.ts:1-3 | null, true and false print as RFC 8259 names them |
| CanonicalJson.CanonicalIffSameMeaning | src/technical/audit/canonical-json.ts:1-24 | Two JavaScript values have one canonical text exactly when they are the same JSON data up to key order at every depth, `__proto__` members aside |
| CanonicalJson.CanonicalIffSameData | src/technical/audit/canonical-json.ts:1-24 | Without `__proto__` keys: one canonical text if and only if one JSON data, at every depth |
| CanonicalJson.ProtoMemberIsInvisible | src/technical/audit/canonical-json.ts:15-20 | The exception, by example: a `__proto__` member changes the data and not the canonical text, because it is assigned onto a plain object |
| CanonicalJson.CanonicalSurvivesStorage | src/technical/audit/canonical-json.ts:5-12 | A value with Dates and undefined members has the canonical text of any value its JSON column may give back, in any key order |
| CanonicalJson.CanonicalReads | src/technical/audit/canonical-json.ts:1-24 | By example: {b: [true, null], a: "x"} is hashed as {"a":"x","b":[true,null]} |
| AuditChain.CanonicalPayloadDecides | src/technical/audit/audit-log.ts:40-50 | The canonical text of an entry payload gives back tenant, model, operation, record, user, impersonator and the meaning of the data |
| AuditChain.HashInputDecodes | src/technical/audit/audit-log.ts:52-59 | The hashed text, an empty or 64-digit hash and then canonical JSON, decodes one way only |
| AuditChain.StoringKeepsHash | src/technical/audit/audit-log.ts:88-103 | An entry read back from its JSON column hashes as it did when it was written |
| AuditChain.RedactedDataIsRecognised | src/technical/audit/audit-redaction.ts:29-51 | What a redaction writes is what the verifier recognises as redacted |
| AuditChain.MarkerNamesPayload | src/technical/audit/audit-redaction.ts:22-34 | A marker names the payload it replaces: data of one meaning have one marker, and data that share a marker have one meaning or make a collision of the digest |
| AuditChain.RecognisedIsMarker | src/technical/audit/audit-redaction.ts:36-51 | Whatever passes the shape test is, as JSON data, {"redacted": true, "digest": 64 hex digits} and no more |
| AuditChain.MarkerIsRecognised | src/technical/audit/audit-redaction.ts:36-51 | And parsed JSON that is such a marker passes it |
| AuditChain.AcceptsExactly | src/technical/audit/audit.service.ts:140-177 | An entry is accepted exactly if it names its predecessor's hash and is a marker, if redacted, or else has the hash of its own payload |
| AuditChain.ValidExactly | src/technical/audit/audit.service.ts:132-177 | verify answers valid exactly when that holds of every entry; one marked redacted that still holds a payload, or one altered, makes it answer broken, no later than there |
| AuditChain.SealedIsOk | src/technical/audit/audit-log.ts:54-59 | Canonical JSON and any digest to 64 hex digits give the chain all it relies on: storage keeps hashes, redactions are recognised |
| AuditChain.CoveredIsOk | src/technical/audit/audit-log.ts:54-59 | Equal covering texts mean equal predecessor hashes and equal payloads, for canonical JSON as it is |
| AuditChain.HeadHashDecidesPayloads | src/technical/audit/audit.service.ts:132-177 | Two unredacted chains the verifier accepts with one head hash have the same length and payloads in the same order, or two named entries are a collision of the digest |
| TamperEvidence.SuffixAgrees | src/technical/audit/audit.service.ts:144-177 | With redactions: accepted chains with one head hash agree, from the end, on every entry after the last redacted one, or name a collision |
| TamperEvidence.HeadHashDecidesChain | src/technical/audit/audit.service.ts:132-177 | The same for whole chains, for any hashing whose covering texts decode one way |
| AuditEntries.ChainExtends | src/technical/audit/audit.service.ts:132-177 | An accepted chain extended by one entry is accepted exactly if that entry names the last hash and passes its own test |
| AuditTable.PageIsNext | src/technical/audit/audit.service.ts:117-121 | The page a keyset query returns is what comes next in sequence order, on a table in any order |
| AuditTable.BySequenceSorts | src/technical/audit/audit.service.ts:119-120 | Rows with distinct sequences come back strictly ascending |
| AuditTable.BySequenceKeeps | src/technical/audit/audit.service.ts:119-120 | Ordering loses no row and makes none up |
| AuditTable.NumbersGrow | src/technical/audit/audit-log.ts:69-104 | While rows stay and others are appended, a tenant's sequence numbers only grow at the end |
| AuditReaders.CheckEntries | src/technical/audit/audit.service.ts:132-178 | The inner loop equals the page-wise specification of it |
| AuditReaders.Verify | src/technical/audit/audit.service.ts:111-180 | With any page size, on a table in any state, the answer is the one-pass verdict: checked counts the entries before the first that fails its link, redaction shape or hash, and that one is named |
| AuditReaders.TurnOverLiveLog | src/technical/audit/audit.service.ts:111-180 | One page over a log that moves: the walk goes on, or answers valid for exactly the chain as it stands |
| AuditReaders.WalkStays | src/technical/audit/audit.service.ts:111-180 | Appends and redactions between two pages leave a walk where it stands |
| AuditReaders.ExportBatches | src/technical/audit/audit.service.ts:62-83 | The batches, end to end, are exactly the filtered entries in chain order, each batch non-empty and within its size |
| AuditReaders.ExportedExactly | src/technical/audit/audit-filter.ts:45-67 | An export is strictly ascending and holds an entry if and only if it is of the tenant, matches the filter and is numbered above 0 |
| AuditReaders.BatchOverLiveLog | src/technical/audit/audit.service.ts:62-83 | One batch over a log that moves: the next matching entries, or all of them had been yielded |
| AuditReaders.ExportStays | src/technical/audit/audit.service.ts:62-83 | What an export yielded stays a prefix of the selection while the log moves, save for data redacted since |
| AuditWriters.NewRowAccepted | src/technical/audit/audit-log.ts:88-103 | The row a writer inserts is one the verifier accepts after the tail it read |
| AuditWriters.VisibleTailIsLast | src/technical/audit/audit-log.ts:83-88 | The tail a writer reads under the lock is the last of its tenant's visible rows, its own among them |
| AuditWriters.AppendKeepsInv | src/technical/audit/audit-log.ts:91-103 | An append keeps every chain, the order rows become visible in, and the other writers undisturbed |
| AuditWriters.CommitKeepsInv | src/technical/audit/audit-log.ts:106-110 | A commit, of any number of appends, keeps the chains of all tenants and what other writers under way have read |
| AuditWriters.RedactedStillAccepted | src/technical/audit/audit-redaction.ts:83-88 | A redacted entry is accepted wherever the entry was, at any later time |
| AuditWriters.RedactKeepsInv | src/technical/audit/audit-redaction.ts:83-88 | One entry update keeps every chain, in the middle of any batch and of any writer |
| AuditWriters.StepKeepsInv | src/technical/audit/audit-log.ts:69-110 | Every step of any number of writers and redactors, commit or rollback, keeps one unforked chain per tenant and its visibility order |
| AuditWriters.StepEvolves | src/technical/audit/audit-log.ts:69-110 | The guarantee to readers: rows stay, save for redacted data, and new rows appear above all rows of their tenant |
| AuditStream.PageIsSegment | src/technical/audit/audit-stream.service.ts:70-77 | What is read above a cursor is the stretch of the log that follows it, at most 500 entries |
| AuditStream.TiledStagesOnce | src/technical/audit/audit-stream.service.ts:83-106 | A number of the log lies in exactly one staged range if it is between the cursors, else in none |
| AuditStream.TiledAscends | src/technical/audit/audit-stream.service.ts:92-106 | Staged ranges ascend and never overlap |
| AuditStream.TiledCovers | src/technical/audit/audit-stream.service.ts:92-106 | The ranges, end to end, are the numbers between the cursors, each once, in order |
| AuditStream.SwapKeepsOk | src/technical/audit/audit-stream.service.ts:83-90 | The compare-and-swap: a batch goes on exactly if its sink still has the cursor it read, and then alone; a lost one is over with nothing moved and nothing staged |
| AuditStream.CommitBatchKeepsOk | src/technical/audit/audit-stream.service.ts:83-107 | Cursor and outbox row appear together, and the ranges go on tiling the log |
| AuditStream.StreamStepKeepsOk | src/technical/audit/audit-stream.service.ts:62-109 | Every step of any number of streamers, sink creation, removal, deactivation and reactivation keeps every sink tiled |
| AuditStream.StreamsStay | src/technical/audit/audit-stream.service.ts:24-26 | Whatever writers and redactors do, no streamer's reading and no staged range becomes wrong |
| AuditStream.SinkExactlyOnce | src/technical/audit/audit-stream.service.ts:62-109 | Each entry between starting cursor and cursor is in exactly one range, ranges ascend, hold 1 to 500 entries, and cover exactly those entries |
| AuditStream.InactiveStagesNothing | src/technical/audit/audit-stream.service.ts:62-68 | While a sink is inactive and no batch of it under way, none begins, nothing is staged and its cursor stays |
| AuditStream.StartSplits | src/technical/audit/audit-sink.service.ts:232-239 | A sink created without backfill starts exactly between the entries visible then and all later ones |
| StorageKeys.PadOrders | src/technical/audit/audit-sink.delivery.ts:57-62 | Below 10^12 a padded number decides the number, and text order is number order |
| StorageKeys.PadBreaksAtLimit | src/technical/audit/audit-sink.delivery.ts:59 | The bound is sharp: 10^12 sorts before the number below it |
| StorageKeys.KeyDecidesRange | src/technical/audit/audit-sink.delivery.ts:57-62 | A key decides its range, whatever the prefixes and tenants on either side |
| StorageKeys.KeysOrder | src/technical/audit/audit-sink.delivery.ts:57-62 | In one folder keys sort as their ranges do |
| StorageKeys.FoldersExactly | src/technical/audit/audit-sink.delivery.ts:57-62 | Two folders are one exactly if they are the same tenant's and their prefixes differ in trailing slashes alone, where tenants' ids hold no slash |
| StorageKeys.TrailingSlash | src/technical/audit/audit-sink.delivery.ts:58 | Slashes at the end of a prefix make no other folder |
| StorageKeys.KeyReads | src/technical/audit/audit-sink.delivery.ts:57-62 | By example: siem/audit/ and tenant-1 give siem/audit/tenant-1/000000000004-000000000005.jsonl |
| AuditDelivery.SameKeySameRange | src/technical/audit/audit-sink.delivery.ts:99-112 | Two staged ranges share a key only if they are the same stretch of the same tenant's log |
| AuditDelivery.ProbeApart | src/technical/audit/audit-sink.service.ts:195-212 | A probe's object is never a range's object |
| AuditDelivery.HoldsStays | src/technical/audit/audit-sink.handler.ts:60-63 | A delivered object goes on holding exactly its range, save for data redacted since, whatever is appended |
| AuditDelivery.PutKeepsStore | src/technical/audit/audit-sink.delivery.ts:99-112 | Overwriting an object, again or for another sink, leaves under every key exactly the range it names |
| AuditDelivery.DeliveryStepKeepsOk | src/technical/audit/audit-sink.handler.ts:40-89 | Every step of deliveries in any order, repeated or cut off anywhere, keeps that, and a finished one leaves its object unless its sink is gone |
| AuditDelivery.DeliveredExactly | src/technical/audit/audit-sink.handler.ts:40-89 | Once every staged message of a sink was delivered, its objects in key order give each sequence from starting cursor to cursor, once, in order |
| AuditDelivery.FolderReadsBack | src/technical/audit/audit-sink.delivery.ts:57-62 | The same of all objects directly in the sink's folder, whoever stored them, if no other sink that was sent anything has that folder |
| AuditDelivery.FolderHoldsOwn | src/technical/audit/audit-sink.delivery.ts:57-62 | Everything in such a folder is one of the sink's ranges, or its probe |
| AuditSystem.StepKeepsInv | src/technical/audit/audit-stream.service.ts:18-31 | Every interleaved step of writers, redactors, streamers, deliveries, verifications and exports keeps all invariants, and the log evolves upwards |
| AuditSystem.AlwaysOneChain | src/technical/audit/audit-log.ts:69-104 | At every point of every run a tenant's committed entries form one chain from the genesis hash |
| AuditSystem.AlwaysInSequenceOrder | src/technical/audit/audit-log.ts:83-86 | At every point of every run sequence order is the order entries became visible in |
| AuditSystem.NothingAppearsBelow | src/technical/audit/audit-stream.service.ts:24-26 | In every run, between any two points, entries of a tenant appear only above those it had |
| AuditSystem.VerifyAlwaysValid | src/technical/audit/audit.service.ts:111-180 | In every run, half-done redactions included, verify makes progress and answers valid for exactly the chain at its last page, with its length and head hash |
| AuditSystem.VerifyNeverBroken | src/technical/audit/audit.service.ts:111-180 | An answer stays right for the entries it counted, and counts at least those there when it began |
| AuditSystem.ExportAlwaysComplete | src/technical/audit/audit.service.ts:62-83 | In every run an export makes progress and ends with every matching entry there is at its last page, in order |
| AuditSystem.AlwaysStagedOnce | src/technical/audit/audit-stream.service.ts:18-31 | In every run nothing is skipped and nothing staged twice, for every sink |
| AuditSystem.AlwaysReadBack | src/technical/audit/audit-sink.delivery.ts:33-39 | In every run, once its messages were delivered, a storage sink reads back as exactly the staged entries |
| AuditSystem.AlwaysReadFolder | src/technical/audit/audit-sink.delivery.ts:33-39 | In every run, so does its whole folder, if the sink has it to itself |
| AuditSystem.AlwaysErasedExactly | src/technical/audit/audit-redaction.ts:63-124 | In every run, among any other redactors and writers, a finished redactor left no row in scope unredacted that was there when it began, and its count is the rows it newly redacted exactly when no other took one it had read |
| AuditErasure.UpdateIsRedaction | src/technical/audit/audit-redaction.ts:83-88 | An update made from data read earlier is one redaction of the row as it is, another redactor's work on it included |
| AuditErasure.ErasureStepKeepsOk | src/technical/audit/audit-redaction.ts:63-124 | Every statement of any number of redactors keeps what each has read, done and counted |
| AuditErasure.FinishedErasedExactly | src/technical/audit/audit-redaction.ts:63-124 | What a finished redactor did: nothing it found in scope is left, nothing else touched, each row read counted once |
| AuditErasure.BothCount | src/technical/audit/audit-redaction.ts:69-91 | By example: two redactors that read one row both count it, and one of them newly redacts it |
| AuditErasure.ReadMakesProgress | src/technical/audit/audit-redaction.ts:69-81 | Every batch reads rows never read before, so a redactor reads at most once per row |
| AuditErasure.PartEndsClean | src/technical/audit/audit-redaction.ts:78-80 | A redactor leaves a chunk exactly when no row of it is left to redact, rows appended meanwhile included |
| AuditRedaction.OneFewerPending | src/technical/audit/audit-redaction.ts:83-90 | Redacting one row in scope leaves exactly one fewer to redact |
| AuditRedaction.PendingBySequence | src/technical/audit/audit-redaction.ts:70-75 | The rows still to redact come in sequence order |
| AuditRedaction.PartsJoin | src/technical/audit/audit-redaction.ts:116-121 | Redacting chunk after chunk redacts exactly what the whole scope covers and nothing else |
| AuditRedaction.CountsJoin | src/technical/audit/audit-redaction.ts:114-123 | The counts of the chunks add up to the rows newly redacted, ids given twice or not |
| AuditDatabase.Chunked | src/technical/audit/audit-redaction.ts:53-61 | The chunks are the items in order, none lost or repeated, every chunk but the last full |
| AuditDatabase.AppendIsRun | src/technical/audit/audit-log.ts:106-111 | A write by a transaction of its own is five steps of the concurrent machine |
| AuditDatabase.AuditDatabase.WriteAuditLog | src/technical/audit/audit-log.ts:69-104 | Appends one row, linked to the tail and accepted by the verifier, and changes nothing else; refuses it once the sequence is used up |
| AuditDatabase.AuditDatabase.CreateSink | src/technical/audit/audit-sink.service.ts:99-134 | A new sink has seen everything there is, or with backfill nothing, and leaves the others as they are |
| AuditDatabase.AuditDatabase.SetSinkActive | src/technical/audit/audit-sink.service.ts:136-182 | Deactivating and reactivating moves no cursor |
| AuditDatabase.AuditDatabase.RemoveSink | src/technical/audit/audit-sink.service.ts:184-188 | What was staged for a removed sink has nowhere to go |
| AuditDatabase.AuditDatabase.StageNextBatch | src/technical/audit/audit-stream.service.ts:62-109 | Stages exactly when the sink is active and has unseen entries: the next 500 of them, or all, with the cursor on the last |
| AuditDatabase.AuditDatabase.StreamSink | src/technical/audit/audit-stream.service.ts:48-60 | Stages the number of batches the backlog needs, at most ten, and leaves the backlog that many batches shorter |
| AuditDatabase.AuditDatabase.RedactMatching | src/technical/audit/audit-redaction.ts:63-92 | Terminates; every row in scope is redacted, none other touched, and the count is how many were not before |
| AuditDatabase.AuditDatabase.RedactAuditEntries | src/technical/audit/audit-redaction.ts:100-124 | The same over chunked record ids, empty models and absent ids included |
| AuditSealed.ErasedExactly | src/technical/audit/audit-redaction.ts:63-124 | Exactly the entries of that tenant, those models and, if given, those record ids end up redacted; no other is touched |
| AuditSealed.ErasedNamesPayload | src/technical/audit/audit-redaction.ts:22-34 | What an erasure leaves in a row proves later that a payload is the one that was there, unless it makes a collision with it |
| AuditSealed.ErasedKeepsRest | src/technical/audit/audit-redaction.ts:94-99 | Hash, links, actor and time of a redacted row are as they were |
| AuditDatabase.AuditDatabase.VerifyTenant | src/technical/audit/audit.service.ts:111-180 | verify answers valid, with the count of entries and the last hash, on whatever the other methods left behind |
| AuditDatabase.AuditDatabase.Handle | src/technical/audit/audit-sink.handler.ts:40-89 | A gone sink is a finished delivery; a failure is recorded, cut to length, and rethrown; a success stores the range and clears the error |
| AuditFormat.CsvReadsBack | src/technical/audit/audit-format.ts:65-82 | A reader after RFC 4180, section 2, gets back the column names and one row of eleven neutralised texts per entry, whatever the values contain |
| AuditSealed.RecordHoldsEntry | src/technical/audit/audit-format.ts:49-63 | A record holds under its own name every field the hash covers, and the sequence, the time and both hashes |
| AuditSealed.CellUnderColumn | src/technical/audit/audit-format.ts:65-82 | In a CSV export the cell under a column is the field of that name, of the row's entry |
| AuditSealed.MemberOfLine | src/technical/audit/audit-format.ts:77-78 | In a JSON lines export an entry's line is an object with that member |
| AuditSealed.ExportRehashes | src/technical/audit/audit-format.ts:44-48 | Whoever parses an entry's line can recompute, from the line alone, the hash the verifier computes; for an accepted unredacted entry, the hash in the line |
| AuditFormat.ReadsCell | src/technical/audit/audit-format.ts:41 | Any text is read back from its cell |
| AuditFormat.SafeTextReads | src/technical/audit/audit-format.ts:26-41 | A cell is empty for no value, a text itself or, if it starts like a formula, with an apostrophe before it, and the JSON text of anything else |
| AuditFormat.SafeTextIsSafe | src/technical/audit/audit-format.ts:26-39 | A cell starts like a formula exactly if its value is a negative number, which it then spells |
| AuditFormat.SafeTextDecides | src/technical/audit/audit-format.ts:26-39 | Different texts share a cell exactly if one is the other, a formula, with the apostrophe before it |
| AuditFormat.JsonLinesSplit | src/technical/audit/audit-format.ts:77-78 | A JSON lines export has one line per entry, and that line is the entry's JSON text |
| AuditFormat.PrintNoControls | src/technical/audit/audit-format.ts:77-78 | No JSON text holds a control character, a line break least of all |
| StripStrings.ArgumentsAt | src/devtools/conventions/check-no-raw-pii-log.ts:46-59 | Returns the text up to the parenthesis that closes the call; of a call never closed, all but its last unit |
| StripStrings.ClosedIsUnique | src/devtools/conventions/check-no-raw-pii-log.ts:46-59 | There is one such text at most, and then the rest does step outside the call |
| StripStrings.ArgumentsExactly | src/devtools/conventions/check-no-raw-pii-log.ts:46-59 | Of a call with arguments a, what is taken is a exactly if the parentheses in a, those in strings included, close each other in order, or nothing follows the call and they leave at least one open |
| StripStrings.TakenIsUnique | src/devtools/conventions/check-no-raw-pii-log.ts:46-59 | On every text exactly one text is taken for the arguments |
| StripStrings.ParenInStringEndsCall | src/devtools/conventions/check-no-raw-pii-log.ts:46-59 | By example: of the arguments ')',u one quote is taken, whose code is a space, and u is never looked at; a call cut off loses its last unit |
| StripStrings.TurnKeepsShape | src/devtools/conventions/check-no-raw-pii-log.ts:66-117 | On every text: modes alternate from code, the stack is never empty, one brace depth per open interpolation |
| StripStrings.Strip | src/devtools/conventions/check-no-raw-pii-log.ts:66-120 | The loop computes the machine on every text |
| StripStrings.StrippedIsProjection | src/devtools/conventions/check-no-raw-pii-log.ts:61-120 | For every tree of code, strings with escapes and template literals nested to any depth, stripping its text gives the tree's code |
| StripStrings.CallIsProjected | src/devtools/conventions/check-no-raw-pii-log.ts:124-128 | Where the parentheses close each other, the code looked at for a call is the code of the tree its arguments are |
| StripStrings.CodeOfCall | src/devtools/conventions/check-no-raw-pii-log.ts:124-128 | The program's two steps one after the other, on every source |
| StripStrings.FeedPiece | src/devtools/conventions/check-no-raw-pii-log.ts:72-117 | The same in the middle of any text, in any state: a piece adds its code and leaves the rest of the state as it was |
| SqlFingerprint.FingerprintIsGroup | src/devtools/dashboard/sql-fingerprint.ts:11-17 | The four replacements compute, for every statement, its tokens with placeholder lists shortened |
| SqlFingerprint.GroupedExactly | src/devtools/dashboard/sql-fingerprint.ts:5-17 | Any two statements share a fingerprint exactly when those tokens are the same, a literal question mark counting as a placeholder |
| SqlFingerprint.GroupedWithoutMarks | src/devtools/dashboard/sql-fingerprint.ts:5-10 | So without literal question marks exactly when the tokens are the same |
| SqlFingerprint.MarkLooksBound | src/devtools/dashboard/sql-fingerprint.ts:3 | By example: the operator ? and the placeholder $1 share a fingerprint |
| SqlFingerprint.SpacesDoNotMatter | src/devtools/dashboard/sql-fingerprint.ts:1 | The length of a whitespace run does not matter, anywhere in any statement |
| SqlFingerprint.NumbersDoNotMatter | src/devtools/dashboard/sql-fingerprint.ts:3 | The number of a placeholder does not matter, anywhere in any statement |
| SqlFingerprint.ListLengthDoesNotMatter | src/devtools/dashboard/sql-fingerprint.ts:2 | The length of a placeholder list, from two up, does not matter, anywhere in any statement |
| Recorder.NothingElseIsLost | src/devtools/dashboard/dev-dashboard.recorder.ts:99-118 | Over every run of events, ticks and slow or failing inserts: batches and buffer are what was enqueued, in order, each entry once, less exactly what the cap cut, and the numbers add up |
| Recorder.Bounded | src/devtools/dashboard/dev-dashboard.recorder.ts:22-24 | In every run at most 2000 entries wait and 500 requests are tracked |
| Recorder.HundredDoNotWait | src/devtools/dashboard/dev-dashboard.recorder.ts:191-201 | A hundred entries wait only for an insert in flight |
| Recorder.OneInsertAtATime | src/devtools/dashboard/dev-dashboard.recorder.ts:99-105 | A batch is handed over only while no insert is in flight, one batch at most |
| Recorder.TallyIsExact | src/devtools/dashboard/dev-dashboard.recorder.ts:136-149 | A tally never counts more than was heard since the request was last judged, and is exactly that, count and time, unless it was evicted |
| Recorder.VerdictIsExact | src/devtools/dashboard/dev-dashboard.recorder.ts:163-189 | A reported count is at least the threshold and at most what was heard; unless evicted, exactly the statements at the threshold are reported, with exactly how often and how long they were heard, and always in the judged request's name |
| Recorder.HeardExactly | src/devtools/dashboard/dev-dashboard.recorder.ts:120-123 | A statement is heard unless it names the dashboard's own table, anywhere in it |
| Recorder.NobodyIsJudged | src/devtools/dashboard/dev-dashboard.recorder.ts:131-133 | What belongs to no request, or to an empty id, changes no tally and is never judged |
| Recorder.EvictsOldest | src/devtools/dashboard/dev-dashboard.recorder.ts:151-161 | Only a full table evicts, only for a request it does not track, and only the oldest |
| Recorder.TalliesAlwaysOk | src/devtools/dashboard/dev-dashboard.recorder.ts:136-161 | At most 500 requests are tracked, each once, each statement of one once |
| Recorder.TalliesDependOnRecords | src/devtools/dashboard/dev-dashboard.recorder.ts:120-149 | Ticks and inserts touch no tally |
| Recorder.DevDashboardRecorder.Flush | src/devtools/dashboard/dev-dashboard.recorder.ts:99-105 | Hands the whole buffer over unless an insert is in flight or there is nothing |
| Recorder.DevDashboardRecorder.Enqueue | src/devtools/dashboard/dev-dashboard.recorder.ts:191-201 | Buffers, cuts the oldest past 2000, and flushes from 100 on |
| Recorder.DevDashboardRecorder.EvictOldestTallies | src/devtools/dashboard/dev-dashboard.recorder.ts:151-161 | The loop leaves the newest 500 |
| Recorder.DevDashboardRecorder.JudgeRequest | src/devtools/dashboard/dev-dashboard.recorder.ts:163-189 | Forgets the tally first, then enqueues its verdicts in order |
| Recorder.DevDashboardRecorder.Hear | src/devtools/dashboard/dev-dashboard.recorder.ts:82-97 | The program's order of effects is the step the run results are about |
| DashboardPrune.DevDashboardStore.Prune | src/devtools/dashboard/dev-dashboard.store.ts:146-182 | What stays is exactly the rows inside the window with fewer than the cap of strictly newer ones of their tenant there; the count is the rows lost |
| DashboardPrune.CutAreOlderThanKept | src/devtools/dashboard/dev-dashboard.store.ts:161-178 | A row the cap cuts is strictly older than at least the cap of kept rows of its tenant |
| DashboardPrune.OverCapExactlyWhenTied | src/devtools/dashboard/dev-dashboard.store.ts:161-178 | A tenant with that many rows keeps the cap and the rows tied behind the last of them: more than the cap exactly when there are such rows |
| DashboardPrune.UnderCapKeepsAll | src/devtools/dashboard/dev-dashboard.store.ts:153-172 | A tenant within the cap loses nothing to it |
| DashboardPrune.TiedRowsOutliveCap | src/devtools/dashboard/dev-dashboard.store.ts:161-178 | By example: two rows made in one millisecond both outlive a cap of one |
| TenantPurge.PurgeTenant | src/devtools/testing/tenant-isolation.ts:63-96 | Always ends; throws exactly when some tables hold one another or are held from outside, in whatever order; otherwise no table holds a row of the tenant; takes only receipts, the tenant's rows and what cascades |
| TenantPurge.Pass | src/devtools/testing/tenant-isolation.ts:76-88 | One pass either frees a table or leaves everything as it was with every pending table blocked |
| TenantPurge.WhoHolds | src/devtools/testing/tenant-isolation.ts:90-92 | Each stuck table is named by a row of another stuck table, or by a row outside the purge |
| TenantPurge.AcyclicIsNeverPinned | src/devtools/testing/tenant-isolation.ts:72-95 | With keys that run down a ranking of the tables and none from outside, no tables are ever stuck |
| TenantPurge.DeleteKeepsKeys | src/devtools/testing/tenant-isolation.ts:78-83 | A delete that succeeds keeps every foreign key intact and its table without rows of the tenant |
| Snippet.EveryRunIsOk | examples/snippet/snippet.service.ts:288-332 | In every run of any number of callers with stale reads, a snippet's status is where its records end, each record beginning where the last one ended |
| Snippet.RecordsFollowEdges | examples/snippet/snippet.service.ts:41-45 | Every record of every run goes from draft to published or archived, from published to archived, or from archived to draft |
| Snippet.EdgesAre | examples/snippet/snippet.service.ts:41-45 | The declared moves are those four edges and no more, one move for each |
| Snippet.EveryEdgeIsTaken | examples/snippet/snippet.service.ts:41-45 | And all four are taken in one run |
| Snippet.PublishedExactly | examples/snippet/snippet.service.ts:288-332 | In every run a snippet is published exactly if its last record leads there, and whoever made that record began it with a draft in hand whose summary was not blank |
| Snippet.BlankIs | examples/snippet/snippet.service.ts:41-45 | Blank is without a summary, or one of whitespace alone |
| Snippet.OneRecordPerStatusChange | examples/snippet/snippet.service.ts:295-316 | A step leaves statuses and records alone, or adds one record and changes the one status it names |
| Snippet.VersionRisesByOne | examples/snippet/snippet.service.ts:262-265 | While a row lives, a step leaves it as it is or counts its version one up |
| Snippet.PatchedExactly | examples/snippet/snippet.service.ts:262-265 | An edit or a revert writes the fields it is given and counts the version; status and deletion stay |
| Snippet.RemovedStaysGone | examples/snippet/snippet.service.ts:372-376 | A removed snippet is gone, and no later step brings it back |
| Snippet.UpdateSeesWhatItOverwrites | examples/snippet/snippet.service.ts:254-281 | When an update or a revert lands, the row still is what its caller read: no update silently overwrites another |
| Snippet.SeenExactlyAtSameVersion | examples/snippet/snippet.service.ts:348-366 | A write without a version check overwrites nothing unseen exactly when the versions agree |
| Snippet.RestoreOverwritesUnseen | examples/snippet/snippet.service.ts:358-366 | By example: a restore with fields wipes out an update its caller never saw |
| Snippet.MoveLandsOnReadStatus | examples/snippet/snippet.service.ts:288-299 | A transition lands on the status its caller read, with the guard true of what was read, and so of the row if that has the version read |
| Snippet.LaterVersionsMayBeUnguarded | examples/snippet/snippet.service.ts:288-299 | No later version vouches for it: wherever a publish would land, others can bring the row to any later version with the publish still landing, unguarded |
| Snippet.UnguardedExactly | examples/snippet/snippet.service.ts:288-299 | A publish lands unguarded exactly when the last write since its caller's load to set the summary set it blank |
| Snippet.PublishLandsUnguarded | examples/snippet/snippet.service.ts:288-299 | By example: a publish lands on a row whose summary was emptied since it was read |
| Snippet.OneMoverAtATime | examples/snippet/snippet.service.ts:295-299 | Two transitions of one snippet are never under way together, and one under way still has the status it began from |
| Snippet.LandsExactly | examples/snippet/snippet.service.ts:283-299 | What a caller read lets it move the row exactly when no move was recorded since, or the last one led back to the status it read |
| Snippet.SecondMoveNeedsReturn | examples/snippet/snippet.service.ts:283-287 | Two recorded moves of one snippet from one status have a record between them that led back to it |
| Snippet.BothReadersMove | examples/snippet/snippet.service.ts:283-287 | By example: of two callers that read one draft both archive it, because the first reopened it in between |
| Snippet.SnippetService.Update | examples/snippet/snippet.service.ts:254-281 | Writes exactly when the expected version is the held one and the row is still the held one; else a version conflict |
| Snippet.SnippetService.Transition | examples/snippet/snippet.service.ts:288-332 | Writes exactly when allowed on the held record and the status is unchanged, with one record; else refuses and changes nothing |
| CatFileBatch.HashesOf | scripts/check-kernel-versions.ts:72-86 | On any output git can answer with, the loop maps each id to the digest of exactly its bytes, up to the first missing object; the offset strictly increases |
| CatFileBatch.MappedExactly | scripts/check-kernel-versions.ts:72-86 | With distinct ids, an id is mapped exactly if git has every object before it, and then to the digest of its own bytes |
| CatFileBatch.EveryDigestExactly | scripts/check-kernel-versions.ts:72-92 | Every id is mapped exactly if git has all objects but perhaps the last, and to its own object's digest exactly if it has them all |
| CatFileBatch.MissingHidesNext | scripts/check-kernel-versions.ts:75-86 | By example: an object that comes after a missing one gets no digest |
| CatFileBatch.AllSeenExactly | scripts/check-kernel-versions.ts:75-86 | Every answer is read exactly if git has all objects but perhaps the last |
| CatFileBatch.TurnReads | scripts/check-kernel-versions.ts:76-85 | One turn reads one answer, whatever its bytes look like |
| LoginThrottle.LocksExactly | src/technical/auth/login-throttle.ts:26-44 | A lock is set exactly on the maximum-th failure of one fixed window, opened by a failure that found none open, with no success or lock since |
| LoginThrottle.LockIsLastFilledWindow | src/technical/auth/login-throttle.ts:35-48 | The lock is that of the last filled window: no success lifts it, no other failure moves it |
| LoginThrottle.CountStaysBelow | src/technical/auth/login-throttle.ts:29-43 | Between calls the stored count is below the maximum and has an expiry |
| LoginThrottle.WaitIsBounded | src/technical/auth/login-throttle.ts:21-24 | The reported wait is what is left of the last lock to within half a second, between 0 and the lockout time, and 0 exactly without a lock or in its last half second |
| LoginThrottle.LockEndsEarly | src/technical/auth/login-throttle.ts:21-24 | By example: in its last half second a lock is still there and refuses no one |
| LoginThrottle.AtRestExactly | src/technical/auth/login-throttle.ts:26-44 | However the commands of concurrent calls interleave and wherever calls are cut off: a counter at rest has no expiry exactly when every call that stood between INCR and EXPIRE in its time was cut off there, and is at the maximum exactly when a call that counted it there was cut off |
| LoginThrottle.QuietMeansOpenable | src/technical/auth/login-throttle.ts:26-44 | So once all calls have finished the counter is below the maximum and expires |
| LoginThrottle.ClearLeavesLock | src/technical/auth/login-throttle.ts:46-48 | A success, at any point of any interleaving, leaves every lock alone |
| LoginThrottle.CutCallLeavesNoExpiry | src/technical/auth/login-throttle.ts:29-33 | By example: a call cut off between its first two commands leaves a counter that never expires |
| LoginThrottle.CutCallLeavesFull | src/technical/auth/login-throttle.ts:35-43 | By example, whatever the maximum: the call that fills a window, cut off between setting the lock and its DEL, leaves a full counter |
| LoginThrottle.LaterFailuresFill | src/technical/auth/login-throttle.ts:29-43 | Such a counter counts failures however far apart, until they fill it and set the lock |
| LoginThrottle.LoginThrottleStore.RecordFailure | src/technical/auth/login-throttle.ts:26-44 | The commands, in order, are the step the window results are about; other addresses are untouched |
| LoginThrottle.LoginThrottleStore.SignIn | src/technical/auth/better-auth.instance.ts:101-146 | A locked address is refused with the wait, whatever the endpoint would answer; else a 401 counts, another error changes nothing, anything else clears; a body without an email passes by |
| DatabaseBackup.NameReadsBack | src/technical/backup/database-backup.ts:118-143 | A dump's name gives back its database, dashes or not, and its instant to the second |
| DatabaseBackup.NameReads | src/technical/backup/database-backup.ts:118-125 | By example: the name of a dump of my_app |
| DatabaseBackup.ReadNameIsFileName | src/technical/backup/database-backup.ts:127-143 | A name that reads as a dump is the name of that dump |
| DatabaseBackup.NamesSortByTime | src/technical/backup/database-backup.ts:118-125 | Within one database names sort as the instants do |
| DatabaseBackup.StampIs | src/technical/backup/database-backup.ts:118-125 | The stamp is the instant's digits, marks and fraction gone |
| DatabaseBackup.ExpiredAreOldest | src/technical/backup/database-backup.ts:145-152 | What expires is all but the newest, by name |
| DatabaseBackup.LaterNameIsLater | src/technical/backup/database-backup.ts:127-152 | Of two dumps of a database the later name is the later instant |
| DatabaseBackup.KeptUnlessOld | src/technical/backup/database-backup.ts:221-232 | A dump, the new one included, stays exactly when fewer than `keep` of its database were made after it |
| DatabaseBackup.LateDumpGoes | src/technical/backup/database-backup.ts:221-232 | By example: a dump whose clock is behind the one kept goes as soon as it is there |
| DatabaseBackup.SameSecondSameName | src/technical/backup/database-backup.ts:118-125 | Two names of one database are one exactly if the instants are the same to the second |
| DatabaseBackup.FailedDumpTakesTwin | src/technical/backup/database-backup.ts:216-219 | By example: a failed dump takes with it one made a millisecond before |
| DatabaseBackup.NamelessTakesOthers | src/technical/backup/database-backup.ts:172-177 | By example: with no database named, keeping one dump takes one of two other databases' |
| DatabaseBackup.BackupDirectory.ListBackups | src/technical/backup/database-backup.ts:154-184 | Exactly the database's dumps, or without one all dumps, newest first within each database |
| DatabaseBackup.BackupDirectory.CreateBackup | src/technical/backup/database-backup.ts:192-233 | Leaves exactly the newest `keep` dumps of the database, or with none named as many of all, and touches no other file; a failed dump takes its own target with it; a `keep` below one changes nothing |

## Left out

- The unique constraint on tenant and previous hash: the writers' locking alone is shown to keep one chain; the constraint could only refuse further runs.
- Number::toString, Date.prototype.toISOString of a value, toJSON methods, BigInt, functions and symbols: numbers and dates are held by their texts.
- Several audit writers in one database statement, and isolation levels other than read committed.
- Redactions inside a transaction that later rolls back: each update is its own step, as its callers use it.
- AuditDelivery.FolderReadsBack: says nothing of a folder several sinks share; AuditDelivery.DeliveredExactly picks one sink's keys out of it.
- AuditDelivery.DeliveredExactly: is about a sink whose key prefix does not change; an edited prefix puts later ranges elsewhere.
- AuditDelivery.DeliveryStepKeepsOk: has one object store; several storage drivers are several of them, and the HTTP transport stores nothing.
- AuditDatabase.AuditDatabase.Handle: takes the put's outcome as a parameter; the transports, secrets and URL checks are not part of this model.
- The outbox relay's retries, backoff and dead letters: deliveries may simply happen in any order, again, or not at all.
- Recorder.VerdictIsExact: a request with an empty or absent id is never judged, as in the code; labels and details cut to length by the mapper are not modelled.
- Times in the recorder add up as reals; floating-point rounding of totals is not modelled.
- StripStrings.StrippedIsProjection: comments and regular-expression literals are code to the lexer, as they are to the program; the patterns that then look for raw objects are not part of this model.
- Snippet: the search index, notifications, shares, history entries and batches inside one outer transaction.
- Snippet.EveryRunIsOk: does not claim that a published snippet has a summary, because what a revert writes back is not restricted here.
- TenantPurge.PurgeTenant: rows other processes insert meanwhile; keys set to null by a delete never stop one and are not listed.
- LoginThrottle.LocksExactly: is about calls one after another; interleaved commands are the subject of LoginThrottle.AtRestExactly.
- DatabaseBackup.BackupDirectory.ListBackups: leaves open how dumps of different databases are ordered, which is localeCompare's affair, and so which go where retention covers them all.
- DatabaseBackup.NamesSortByTime: compares names of one database by code unit, which is what localeCompare does where only digits differ; the calendar behind an instant's fields is not modelled.
- CatFileBatch.HashesOf: requires output framed as git frames it; what the loop does with other bytes is not modelled.
- DashboardPrune.DevDashboardStore.Prune: rows recorded while it is under way; a cap below one, for which the query would skip a negative number of rows.
- Guest-to-account transfer and slug folding: they would only add easier members.
- Controllers, guards, modules, schemas, the admin and documentation sites, and the other convention scripts.
