# A verified model of Stockiha's posting and recovery core

Stockiha is a stock and sales application. Two of its promises are hard to see from any one function: a posting
request is carried out exactly once however often it is retried, and a backup is never half published. This
project models the code behind them in Dafny and proves what it promises, together with the date readers, the logo
store, the bundle statistics, the daily-backup timer and the number-stringifying loop.

- **Posting.** `Json`, `Utf8` and `CanonicalJson` model the canonical form of a payload and prove that two payloads
  print alike exactly when they mean the same, with a reader that takes the printed form apart again under any
  continuation. `CashSale`, `StockAdjustment` and `OpeningState` prove which requests have equal payloads. `Posting` is
  the reservation protocol of the database over concurrent transactions, roll-backs and lost answers, for any kind of
  request; `ExactlyOnce` says its guarantees in terms of the fields of sales and adjustments.
- **Bundles.** `Manifest`, `Checksums` and `BundleFiles` model the metadata files and the validation, `BundleSeal` their
  writing, `BundleCreation` the assembly, `BundleContents` all that is in what is assembled, `SchemaRewrite` the
  stamping of the schema version and `BundleFinalize` the change to format 2; what either engine stages holds all that
  was collected and always passes validation, what is deleted from it later is noticed exactly if it is needed, and what
  is changed in it is noticed as long as the checksum file stays. `BundleName` and `Calendar` are the folder names and
  the times they stand for, and `BundleStats` the saturating statistics.
- **Backup protocol.** `BackupProtocol` is a state machine over the audit table, the folders, the schema version and the
  memory of the process, with a crash possible between any two steps, retention deleting folders file by file, migrations,
  and live restores that put a folder beside the others and replace the table. `BackupSafety` is what every step keeps,
  `BackupRuns` what holds over whole runs, `BackupFailures` exactly what failures leave behind, `BackupCalls` the calls of
  both engines, written as the source writes them, as runs of the machine, and `BackupBundles` the link to the validation
  of bundles.
- **Restore.** `LiveRestore` is the recovery lease and the live restore over any interleaving of threads, `RestoreCalls`
  the command and its worker, and `RestoreDrill` the drill with its guard and the start-up sweep.
- **Smaller pieces.** `IsoDate`, `Base64`, `LogoStore`, `LogoCalls`, `DailyBackupTimer` and `StringifyNumbers`.

SHA-256 is any function from bytes without collisions, or, where only its format matters, any function to 64 lower-case
hexadecimal digits. How PostgreSQL reads a UUID and how the version text of PostgreSQL is read are parameters. Failing
disk and database operations are arbitrary choices; the classes have constants, mostly called `faultless`, that switch
them off, under which it is shown when the calls succeed. An instance runs alone, as the single-instance plugin
(`src-tauri/src/lib.rs:155-171`) makes sure, and only the application writes to its own directories.

## What turned out not to hold

- **A folder is complete or not there.** Manual folders always are. An automatic one is valid exactly as long as deletions
  took nothing that validation needs, because retention deletes at the final path
  (`src-tauri/src/infrastructure/recovery_engine/retention.rs:135`); `BackupBundles.PublishedIsValid` and
  `BundleFiles.LossDetected`. If the manifest goes and the rest stays, retention never selects the rest again, so it stays
  for good; `BackupFailures.HalfRemoved` and `BackupFailures.ResidueStays`.
- **One folder for each request id.** The destination setting may change between a crash and the retry; the retry then
  publishes a second folder in the new destination. `BackupRuns.DestinationChanges` is such a run.
  `BackupRuns.OneFolderEach` and `BackupRuns.SecondFolder` give the condition from both sides: a second folder comes
  about only when a call is pointed at another directory than the one its request has a folder in, and such a call can
  always publish it, unless the name or the staging directory is taken there.
- **A success is final.** It is until a live restore replaces the table. Afterwards an id is answered as before exactly
  if the new table has the same success for it; `BackupRuns.AnswerSurvivesRestore`. What survives every restore is that
  no folder is replaced, that manual folders stay, and that all folders are complete as said above.
- **A published backup is finished by calling again.** An automatic one is not (`BackupFailures.AutomaticRetryFails`). A
  manual one is, exactly if the engine is the embedded one or the folder has the schema version that the database has at
  the retry (`src-tauri/src/application/recovery_creation.rs:297-301`); `BackupRuns.ResumeFinishes`,
  `BackupFailures.OutdatedRetryFails` and `BackupCalls.BackupProcess.CreateOperatorBackup`.
  `BackupFailures.FailsAfterMigration` is a run that ends with a failed row and its folder.
- **A failed row means no folder.** The row of a failed call has a folder exactly when that call failed after the rename,
  or when it was a retry and there was a folder before; `BackupFailures.FailedCallFolder`, and
  `BackupFailures.FailedRowFolder` by the point of failure. The validation after the rename can fail
  (`BackupFailures.FailsAfterRename`); a retry can fail before it takes the folder up, since it reads the destination
  first (`BackupFailures.FailsOnRetry`, `src-tauri/src/application/recovery_embedded.rs:216-220`); and the retries of the
  bullet before can do nothing but fail.
- **A retry after a crash while staging succeeds.** With the external engine it does. In embedded mode the staging
  directory is named after bundle and attempt and nothing removes it: the retry succeeds exactly where there is none
  (`BackupCalls.BackupProcess.CreateOperatorBackup`), and where there is one the request is kept out for ever
  (`BackupFailures.LeftBehindBlocks`). `BackupFailures.StageLeftBehind` is a run of a fresh installation that leaves one.
- **A refused logo leaves the old one.** Every refusal but the database's does. When the database reports an error, the
  files were replaced before. If it had stored the name and only its reply was lost, the new logo is shown. Otherwise what
  is shown stays as it was exactly if nothing was shown, or the recorded file is under another name and could not be
  deleted, or it has the new file's name and had the new content already; `LogoCalls.LogoDirectory.SetCompanyLogo` and
  `LogoCalls.AfterRefusal`. `LogoCalls.LoseLogo` is a call on a working disk after which no logo is shown. The comment at
  `src-tauri/src/application/printing.rs:86-91` has only the failed copy in mind; the model follows the code.
- **Equal amounts have equal payloads.** Amounts are compared as texts: sales of equal amounts have equal payloads
  exactly when every amount is written with as many decimals and the same sign (`CashSale.AmountsAreTexts`), so a retry
  that writes "15.0" for "15" is a conflict (`CashSale.TrailingZeroConflicts`).
- **`parse_iso_date` inverts the printing of every date.** It does exactly from year 0 on;
  `IsoDate.IsoDateReadsPrinted`.
- **A canonical name stands for a time.** It does exactly if its digits make a date of the calendar and a time of day
  (`BundleName.CanonicalAccepted`); the shape check lets other names through (`BundleName.CanonicalNeedNotBeAccepted`).

## Model

| member | source | states |
|---|---|---|
| Json.ParsePrint | src-tauri/src/domain/canonical_json.rs:28-33 | The compact text of any value, followed by anything that cannot continue it, is read back to the value and to what followed |
| Json.PrintInjective | src-tauri/src/domain/canonical_json.rs:28-33 | Different values have different compact texts |
| Json.PrintShortest | src-tauri/src/domain/canonical_json.rs:28-33 | No text that is read as the value is shorter than its compact text, so nothing is escaped without need |
| Json.EscapesLowerCase | src-tauri/src/domain/canonical_json.rs:28-33 | Control characters are escaped with lower-case digits |
| Text.IntTextReads | src-tauri/src/domain/canonical_json.rs:28-33 | Integers are printed with a minus sign exactly if negative, without needless zeros, and with digits that say their value |
| Utf8.DecodeExactly | src-tauri/src/domain/canonical_json.rs:28-33 | Bytes are read as a text if and only if they are its encoding |
| Utf8.EncodeOrder | src-tauri/src/domain/canonical_json.rs:35-39 | Comparing the bytes of two texts, as the sort does, is comparing their characters |
| CanonicalJson.SortKeysLoop | src-tauri/src/domain/canonical_json.rs:35-49 | The loop that collects, sorts and inserts keys computes the recursive key sorting, at every depth |
| CanonicalJson.SortKeysSorts | src-tauri/src/domain/canonical_json.rs:35-49 | Afterwards the keys of every nested object are strictly sorted, and keys are still distinct |
| CanonicalJson.SortKeysIdempotent | src-tauri/src/domain/canonical_json.rs:35-49 | Sorting twice is sorting once |
| CanonicalJson.CanonicalEqualIffSameMeaning | src-tauri/src/domain/canonical_json.rs:18-33 | Two payloads have the same canonical bytes if and only if they are equal up to the order of keys at every depth |
| CanonicalJson.CanonicalReadsBack | src-tauri/src/domain/canonical_json.rs:28-33 | The canonical bytes are UTF-8 and JSON, and what they say means the same as the payload |
| CanonicalJson.HashEqualIffSameMeaning | src-tauri/src/domain/canonical_json.rs:51-59 | Without collisions, hashes are equal if and only if the payloads mean the same |
| Payload.DecimalTextInjective | src-tauri/src/application/cash_sale.rs:151 | A decimal's text determines sign, coefficient and scale |
| Payload.DecimalTextReads | src-tauri/src/application/cash_sale.rs:151 | A decimal is printed with a minus sign exactly if it is negative, its digits together are the coefficient, and the point stands before as many of them as it has decimals |
| Payload.SameAmountSameText | src-tauri/src/application/cash_sale.rs:151 | Two texts of the same amount are equal exactly when they have as many decimals and the same sign, which matters for zero |
| CashSale.ValidateAccepts | src-tauri/src/application/cash_sale.rs:71-117 | A line is accepted exactly when it has one of two shapes, given field by field, with these bounds on its signed amounts; no line has both shapes |
| CashSale.ValidateRefuses | src-tauri/src/application/cash_sale.rs:71-117 | Which fault is reported of a refused line |
| CashSale.CanonicalPayload | src-tauri/src/application/cash_sale.rs:136-156 | The payload is built exactly when all lines are valid; otherwise the first invalid line and its fault are returned |
| CashSale.LineSays | src-tauri/src/application/cash_sale.rs:19-36 | A serialized line has each field that is there under its own name, amounts as texts, and nothing else |
| CashSale.SaleSays | src-tauri/src/application/cash_sale.rs:144-152 | The payload has session, warehouse, period, date, the lines in their order and the text of the given discount, or "0" for none, each under its own name, and nothing else |
| CashSale.LineJsonInjective | src-tauri/src/application/cash_sale.rs:19-36 | A serialized line determines the line, skipped fields included |
| CashSale.SamePayloadIffSameSale | src-tauri/src/application/cash_sale.rs:136-156 | Two sales have equal payloads if and only if session, warehouse, period, date and lines agree, and the discounts are equal or each is missing or the decimal 0 without decimals |
| CashSale.AmountsAreTexts | src-tauri/src/application/cash_sale.rs:136-156 | Two sales of equal amounts have equal payloads if and only if the discount and all decimals of all lines are written with as many decimals and the same sign |
| CashSale.TrailingZeroConflicts | src-tauri/src/application/cash_sale.rs:136-156 | Two valid requests with one request id and equal amounts whose payloads differ |
| StockAdjustment.DbTextInjective | src-tauri/src/domain/stock.rs:48-67 | Reasons have different database texts |
| StockAdjustment.ReasonReadsBack | src-tauri/src/domain/stock.rs:56-80 | A text is parsed to a reason exactly if it is the text of that reason |
| StockAdjustment.NormalizedNote | src-tauri/src/application/stock_adjustment.rs:50-55 | A note is none exactly if it is missing or all white space; otherwise it is the text between the white space around it |
| StockAdjustment.AdjustmentSays | src-tauri/src/application/stock_adjustment.rs:57-68 | The payload has each field under its own name, the reason as a text that is parsed back to it, the normalized note or null, and nothing else |
| StockAdjustment.SamePayloadIffSameAdjustment | src-tauri/src/application/stock_adjustment.rs:50-68 | Two adjustments have equal payloads if and only if their fields agree, notes without surrounding white space, blank notes being none |
| StockAdjustment.NotePaddingIgnored | src-tauri/src/application/stock_adjustment.rs:50-55 | White space around a note never changes the payload |
| OpeningState.Validate | src-tauri/src/domain/opening_state_application.rs:76-143 | The validation loop with its set of lines accepts exactly the requests with distinct lines and fields within these bounds, written out |
| OpeningState.Apply | src-tauri/src/application/opening_state_application.rs:53-92 | What is hashed and what is sent are made of the mappings sorted by line, row by row: each row has its mapping's line, customer, supplier and trimmed account code under its own names, null for what is missing |
| OpeningState.SortByLineSorts | src-tauri/src/application/opening_state_application.rs:60-61 | Distinct lines are sorted strictly |
| OpeningState.SortIsPermutationInvariant | src-tauri/src/application/opening_state_application.rs:60-61 | Two lists of distinct lines sort to the same list if and only if one is a permutation of the other |
| OpeningState.ListsAlign | src-tauri/src/application/opening_state_application.rs:63-92 | At every position, the hashed and the sent row have the line, customer, supplier and trimmed account code of the mapping there, each list under its own names |
| OpeningState.PayloadSays | src-tauri/src/application/opening_state_application.rs:75-80 | The payload has the package, the period and the hashed list, and nothing else |
| OpeningState.SamePayloadIffSameApplication | src-tauri/src/application/opening_state_application.rs:60-80 | Two accepted requests have equal payloads if and only if package, period and mappings agree, in any order and with any padding of account codes |
| Posting.AnswersAgree | src-tauri/migrations/20260722125409_core_request_idempotency.sql:44-84 | Over any run, two successful answers under one request id name one document and had one hash |
| Posting.FreshIsPosted | src-tauri/migrations/20260722125409_core_request_idempotency.sql:32-104 | In every state reached a request under a new id can be posted: it gets a new document, which is stored with its hash and answered; if the answer is lost, sending it again gives that document |
| Posting.RunningEnds | src-tauri/migrations/20260722125409_core_request_idempotency.sql:32-39 | A running transaction ends only with its own commit or roll-back and keeps its request until then |
| Posting.ConflictIsReal | src-tauri/migrations/20260722125409_core_request_idempotency.sql:44-84 | A conflict is answered only if a document with another hash was committed under the id |
| Posting.RetryAnswer | src-tauri/migrations/20260722125409_core_request_idempotency.sql:44-84 | A retry of an answered id can only find the committed row: the same document for the same hash, a conflict for another |
| Posting.DocumentsMatchRequests | src-tauri/migrations/20260722125409_core_request_idempotency.sql:44-104 | Committed documents and accepted request ids are in bijection, also when answers were lost |
| Posting.NeverStillProcessing | src-tauri/migrations/20260722125409_core_request_idempotency.sql:77-80 | No call is ever told that its request is still being processed |
| Posting.RollBackForgets | src-tauri/migrations/20260722125409_core_request_idempotency.sql:32-39 | A rolled-back request leaves no row and no document, and can be reserved again |
| Posting.StepKeeps | src-tauri/migrations/20261002093000_ws_o_4_sell_by_pack.sql:316-327 | Every step of every transaction keeps rows, documents, running transactions and answers consistent, and committed rows unchanged |
| ExactlyOnce.SaleRetry | src-tauri/src/application/cash_sale.rs:158-188 | A second cash-sale call under an answered id gets the same document if its fields are the same and a conflict if not, and never posts again |
| ExactlyOnce.SaleAnswersAgree | src-tauri/src/application/cash_sale.rs:158-188 | All documents answered under one id are one document of one sale |
| ExactlyOnce.SaleConflictIsReal | src-tauri/src/application/cash_sale.rs:158-188 | A conflict is answered only if another sale was posted under the id |
| ExactlyOnce.OnlyValidSales | src-tauri/src/application/cash_sale.rs:158-188 | No document is answered for a sale with a refused line |
| ExactlyOnce.AdjustmentRetry | src-tauri/src/application/stock_adjustment.rs:132-165 | The same for stock adjustments |
| ExactlyOnce.OnlyValidAdjustments | src-tauri/src/application/stock_adjustment.rs:132-150 | No document is answered for an adjustment by zero, or for another reason without a note that says something |
| Calendar.SecondsOrder | src-tauri/src/application/recovery_creation.rs:525-529 | Comparing calendar fields is comparing elapsed seconds |
| Calendar.DaysBeforeYearIs | src-tauri/src/application/recovery_creation.rs:520-530 | The days before a year are 365 for each year and one for every fourth, not every hundredth, but every four hundredth |
| Calendar.YearLengthRepeats | src-tauri/src/application/recovery_creation.rs:525-529 | The lengths of years repeat after four hundred years, before year 0 too |
| Calendar.MonthLengths | src-tauri/src/application/recovery_creation.rs:520-530 | The lengths of the twelve months |
| Calendar.ValidYears | src-tauri/src/application/mod.rs:85-87 | Dates have the years from -9999 to 9999 |
| Calendar.TicksAreCounted | src-tauri/src/application/recovery_creation.rs:525-529 | A second later is one second more, over the ends of minutes, hours, days, months and years |
| BundleName.ParsePrint | src-tauri/src/infrastructure/backup_proof/mod.rs:558-568 | Every valid time in years 0 to 9999 prints to a name that is read back to it |
| BundleName.AcceptedIffPrinted | src-tauri/src/application/recovery_creation.rs:505-544 | A name is accepted if and only if it is the print of a valid time, so the check of the staged folder's name never fails |
| BundleName.AcceptedIsCanonical | src-tauri/src/application/recovery.rs:742-753 | Accepted names pass the shape check |
| BundleName.CanonicalIs | src-tauri/src/application/recovery.rs:742-753 | What the shape check lets through, given by the text |
| BundleName.CanonicalAccepted | src-tauri/src/application/recovery_creation.rs:505-544 | A name of the right shape is accepted if and only if its digits make a date of the calendar and a time of day |
| BundleName.CanonicalNeedNotBeAccepted | src-tauri/src/application/recovery.rs:742-753 | A name that passes the shape check and stands for no time |
| BundleName.NameOrderIsTimeOrder | src-tauri/src/application/recovery_creation.rs:505-530 | Byte order of accepted names is chronological order |
| IsoDate.IsoDateReadsPrinted | src-tauri/src/application/mod.rs:62-88 | A printed date is read back if and only if its year is not negative |
| IsoDate.IsoDateExactly | src-tauri/src/application/mod.rs:62-88 | A text is read as a date if and only if it is three numbers with dashes between them that are its year, month and day, each with or without a plus sign |
| IsoDate.Rfc3339Exactly | src-tauri/src/commands/documents.rs:252-255 | What the first of the filter reader's two attempts accepts, given by its text |
| IsoDate.FilterDateAgrees | src-tauri/src/commands/documents.rs:252-271 | The filter reader gives the same date on what the ISO reader accepts, alone and followed by "T" and any text |
| PathList.SortSorts | src-tauri/src/application/recovery_creation.rs:595-597 | Sorting distinct paths sorts them strictly |
| Checksums.ParseWritten | src-tauri/src/infrastructure/backup_proof/mod.rs:917-929 | Reading a written checksum file gives exactly the hashes that were written |
| Checksums.DigestIs | src-tauri/src/infrastructure/backup_proof/mod.rs:922 | What counts as a digest, given by the text |
| Checksums.NamedPathOneLine | src-tauri/src/infrastructure/backup_proof/mod.rs:917-924 | A path that a checksum file names has no newline in it |
| Checksums.LineIs | src-tauri/src/infrastructure/backup_proof/mod.rs:917-929 | A line is read exactly if it is 64 hexadecimal digits of either case, two spaces and the path |
| Checksums.EitherEnding | src-tauri/src/infrastructure/backup_proof/mod.rs:917 | A carriage return before the newline is not part of the path |
| Manifest.ReadBack | src-tauri/src/application/recovery_creation.rs:50-65 | Reading the serialized manifest gives the manifest back |
| Manifest.ReadWidths | src-tauri/src/infrastructure/backup_proof/mod.rs:835-857 | No number is read that is too large for its field |
| Manifest.WrittenOrder | src-tauri/src/application/recovery_creation.rs:50-65 | Members are written in the order of the fields |
| Manifest.ReadNatExactly | src-tauri/src/infrastructure/backup_proof/mod.rs:835-857 | A number is read exactly from its shortest decimal text, and only up to the largest value of its width |
| Manifest.StructFieldOnce | src-tauri/src/infrastructure/backup_proof/mod.rs:835-857 | A member is read exactly if its key occurs once |
| BundleFiles.ListedPaths | src-tauri/src/infrastructure/backup_proof/mod.rs:889-1041 | A valid bundle does not list its checksum file, and lists no path with a newline |
| BundleFiles.AllowedIffInside | src-tauri/src/infrastructure/backup_proof/mod.rs:863-873 | A path is allowed if and only if it is relative and has no empty component and none of one or two dots, said of the text without splitting it |
| BundleFiles.AcceptedExactly | src-tauri/src/infrastructure/backup_proof/mod.rs:889-1041 | A bundle is accepted if and only if its manifest is read and of format 1 or 2, its checksum file vouches for the manifest and every listed file, each at a path inside the bundle and with the listed size and hash, the four fixed files are listed, the dump is not empty, PostgreSQL has the required version and the directories are there |
| BundleFiles.SameChecksumsSameContent | src-tauri/src/infrastructure/backup_proof/mod.rs:944-1003 | Two accepted bundles with one checksum file have the same manifest to the byte and the same content in every listed file |
| BundleFiles.TamperingDetected | src-tauri/src/infrastructure/backup_proof/mod.rs:944-1003 | An accepted bundle whose manifest or any listed file gets other bytes, the checksum file staying as it is, is refused |
| BundleFiles.LossDetected | src-tauri/src/infrastructure/backup_proof/mod.rs:889-1041 | A valid bundle that has lost files or directories is still accepted if and only if none of them is the manifest, the checksum file, a listed file or an asset directory |
| BundleSeal.SealedChecksums | src-tauri/src/application/recovery_creation.rs:599-620 | The checksum list is the sorted set of the manifest's entries and the manifest's own new hash |
| BundleSeal.SealedValid | src-tauri/src/infrastructure/backup_proof/mod.rs:889-1041 | Writing a truthful manifest and its checksum file gives a bundle that passes validation if and only if the asset directories are there |
| BundleCreation.CreatedValid | src-tauri/src/infrastructure/backup_proof/mod.rs:667-800 | A created bundle, asset directories included, passes validation if and only if its dump is not empty and the version of PostgreSQL is the required one |
| BundleCreation.StampedValid | src-tauri/src/application/recovery_creation.rs:205-239 | Stamping a created bundle succeeds, and the result passes the validations before and after publishing, with the new version |
| BundleContents.CreatedHolds | src-tauri/src/infrastructure/backup_proof/mod.rs:690-770 | A created bundle holds the dump, the three version texts and every file of the three groups with its own bytes, all listed, and no other file but the metadata; the manifest read from it gives format, versions and time |
| BundleContents.StampedHolds | src-tauri/src/application/recovery_creation.rs:552-621 | A stamped bundle holds the same with the new schema version |
| BundleFinalize.FinalizedValid | src-tauri/src/infrastructure/recovery_engine/bundle.rs:73-189 | A valid bundle changed to format 2 is valid again, with the new versions, and its kind is read back |
| BundleFinalize.CreatedFinalizes | src-tauri/src/infrastructure/recovery_engine/bundle.rs:73-189 | A created bundle is refused exactly if a version is all white space or has a control character in what is left after trimming, and its format 2 passes validation |
| BundleFinalize.FinalizeEntries | src-tauri/src/infrastructure/recovery_engine/bundle.rs:115-150 | The loop refuses exactly the lists with a repeated path or without one of the version files, and rewrites the entries of those two |
| BundleFinalize.FinalizeMetadata | src-tauri/src/infrastructure/recovery_engine/bundle.rs:73-189 | A bundle is finalized exactly if both versions are acceptable, no path is repeated and both version files are listed; the result is the finalized bundle |
| BundleFinalize.KindsAreKnown | src-tauri/src/infrastructure/recovery_engine/bundle.rs:41-61 | Every kind is read back from its own text, kinds have different texts, and any other text is unknown |
| BundleFinalize.FinalSays | src-tauri/src/infrastructure/recovery_engine/bundle.rs:105-113 | The manifest says the kind, that the dump includes the privileges, and the source |
| BundleFinalize.FinalKeysSorted | src-tauri/src/infrastructure/recovery_engine/bundle.rs:174 | Its members and those of its entries are written in the order of their keys |
| BundleContents.FinalizedHolds | src-tauri/src/infrastructure/recovery_engine/bundle.rs:73-189 | A finalized bundle is of format 2 and holds the same with both new versions |
| BundleContents.LogoIsBackedUp | src-tauri/src/application/recovery_creation.rs:441-450 | A logo of any type that can be set may be collected, and is in the created bundle with its bytes |
| SchemaRewrite.StagedBundle.WriteSynced | src-tauri/src/application/recovery_creation.rs:679-690 | A write replaces one file; a failed one may leave anything in it, and touches no other |
| SchemaRewrite.StagedBundle.UpdateLoop | src-tauri/src/application/recovery_creation.rs:576-594 | The loop refuses exactly the lists with a repeated path, updates the schema entry and finds out whether there is one |
| SchemaRewrite.RefusalIs | src-tauri/src/application/recovery_creation.rs:552-594 | Each refusal and its cause: a version that is all white space or has a control character, an unreadable manifest, a repeated path, a missing entry |
| SchemaRewrite.StagedBundle.RewriteSchemaMetadata | src-tauri/src/application/recovery_creation.rs:552-621 | Success is the rewritten bundle; refusals have their one cause; only the three metadata files ever change; without faults it succeeds exactly when nothing refuses it |
| SchemaRewrite.RewriteConsistent | src-tauri/src/application/recovery_creation.rs:552-621 | A successful rewrite of a matching bundle gives a matching one: sizes and hashes, strictly sorted entries for the same paths, the new version in manifest and file |
| SchemaRewrite.RewriteChecksums | src-tauri/src/application/recovery_creation.rs:599-620 | Its checksum list is the strictly sorted set of all its entries and the manifest's own new hash |
| RewriteValidates.RewriteOfValid | src-tauri/src/application/recovery_creation.rs:552-621 | A valid bundle is refused exactly if the version is all white space or has a control character or a path is repeated, and otherwise is valid again with the new version |
| BundleStats.CanonicalBundleStats | src-tauri/src/application/recovery_creation.rs:623-677 | Succeeds exactly when all is regular and listable, with the true count and sum, each at most the largest 64-bit number; otherwise with the code of the first fault |
| BundleStats.Counter.AddRegularFileStats | src-tauri/src/application/recovery.rs:795-811 | Saturating addition keeps the counters at the clamped true numbers, and each fault has its code |
| BundleStats.OrderDoesNotMatter | src-tauri/src/application/recovery.rs:755-793 | The statistics do not depend on the order in which directories list their files |
| BackupSafety.StepSafe | src-tauri/src/application/recovery_creation.rs:136-248 | Every step keeps the invariant, never replaces a folder and never deletes from a manual one; only a live restore removes or renames rows or takes answers back |
| BackupSafety.RunSafe | src-tauri/src/application/recovery_creation.rs:228-236 | And so does every run, with crashes, deletions and restores anywhere: manual folders stay as they are, and until the table is replaced rows and answers do |
| BackupRuns.PublishedIsComplete | src-tauri/src/application/recovery_creation.rs:220-239 | A folder at a final path holds the valid bundle that was published there without exactly what deletions took since, nothing if it is manual, and belongs to the one request that owns the name unless a restore brought it |
| BackupRuns.UndisturbedRun | src-tauri/src/infrastructure/recovery_engine/backup.rs:154-165 | Without restores the table knows all folders, no row is inherited, and all staging directories are of earlier attempts |
| BackupRuns.SuccessAgrees | src-tauri/src/application/recovery_creation.rs:98-116 | All successful answers for a request id that one table gave are the same |
| BackupRuns.SuccessReplays | src-tauri/src/application/recovery_creation.rs:98-116 | Until the table is replaced, a later call with an answered id is answered at once with the same result and changes nothing, and what was reported of a manual folder is still true of one |
| BackupRuns.AnswerSurvivesRestore | src-tauri/src/application/recovery_creation.rs:98-116 | After a restore the same answer is given if and only if the restored table has the same success for the id |
| BackupRuns.SettledStays | src-tauri/src/application/recovery_embedded.rs:181-212 | Once a request id succeeded or failed, no run publishes another folder for it until the table is replaced |
| BackupRuns.ResumeFinishes | src-tauri/src/application/recovery_creation.rs:290-310 | A published but uncompleted manual backup, for the external engine of the current schema version, is completed by calling again, with what the folder holds and without a new folder, also under a restored table |
| BackupRuns.OneFolderEach | src-tauri/src/application/recovery_embedded.rs:215-238 | If no call is pointed at another directory than the one its request has a folder in, every request id has at most one folder under one table |
| BackupRuns.SecondFolder | src-tauri/src/application/recovery_embedded.rs:215-249 | A call that is pointed elsewhere, with name and staging directory free, goes on to publish a second folder |
| BackupRuns.DestinationChanges | src-tauri/src/application/recovery_embedded.rs:215-249 | A run from a fresh installation that ends with two folders of one request id |
| BackupBundles.PublishedIsValid | src-tauri/src/infrastructure/recovery_engine/retention.rs:135-150 | Every folder reached was published valid, and is accepted by validation now if and only if deletions took nothing that validation needs; manual ones always are |
| BackupBundles.EnginePublishes | src-tauri/src/application/recovery_creation.rs:205-239 | Where folder and staging directory are new, the external engine's steps on acceptable contents are possible, publish the bundle stamped with the schema version of the call and with all contents, and pass all checks before and after |
| BackupBundles.EmbeddedPublishes | src-tauri/src/infrastructure/recovery_engine/backup.rs:239-278 | The same for the embedded engine, format 2 and every kind |
| BackupFailures.FailedRowFolder | src-tauri/src/application/recovery_embedded.rs:252-280 | A call that fails leaves a failed row whose folder is there if and only if the call had renamed it or, as a retry that had not come to building, found one |
| BackupFailures.FailedCallFolder | src-tauri/src/application/recovery_embedded.rs:214-280 | However a call comes to its completion, its row has a folder if and only if it had one before or the call renamed one into place |
| BackupFailures.AutomaticRetryFails | src-tauri/src/application/recovery_embedded.rs:443-451 | In the directory of its folder, an automatic retry can only be completed as a failure |
| BackupFailures.OutdatedRetryFails | src-tauri/src/application/recovery_creation.rs:296-301 | A retry of the external engine that finds a folder of another schema version can only be completed as a failure |
| BackupFailures.FailsAfterMigration | src-tauri/src/application/recovery_creation.rs:296-301 | A run of a fresh installation: published, stopped, migrated, retried, which is then blocked and ends with a failed row and its folder |
| BackupFailures.FailsAfterRename | src-tauri/src/infrastructure/recovery_engine/backup.rs:267-281 | A run of a fresh installation in which the validation after the rename fails: a failed row with its folder |
| BackupFailures.FailsOnRetry | src-tauri/src/application/recovery_embedded.rs:214-220 | A run in which the process stops after the rename and the retry fails before it takes the folder up: the same end |
| BackupFailures.LeftBehindBlocks | src-tauri/src/infrastructure/recovery_engine/backup.rs:154-171 | A staging directory left by a stopped embedded backup stays, and keeps its request from being published in that directory until a restore |
| BackupFailures.CleanEnd | src-tauri/src/infrastructure/recovery_engine/backup.rs:154-171 | A call that can clean up at its end removes its own staging directory and no other |
| BackupFailures.StageLeftBehind | src-tauri/src/infrastructure/recovery_engine/backup.rs:154-171 | A run of a fresh installation that leaves one |
| BackupFailures.ResidueStays | src-tauri/src/infrastructure/recovery_engine/retention.rs:40-83 | What is left of a folder without its manifest is never selected again and stays as it is for ever |
| BackupFailures.HalfRemoved | src-tauri/src/infrastructure/recovery_engine/retention.rs:135-150 | Any automatic folder that retention may select can end like that |
| BackupFailures.DirectoriesLast | src-tauri/src/infrastructure/recovery_engine/retention.rs:135-150 | A deletion takes a directory only after all that is in it |
| BackupCalls.BackupProcess.BeginAttempt | src-tauri/src/application/recovery_embedded.rs:181-212 | At most three attempts: the row is started, a new one under the first free name, or the call is answered as its row says; after a fault the answer may be an error, also one that leaves a new row started; without faults the row is started whenever it can be |
| BackupCalls.BackupProcess.CreateBundle | src-tauri/src/infrastructure/recovery_engine/backup.rs:145-290 | Success means the folder was not there before and is there now, intact; other folders, rows and answers stay; without faults it comes about if and only if there is room for a valid bundle |
| BackupCalls.BackupProcess.CreateManualBackup | src-tauri/src/application/recovery_embedded.rs:175-282 | One answer for each call that ends: without faults the expected one for new, started, settled and foreign request ids alike, and a fault only turns it into a failure; success only with a succeeded row; nothing of other requests touched, nothing changed for settled ones |
| BackupCalls.BackupProcess.CreateExternalBackup | src-tauri/src/commands/recovery.rs:273-367 | The same with a single candidate name, a taken one being the end |
| BackupCalls.BackupProcess.CreateOperatorBackup | src-tauri/src/commands/recovery.rs:251-271 | For either engine, without faults: a new request succeeds if there were no restores; a started one without a folder if and only if no staging directory of its attempt is there; a started one with a valid folder if and only if the engine is the embedded one or the folder has the current schema version |
| BackupCalls.BackupProcess.RunAutomaticBackup | src-tauri/src/application/recovery_embedded.rs:292-516 | Skips exactly for a daily call whose last success lies between now and 72000 seconds ago, and then does nothing; otherwise answers as a manual call does but never takes a folder up, keeps all manual folders, and leaves the new folder intact |
| LiveRestore.StepSafe | src-tauri/src/commands/recovery.rs:47-64 | Every step of every thread keeps one lease, distinct launches and truthful rows |
| LiveRestore.LeaseIsExclusive | src-tauri/src/commands/recovery.rs:49-64 | In every interleaving at most one thread holds a lease, the flag is on exactly then, and acquiring is refused exactly then |
| LiveRestore.LeaseComesBack | src-tauri/src/commands/recovery.rs:60-64 | Whatever the holder was doing, once it ends anybody can acquire |
| LiveRestore.LaunchedOnce | src-tauri/src/application/recovery_embedded.rs:932-964 | On one database no request id starts the worker twice, over all calls, failures, crashes and restarts |
| LiveRestore.FailsOnlyAfterUndo | src-tauri/src/commands/recovery.rs:852-871 | A started row changes only to failed, and only by the completion after an abort or a rollback of its own request |
| LiveRestore.AbandonedStays | src-tauri/src/application/recovery_embedded.rs:932-964 | A started row that nobody works on stays started until the database is replaced |
| LiveRestore.EndAbandons | src-tauri/src/commands/recovery.rs:873-883 | A failed rollback, a crash or a panic, at any point after the row was started, writes nothing, and leaves the row started for good unless the database had been replaced |
| RestoreCalls.RestoreProcess.RestoreBackupLive | src-tauri/src/commands/recovery.rs:771-886 | Busy exactly when the lease is taken, and then nothing happens; early failures and known ids leave everything as it was; otherwise a worker holds the lease, or it is free and the row is abandoned |
| RestoreCalls.RestoreProcess.RunWorker | src-tauri/src/commands/recovery.rs:807-883 | The lease is free afterwards; only an abort or a rollback fails the row; a failed rollback writes nothing |
| RestoreDrill.GeneratedIsWellFormed | src-tauri/src/infrastructure/restore_proof/mod.rs:355-387 | Every generated name passes the check that drops are subject to |
| RestoreDrill.WellFormedIs | src-tauri/src/infrastructure/restore_proof/mod.rs:376-387 | The check lets exactly the names through that begin with the prefix and consist of lower-case letters, digits and underscores |
| RestoreDrill.GeneratedNamesDiffer | src-tauri/src/infrastructure/restore_proof/mod.rs:355-366 | Drills of different processes, times or counts have different names |
| RestoreDrill.DrillProcess.Verify | src-tauri/src/application/recovery.rs:412-490 | Success means that the database is gone; the restore's error is never hidden by the clean-up's; a survivor has a drop scheduled unless its creation was reported as failed; a database that was there before makes the creation fail; after a panic only the scheduled drop is left |
| RestoreDrill.DrillProcess.Sweep | src-tauri/src/infrastructure/restore_proof/mod.rs:858-919 | Only well-formed names are dropped, the report is true, and a sweep that gets to its end leaves none |
| RestoreDrill.DrillProcess.DrillAndNextStart | src-tauri/src/application/recovery.rs:76-106 | Whatever a drill came to, its database is gone after the next start whose sweep gets to its end |
| Base64.DecodeEncode | src-tauri/src/application/printing.rs:261-264 | Encoded bytes are decoded to the same bytes (section 4 of RFC 4648) |
| LogoStore.MagicIsExclusive | src-tauri/src/application/printing.rs:204-211 | No content passes for two image types |
| LogoStore.IsLogoFileIs | src-tauri/src/application/printing.rs:198-199 | Which names count as logo files, given by the text |
| LogoStore.ShownLogo | src-tauri/src/application/printing.rs:218-265 | A checked, recorded logo is shown as a data URL that carries its exact bytes under the type its first bytes speak for |
| LogoStore.ShownExactly | src-tauri/src/application/printing.rs:218-265 | A logo is shown exactly if a file of at most two megabytes with an image's extension, in whatever case, is recorded, and then with its exact content under that type |
| Text.LowerAsciiAt | src-tauri/src/application/printing.rs:119-123 | Lower-casing turns each letter from A to Z into the one at its place from a to z and leaves all else |
| Text.WhiteSpaceIs | src-tauri/src/application/stock_adjustment.rs:50-55 | The 25 characters that trimming takes away |
| LogoCalls.CheckAccepts | src-tauri/src/application/printing.rs:92-140 | A chosen file is taken exactly if it is a regular file of at most two megabytes whose extension, in whatever case, is that of the type its first bytes speak for |
| LogoCalls.CheckRefuses | src-tauri/src/application/printing.rs:92-140 | Why a chosen file is refused: the first of the checks that fails |
| LogoCalls.LogoDirectory.WriteAtomically | src-tauri/src/application/printing.rs:168-184 | At every way out, and wherever the process stops, the target holds all of the old or all of the new content; success is reported exactly if no step failed |
| LogoCalls.LogoDirectory.RemoveOtherLogoFiles | src-tauri/src/application/printing.rs:186-202 | Removes only other, non-temporary logo files; if nothing fails, all of them |
| LogoCalls.LogoDirectory.SetCompanyLogo | src-tauri/src/application/printing.rs:92-166 | Refusals by the checks change nothing; no refusal but the database's changes what is shown; after that one the new logo is shown if only the reply was lost, and otherwise the same as before if and only if the old file was kept or was not shown; success shows exactly the chosen bytes; if all deletions worked one logo file is left |
| LogoCalls.LogoDirectory.ClearCompanyLogo | src-tauri/src/application/printing.rs:270-294 | An error of the database leaves the files, and the record unless only the reply was lost; otherwise no logo is recorded or shown, and if nothing fails no logo file is left |
| LogoCalls.AfterRefusal | src-tauri/src/application/printing.rs:155-163 | After the database's refusal what is shown is unchanged if and only if nothing was shown, the recorded file is still there under another name, or it had the new name and content already |
| LogoCalls.LoseLogo | src-tauri/src/application/printing.rs:152-163 | On a working disk, a refusal by the database after which a logo that was shown is shown no more |
| DailyBackupTimer.AtMostOnce | src/app/AppRouter.tsx:105-106 | Over every sequence of events the backup is called at most once, the pending timers are the one in the variable, and none is left once it is done |
| DailyBackupTimer.EffectArms | src/app/AppRouter.tsx:280-303 | Until then a signed-in effect makes sure that one timer is pending, whose firing makes the one call |
| DailyBackupTimer.CleanUpDisarms | src/app/AppRouter.tsx:297-303 | After a clean-up nothing is pending and no timer can fire |
| DailyBackupTimer.CallsAreSignedIn | src/app/AppRouter.tsx:280-296 | A call is made only with the token of an effect that ran signed in |
| DailyBackupTimer.TimerModule.Effect | src/app/AppRouter.tsx:280-296 | The effect arms a timer as the model says, and has a clean-up exactly when it did |
| DailyBackupTimer.TimerModule.Handle | src/app/AppRouter.tsx:280-303 | Any sequence of events on the variables follows the model |
| StringifyNumbers.JsonCell.StringifyJsonNumbers | src-tauri/src/application/procurement_service.rs:20-33 | The loop turns the fields of all listed keys at once |
| StringifyNumbers.ExactlyListed | src-tauri/src/application/procurement_service.rs:20-33 | Exactly the listed number fields change, to their text; keys and order stay |
| StringifyNumbers.OnlyKeySetMatters | src-tauri/src/application/procurement_service.rs:20-33 | Order and repetitions of the keys do not matter |
| StringifyNumbers.Idempotent | src-tauri/src/application/procurement_service.rs:20-33 | Turning twice is turning once |

## Left out

- What the SQL posting functions do between reservation and recording: stock, costs, journals and permissions. The
  model only needs that they run in one transaction.
- `resolve_session_with_permission` and other permission checks: they refuse a call before it has done anything.
- Reading JSON with white space between tokens, and structs written as JSON arrays: the reader of the model takes the
  compact form, which both writers of the application produce.
- The hand-written manifest writer escapes backspace and form feed differently from the serializer; no Windows file
  name contains them, so the model has one writer.
- BundleFiles.ValidBundle: reads the six common members of the manifest. The validator itself also takes a manifest
  without `created_at_unix`, and the optional members of format 2. Links and directories in the place of files are
  files that are not there.
- `finalize_bundle_metadata` as a sequence of writes: `BundleFinalize` has its loop and its result. Members of the manifest that the
  creation does not write are not carried over.
- BundleStats.CanonicalBundleStats: a file that disappears between its listing and its inspection is not modelled.
- Failure atomicity of `rewrite_schema_metadata`: there is none, and none is needed before the bundle is published.
- RewriteValidates.RewriteOfValid: assumes that no listed path ends in a carriage return, because a checksum line
  cannot carry it; Windows allows no such name.
- The outer fields of the response to a replayed automatic backup: the replay always reports that no fallback was used.
- The fields of a backup's result other than request, bundle name and kind: they are computed from the folder, and the
  model's result has the bundle itself.
- The order in which retention selects folders (keep counts, newest first): the model lets it select any automatic
  folder but the new one, which covers every order.
- The statistics that the embedded inspection also takes of a bundle can fail for reasons of the disk only; they are
  `BundleStats`.
- The command for automatic backups skips outside the embedded mode; `BackupCalls.BackupProcess.RunAutomaticBackup` is
  what it calls inside it.
- The staging directory of the safety copy of a live restore: its name is no attempt's.
- The builds for other systems than Windows, where the external engine always refuses.
- Free-space, binary and version preflights of the backup engine: they are among the reasons for which a call may fail.
- `LiveRestore` and `Posting` are on values: their steps are atomic operations of several threads or transactions, which
  Dafny's methods do not interleave. `RestoreCalls` shows the command and the worker as sequences of these steps.
- Case-insensitive file names on Windows.
- Printing, catalogue, reports, licence and the other screens: no property beyond copying fields.
