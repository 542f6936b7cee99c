# Shop backend: verified model

Dafny models and proofs of the four parts of the shop backend whose behaviour is hard to see
from any one function: the firmware updater of `mobctl`, the catalogue import and lookup
service, the receipt proxy, and the script that turns a stock database into the catalogue's CSV.
`dafny verify dfyconfig.toml` checks everything.

## What is modelled

**Firmware update** (`OtaFrame`, `OtaHost`, `OtaWait`, `OtaWindow`, `OtaLiveness`,
`OtaBroadcast`, `OtaSession`, `OtaSuccess`, `OtaAccount`). A `Host` holds one complete course of everything the
sender does not control: how much each read returns, which publishes fail, which statuses arrive in
which order, when a timer fires. Statuses may be lost, repeated, stale, negative, unaligned or
invented, so a theorem about every `Host` is a theorem about every adversarial run. The sender's
loops are methods on a `Link`, a mutable handle on such a host, each proved equal to a function
from host to host; the inner loop, the body of the outer loop and the rest of `uploadOTAChunks`
are three methods, and likewise for `uploadOTAChunksForDevices`. The host's trace records every
publish and every status taken in; the safety theorems are about that trace, and so is what
`OtaAccount` says of sessions in which something goes wrong. The receiver is not
in the repository: where a theorem speaks of the image a device holds, it assumes openly that the
device reports a number of bytes only once its image has them (`OtaSession.Honest`,
`HonestTerminal`), and its image is built from any of the published frames, delivered in any order,
any number of times. That such devices exist is proved for the sessions that `OtaSuccess` shows to
succeed.

**Catalogue** (`CatalogStore`, `CatalogPipeline`, `PipelineFairness`, `ImportService`,
`ImportOutcomes`, `LookupQueue`, `CatalogService`). The database is a schema: tables by name,
indexes by name with the table they are attached to; it may hold any other tables, and leftovers
of earlier programs. A statement has a precondition (a rename needs its source and must not meet
its target) and works on the transaction's private copy; an `Engine` says after how many calls the
database fails, if ever, for whatever reason. A request's context that ends makes every later call
of its import fail (`ImportService.ContextEnds`). Goroutines and channels are steps of state
machines, and a schedule is any sequence of steps. `CatalogPipeline` has parser and importer, one
step a statement or channel operation, and `PipelineFairness` how their runs end; `ImportService`
has callers, contexts, the one-slot semaphore, temporary files and workers, each of which carries
a running `CatalogPipeline` of its own on the service's one database, and `ImportOutcomes` is
about what becomes of the requests; `LookupQueue` has the subscribe callback and the lookup
workers; `CatalogService` runs imports and lookups together, lookup workers reading the database
that the import's statements are working on. `CatalogPipeline.PipelineIsImport` is the bridge to
the sequential `CatalogStore.Import`, against which the `TursoStore` class is proved.

What the CSV reader returns in a run is given in advance, including the error of a read that comes
after the file has been closed behind a failed import.

**Receipts** (`QrProxy`, `ReceiptFlow`). Go byte slices are windows on arrays with a capacity,
`append` writes in place when there is room, and `ParseCommand` is shown to leave its input's array
alone. `ReceiptFlow` is the process: listener, `main` and printer goroutine as steps of a state
machine, with the sixteen-place channel before `main`, the eight-place channel behind it, a signal
that may come at any moment, and both loops' ways out when it has come.

**Projection** (`MdbProjection`). The two header loops and the row loop of the shell script,
against a specification by column name. `GoStrings` holds the string routines all parts share.

Where the repository's own README and its code differ, the model follows the code:

- README line 69 says that an import "indexes" the shadow table. The index keeps the name
  `products_next_barcode_idx` through the renames, so `CREATE INDEX IF NOT EXISTS` does nothing in
  the next import and the swap then drops the old index with the old table: the live table has
  its index after every other successful import only (`CatalogStore.HistoryIndexesAlternately`).
- README line 65 says that every station must acknowledge the chunks. A file that got shorter
  during the session, down to a multiple of 64 KiB, passes the upload stage with less; the upload
  keeps its promise exactly otherwise (`OtaBroadcast.PromiseKeptExactly`).

Other limits of the code, each with its exact condition and a run that reaches it:

- A report that acknowledges a full window of eight chunks at once, when the window ends at the end
  of the file, makes the upload wait for one more report, exactly such a report and no other
  (`OtaLiveness.StallsExactly`, `StallNeedsAnotherReport`). So a firmware of at most eight chunks,
  acknowledged by a single report, gets through exactly if it has fewer than eight
  (`SingleReportSuffices`).
- The parser is left blocked exactly by an import whose database fails before it can ask for the
  last product (`PipelineFairness.FairRunsDecide`).
- A timeout reply can accompany a committed import exactly for the uploads that can be imported at
  all (`ImportOutcomes.TimedOutYetCommitted`); the commit then came before the context's end
  (`CommittedBeforeTheEnd`). A `completed` reply can come while the slot is still taken
  (`CompletedYetBusy`).
- An upload whose context is done when the slot is asked for can be left behind for good
  (`ImportOutcomes.UploadLeftBehind`). No other file is once its caller has been answered and its
  worker is done (`FilesAreRemovedOnce`); a worker that the end of the process cuts off leaves its own.
- A restart or a shutdown loses the receipts that are on their way: at most nine texts behind `main`
  and sixteen receipts before it, and possibly all of them (`ReceiptFlow.LostOnTheWay`,
  `ShutdownMayLoseAll`, `RestartMayLoseAll`).
- A shutdown can hang for good, the printer goroutine gone and `main` blocked on its full channel,
  exactly if more than eight texts are to be printed before any restart
  (`ReceiptFlow.ShutdownCanHangExactly`).
- Cutting a command out of a receipt can join the halves of another (`QrProxy.WhenACommandRemains`).
- The column order of the exported table matters exactly if all required columns are there and one of
  them twice (`MdbProjection.ColumnOrderMattersExactly`).
- A header that names none of the required columns makes the script give up without naming one: in
  bash 5.2 under `set -u`, an associative array without entries counts as unbound
  (`MdbProjection.AbortsExactly`).

## Model

| member | source | states |
|---|---|---|
| OtaFrame.OtaChunkFrame | source/cmd/mobctl/ota.go:338-348 | the appended frame is the layout magic, session, big-endian offset, length, payload, byte by byte |
| OtaFrame.DecodeEncode | source/cmd/mobctl/ota.go:338-348 | decoding a frame gives session, offset modulo 4 GiB and payload; it is readable exactly when the payload's length fits two bytes |
| OtaFrame.TilesConcatenate | source/cmd/mobctl/ota.go:249-263 | frames that tile carry, one payload after another, exactly the file's first bytes |
| OtaFrame.TilesInOrder | source/cmd/mobctl/ota.go:302-312 | each frame names the offset at which the payloads before it end |
| OtaFrame.ImagesArePrefixes | source/cmd/mobctl/ota.go:258-261 | whatever selection, order and repetition of the frames reaches a receiver, its image is a beginning of the firmware |
| OtaFrame.TilesAssemble | source/cmd/mobctl/ota.go:258-261 | a receiver of the published frames in order holds exactly the first bytes of the file |
| OtaHost.Host.Read | source/cmd/mobctl/ota.go:250-257 | a read returns between one and the asked number of bytes from the current position, the end only at the end of the file, or an error |
| OtaWait.WaitOTAStatus | source/cmd/mobctl/ota.go:413-429 | the select loop computes the wait on the status stream |
| OtaWait.WaitTakesFirst | source/cmd/mobctl/ota.go:413-429 | the wait is decided by the first arrival that can decide it, consumes exactly up to it, and times out exactly if there is none |
| OtaWait.WaitMovesAck | source/cmd/mobctl/ota.go:269-279 | a wait for a chunk report moves the cumulative acknowledgement by that report and by nothing else |
| OtaWait.WaitAllOTADevices | source/cmd/mobctl/ota.go:381-411 | the loop that deletes from `remaining` computes the wait over a set of devices |
| OtaWait.SortedKeys | source/cmd/mobctl/ota.go:402-406 | collecting map keys in any order and sorting gives the one ascending list of them |
| OtaWait.WaitAllExact | source/cmd/mobctl/ota.go:388-410 | nil exactly at the shortest prefix by which every device reported ok with enough bytes and no device still outstanding failed; a timeout names exactly the outstanding devices, sorted; late failures of cleared devices do not count |
| OtaWait.SomethingDecides | source/cmd/mobctl/ota.go:388-410 | every stream has a first deciding point |
| OtaWait.WaitAllConfirms | source/cmd/mobctl/ota.go:391-400 | after a successful wait the trace holds a confirmation by every listed device |
| OtaWait.DiscoverOTADevices | source/cmd/mobctl/ota.go:350-379 | the loop that fills `devices` computes discovery on the status stream |
| OtaWait.DiscoverExact | source/cmd/mobctl/ota.go:350-379 | success exactly when the window closes by the timer with someone in it; the result lists exactly the trimmed names that reported `started`, strictly sorted |
| OtaWait.DiscoveredNamesMatch | source/cmd/mobctl/ota.go:361-365 | discovered names are non-empty and unchanged by trimming, so the later waits, which trim, recognise them |
| GoStrings.TrimSpaceTrims | source/cmd/mobctl/ota.go:361 | trimming leaves nothing to trim and is idempotent |
| GoStrings.TrimSpaceExact | source/cmd/mobctl/ota.go:361 | trimming yields exactly what stands between two stretches of white space, for every text that is trimmed itself |
| GoStrings.TrimSpaceCuts | source/cmd/mobctl/ota.go:361 | every text is white space, its trimmed text, white space |
| GoStrings.SortingIsUnique | source/cmd/mobctl/ota.go:375 | a set of names has one ascending listing |
| GoStrings.LessIsBytewise | source/cmd/mobctl/ota.go:375 | the order is bytewise: a proper beginning first, otherwise by the first byte that differs |
| OtaWindow.FillWindow | source/cmd/mobctl/ota.go:249-263 | the inner loop sends until the window is full or the file ends |
| OtaWindow.TakeTurn | source/cmd/mobctl/ota.go:249-280 | one turn of the outer loop |
| OtaWindow.UploadOTAChunks | source/cmd/mobctl/ota.go:235-291 | the whole upload on any host, and it terminates on every finite status stream |
| OtaWindow.AckIsSafe | source/cmd/mobctl/ota.go:273-280 | an acknowledgement never moves backwards or past what was sent, the recomputed count never grows and is the least that covers the rest; an error exactly for a report above what was sent |
| OtaWindow.FillIsSafe | source/cmd/mobctl/ota.go:249-263 | filling keeps the window's bookkeeping and leaves the window full unless the file ended |
| OtaWindow.TurnIsSafe | source/cmd/mobctl/ota.go:248-286 | every turn keeps `0 <= acked <= offset <= file`, `ceil((offset-acked)/chunk) <= pending <= 8` |
| OtaWindow.UploadIsSafe | source/cmd/mobctl/ota.go:235-291 | for every course of events: frames are a gapless cut of the file's beginning, never more than eight chunks unacknowledged at any moment, and success means the whole announced size was sent and acknowledged |
| OtaLiveness.PacedUploadSucceeds | source/cmd/mobctl/ota.go:248-290 | in any session, a device whose reports never leap more than PACE = 6 chunks ahead gets the upload completed, whatever chatter is mixed in, and no report behind the last one needed is consumed |
| OtaLiveness.EveryChunkAckedSucceeds | source/cmd/mobctl/ota.go:248-290 | in particular a device that acknowledges every chunk |
| OtaLiveness.StallsOnlyAfterDrain | source/cmd/mobctl/ota.go:248-269 | at any reachable turn the sender goes on to wait with nothing outstanding exactly if nothing is pending at a file end not yet read, and then right after one report that drained more than six chunks; which such reports do it is `StallsExactly` |
| OtaLiveness.StallNeedsAnotherReport | source/cmd/mobctl/ota.go:248-289 | from there the upload succeeds exactly if the device reports once more, not a failure and not too much |
| OtaLiveness.StallsExactly | source/cmd/mobctl/ota.go:248-286 | at any reachable turn, the report that is heard leads to that stall if and only if the filled window counts eight pending chunks, ends at the end of the file, and the report acknowledges all of it |
| OtaLiveness.SingleReportSuffices | source/cmd/mobctl/ota.go:248-289 | a firmware of at most one window, acknowledged by a single report of its full size, gets through if it has fewer than eight chunks, and otherwise times out with every byte acknowledged |
| OtaBroadcast.SendPartTo | source/cmd/mobctl/ota.go:303-312 | reading and publishing half of a turn |
| OtaBroadcast.CatchUpWith | source/cmd/mobctl/ota.go:313-325 | the barrier half of a turn, with the unexpected-end error |
| OtaBroadcast.UploadOTAChunksForDevices | source/cmd/mobctl/ota.go:293-336 | the whole broadcast on any host |
| OtaBroadcast.UploadAllIsSafe | source/cmd/mobctl/ota.go:293-336 | no chunk is published before every station confirmed the last boundary the stream stopped on; frames tile; success means every station confirmed everything sent up to the announced size |
| OtaBroadcast.NobodyFallsBehind | source/cmd/mobctl/ota.go:302-334 | with full reads, at every publish every station has confirmed all but less than the last 64 KiB |
| OtaBroadcast.ShortFileIsAccepted | source/cmd/mobctl/ota.go:317-333 | a file cut to a 64 KiB multiple is accepted when the stations confirm what there is |
| OtaBroadcast.PromiseKeptExactly | source/cmd/mobctl/ota.go:302-335 | success guarantees the full announced size for a file if and only if the file still has that size or is not a shorter 64 KiB multiple |
| OtaSession.RunSingleOTA | source/cmd/mobctl/ota.go:161-175 | the terminal's session after begin |
| OtaSession.RunStationsOTA | source/cmd/mobctl/ota.go:140-159 | the stations' session after begin |
| OtaSession.RunOTA | source/cmd/mobctl/ota.go:83-176 | the whole session, with the empty-firmware refusal |
| OtaSession.SessionIsWellFormed | source/cmd/mobctl/ota.go:136-175 | whichever publish or wait fails: begin, then chunks, then at most one finish or abort and nothing after; stations' sessions always end in one |
| OtaSession.SingleSession | source/cmd/mobctl/ota.go:161-175 | a finish is published only when the whole firmware was sent and acknowledged; success only on `done` after it; the window holds throughout |
| OtaSession.TerminalHoldsFirmware | source/cmd/mobctl/ota.go:164-170 | an honest terminal whose firmware was fully sent and acknowledged holds exactly the file |
| OtaSession.TerminalEndToEnd | source/cmd/mobctl/ota.go:161-175 | after a terminal's session that reports success, an honest terminal holds exactly the file, whatever the network did |
| OtaSession.StationsSession | source/cmd/mobctl/ota.go:140-158 | success means every discovered station confirmed the chunks before the finish and `done` with the full size after it |
| OtaSession.StationsFinishNeedsEveryone | source/cmd/mobctl/ota.go:140-153 | in every session with stations, also one that fails later: a finish is published only after discovery and when every discovered station had confirmed everything sent up to the announced size |
| OtaSession.HonestImage | source/cmd/mobctl/ota.go:154-156 | a station that honestly reported `done` holds at least the announced size of the file |
| OtaSession.EndToEnd | source/cmd/mobctl/ota.go:140-158 | after a session that reports success, every honest discovered station holds the firmware: exactly the file if it kept its size |
| OtaSuccess.SessionSucceeds | source/cmd/mobctl/ota.go:83-176 | a terminal that reports `started`, then paced chunks, then `done`, amid any other chatter, makes the whole session succeed |
| OtaSuccess.PlainSessionSucceeds | source/cmd/mobctl/ota.go:83-176 | for every non-empty firmware there is a terminal session that succeeds |
| OtaSuccess.ObedientStationsSucceed | source/cmd/mobctl/ota.go:140-159 | for every non-empty firmware and every group of stations there is a session that succeeds |
| OtaSuccess.PlainSessionDelivers | source/cmd/mobctl/ota.go:161-175 | in that session of a terminal, for every firmware up to 4 GiB, a terminal that gets the frames is honest and holds the file |
| OtaSuccess.ObedientStationsDeliver | source/cmd/mobctl/ota.go:140-158 | and so is every station in that session of a group |
| OtaSuccess.PunctualStationsSucceed | source/cmd/mobctl/ota.go:302-334 | with full reads of 512 bytes, stations that confirm exactly what has been sent, once at every 64 KiB boundary and once at the end, get the upload completed, and no report behind those is taken |
| OtaAccount.TerminalUploadHeeds | source/cmd/mobctl/ota.go:235-291 | in every course: a publish that fails, a time-out, a `bad_chunk` or `chunk_failed`, or an acknowledgement of more than was sent is the last event of the upload and its error, and so is a read that fails; it fails for no other reason but a file that cannot be opened or was acknowledged to its end without having the announced size |
| OtaAccount.StationsUploadHeeds | source/cmd/mobctl/ota.go:293-336 | the same for stations: `bad_chunk` or `chunk_failed` from a station that has not confirmed what was sent ends the upload with exactly that report, and no chunk follows; a file that ends early between boundaries is the only other complaint |
| OtaAccount.SessionBegins | source/cmd/mobctl/ota.go:91-138 | an empty firmware sends nothing; a begin message, with the size, that does not go out ends the session |
| OtaAccount.TerminalSessionCloses | source/cmd/mobctl/ota.go:161-175 | the session stays open exactly if `started` is not heard; a failed upload is aborted, and the abort is the last message and the upload's error the result; one that succeeds is finished, and then `done`, `bad_finish`, `finish_failed` or the timer, whichever is first, decides |
| OtaAccount.TerminalSessionHeeds | source/cmd/mobctl/ota.go:161-175 | over the trace alone: exactly one finish or abort exactly if `started` was heard; whatever is fatal to the upload is followed at once by the abort, which is last; in a session that succeeds every publish went out |
| OtaAccount.StationsSessionCloses | source/cmd/mobctl/ota.go:140-158 | a session with stations is always closed: by an abort, the last message, if discovery or upload fails, with that error; otherwise by a finish, after which a `bad_finish` or `finish_failed` of a station that is not done, or the timer, is the result |
| OtaAccount.StationsSessionHeeds | source/cmd/mobctl/ota.go:140-158 | over the trace: whatever is fatal to the upload is followed at once by the abort, which is last; in a session that succeeds every publish went out |
| OtaAccount.ChunksAreFull | source/cmd/mobctl/ota.go:241-262 | as long as reads fill the buffer, every chunk but the last is a full one, in both kinds of upload |
| CatalogStore.TursoStore.ExecStatements | source/internal/catalog/turso_store.go:85-89 | the statement loop runs until the first failure |
| CatalogStore.TursoStore.InsertProducts | source/internal/catalog/turso_store.go:100-110 | the range loop inserts and counts the products with a barcode |
| CatalogStore.TursoStore.ImportProducts | source/internal/catalog/turso_store.go:67-132 | the new committed schema is that of the import on the old one; the deferred rollback covers every error exit |
| CatalogStore.CatalogueIsLastWins | source/internal/catalog/turso_store.go:91-109 | the inserted table maps every non-empty barcode to name, price, stock, unit and coefficient of the last product with it, and has nothing else |
| CatalogStore.OpenThenImport | source/internal/catalog/turso_store.go:16-48 | any database file, opened, can be imported into; success leaves the new catalogue and every table the service has no name for |
| CatalogStore.SwapSteps | source/internal/catalog/turso_store.go:116-126 | with any other tables and leftovers in the database, no statement of the swap meets a missing source or an existing target |
| CatalogStore.ImportReplacesOrKeeps | source/internal/catalog/turso_store.go:67-132 | on any database with a catalogue: success exactly if parser and engine agree, then the catalogue is replaced, the auxiliary tables are gone and all others untouched; on an error at any call nothing has changed |
| CatalogStore.ImportFailsWhere | source/internal/catalog/turso_store.go:67-131 | an import that fails names the step at which the database or the parser failed, call by call, and the number of rows inserted by then |
| CatalogStore.LookupAfterImport | source/internal/catalog/turso_store.go:50-64 | after a successful import every lookup answers with the last product of that barcode, all fields as they were imported, or with that barcode alone as not valid |
| CatalogStore.CountCoversTable | source/internal/catalog/turso_store.go:100-110 | the reported count is at least the table's size, and equal exactly if barcodes are distinct |
| CatalogStore.WithBarcodeCounts | source/internal/catalog/turso_store.go:100-110 | it is the number of products that have a barcode |
| CatalogStore.HistoryShowsLatest | source/internal/catalog/turso_store.go:74-127 | over any history of failed and successful imports the catalogue is that of the last success, nothing auxiliary is left over once there was one, all other tables are as they were |
| CatalogStore.HistoryIndexesAlternately | source/internal/catalog/turso_store.go:116-122 | the catalogue is indexed after every other success: after an odd number if the first had an index to create, otherwise after an even number, never if another table has the index's name |
| CatalogStore.IndexesStayAttached | source/internal/catalog/turso_store.go:67-132 | after every import every index is on a table that exists |
| CatalogStore.SecondImportLosesIndex | source/internal/catalog/turso_store.go:116-122 | two imports in a row leave a new database without its index |
| CatalogPipeline.PipelineIsImport | source/internal/catalog/turso_store.go:100-131 | in every interleaving the returned result and database are those of importing exactly the parsed products with the parser's verdict; before that nothing shows |
| CatalogPipeline.ProductsArriveInOrder | source/internal/catalog/turso_store.go:100-114 | products received are an in-order prefix of those parsed; at the end of the range all were received and the verdict lies ready; success needs every record parsed |
| CatalogPipeline.RecordsReachCatalogue | source/internal/catalog/parser.go:24-51 | from file to table, in every interleaving: after a success the whole file was read, the catalogue has exactly the barcodes that occur in it, each with the cleaned fields of its last record in their columns, and the count is that of the records with a barcode |
| CatalogPipeline.BadFilesAreReported | source/internal/catalog/parser.go:24-40 | on a database that does not fail, an import fails exactly for a file with a bad header or record, with that error |
| CatalogPipeline.CleanCuts | source/internal/catalog/parser.go:57-59 | cleaning a field takes off the white space around it and then the quotes around that, and nothing else |
| CatalogPipeline.NoDeadlock | source/internal/catalog/parser.go:15-52 | until the import has returned somebody can move |
| PipelineFairness.ParserLeftBlocked | source/internal/catalog/turso_store.go:85-108 | when nothing moves any more the parser is blocked exactly if the engine failed before the import could ask for the last product, and has exited otherwise |
| PipelineFairness.FairRunsDecide | source/internal/catalog/parser.go:15-52 | every fair run of such an import leaves its parser blocked, and no fair run of any other does |
| CatalogPipeline.StepsRunOut | source/internal/catalog/parser.go:31-51 | every step of either goroutine uses up a finite measure |
| PipelineFairness.ImportReturns | source/internal/catalog/turso_store.go:67-132 | under every schedule that lets everyone have enough turns the import has returned and nothing moves any more |
| PipelineFairness.RoundsAreTurns | source/internal/catalog/parser.go:15-52 | fair schedules of any length exist |
| ImportService.OneImportAtATime | source/cmd/catalog_service/import_worker.go:26-47 | in every interleaving the workers holding the slot are as many as the tokens in the semaphore, at most one, also after their callers left |
| ImportService.RepliesAreTrue | source/cmd/catalog_service/import_worker.go:26-76 | `completed` means that this upload was committed and gives the number of its records with a barcode, any other reply but a timeout that it was not; the HTTP status names the stage that failed: 400 exactly if the upload cannot be decompressed, 422 if it cannot be converted, 409 for a refusal, 500 for a caller who stopped waiting; 500 for a good upload only if its context has ended |
| ImportOutcomes.AdmissionExact | source/cmd/catalog_service/import_worker.go:27-33 | a request whose context has not ended gets the slot exactly if no other import is being worked on, and is refused exactly if one is |
| ImportOutcomes.CallerNeverStuck | source/cmd/catalog_service/import_worker.go:41-46 | a waiting caller can stop exactly if its context has ended, and take its result exactly if its worker has reported one |
| ImportOutcomes.FilesAreRemovedOnce | source/cmd/catalog_service/import_worker.go:26-76 | whichever stage fails, in decompression and conversion too, no temporary file is removed twice; once caller and worker are done all are removed, except an upload whose context was found done |
| ImportOutcomes.UploadLeftBehind | source/cmd/catalog_service/import_worker.go:27-30 | any request whose context is done before it asks for the slot can go on to leave its upload behind for good |
| ImportOutcomes.WorkerNeverStuck | source/cmd/catalog_service/import_worker.go:35-39 | while a worker holds the slot, it, its import or its parser can move, whether or not anyone waits for the result; every such step uses up one of finitely many; the last frees the slot |
| ImportOutcomes.TimedOutYetCommitted | source/cmd/catalog_service/import_worker.go:41-46 | for every list of uploads: a request can be told of a timeout and have its catalogue committed if and only if its upload is importable at every stage |
| ImportOutcomes.CommittedBeforeTheEnd | source/internal/catalog/turso_store.go:67-131 | an import that is not committed when its request's context ends never is, however the run goes on |
| ImportOutcomes.CompletedHoldsUntilReleased | source/cmd/catalog_service/import_worker.go:36-39 | after a `completed` reply the slot is held exactly until the worker releases it |
| ImportOutcomes.CompletedYetBusy | source/cmd/catalog_service/import_worker.go:36-45 | for every list of uploads: a request can be told `completed` while its worker holds the slot if and only if its upload is importable |
| GoStrings.SplitJoins | source/cmd/catalog_service/mqtt.go:42 | joining the parts of a split gives the text back, and no part holds the separator |
| LookupQueue.TopicsExact | source/cmd/catalog_service/mqtt.go:42-47 | a lookup is taken from exactly the topics product/station/barcode with both levels non-empty |
| LookupQueue.RepliesAreNotLookups | source/cmd/catalog_service/mqtt.go:91 | a reply's topic is never taken for a lookup |
| LookupQueue.NothingLostNothingTwice | source/cmd/catalog_service/mqtt.go:28-52 | arrived = malformed + dropped + accepted; accepted = taken + queued, in order; taken = in hand + finished, request by request; the queue never exceeds four per worker |
| LookupQueue.DeliveryExact | source/cmd/catalog_service/mqtt.go:41-53 | a request is dropped only if four others for every worker are waiting; otherwise it is queued behind them |
| LookupQueue.EveryRequestCanBeServed | source/cmd/catalog_service/mqtt.go:74-97 | from any point of any run in which no worker has stopped, every request accepted can be finished |
| LookupQueue.RepliesFitRequests | source/cmd/catalog_service/mqtt.go:74-97 | every reply goes to the requesting station's topic and carries the requested barcode on the found, missing and error paths |
| CatalogService.RepliesShowLastCommit | source/cmd/catalog_service/mqtt.go:74-97 | every published answer, with any imports running statement by statement around it, shows the row that the barcode has in the catalogue of the last import committed before the worker's read, name and price made plain, the rest as it is, never a mix; without such a row, or after a failed read, it is the barcode alone, not valid; and that read came after the request was taken |
| CatalogService.HealthyLookupsAnswer | source/cmd/catalog_service/mqtt.go:80-95 | as long as the database answers and answers can be encoded, no read counts as failed and every finished request was answered |
| CatalogService.CommitsAreImports | source/internal/catalog/turso_store.go:128-131 | the catalogues that lookups see are those of complete imports of good uploads, each committed at most once |
| CatalogService.ImportsRunAlone | source/cmd/catalog_service/import_worker.go:26-47 | lookups do not disturb imports: the importing side of a run is a run of the imports alone |
| QrProxy.Append | source/cmd/qrproxy/main.go:49 | Go's append: in place when there is room, otherwise a fresh array |
| QrProxy.WithoutMiddle | source/cmd/qrproxy/main.go:49 | with the clipped slice, append never writes into the receipt |
| QrProxy.CutCommand | source/cmd/qrproxy/main.go:44-54 | command line and rest, as slices over the receipt's array or a fresh one |
| QrProxy.ParseCommand | source/cmd/qrproxy/main.go:38-61 | the result is that of parsing the text; the receipt's bytes are not written; the result shares the receipt's array exactly unless text follows the command line |
| QrProxy.TagStartsHere | source/cmd/qrproxy/main.go:40 | the tag has no self-overlap, so text before it cannot make it start earlier |
| QrProxy.CutIsParsed | source/cmd/qrproxy/main.go:44-61 | whatever the pieces of a receipt, exactly the first command line and its newline go |
| QrProxy.EveryReceiptIsCut | source/cmd/qrproxy/main.go:38-61 | every receipt with a tag splits in that way; without one nothing changes |
| QrProxy.ParsePrinted | source/cmd/qrproxy/main.go:38-61 | parsing a printed command gives back command, argument and the receipt without it |
| QrProxy.LineIsSplit | source/cmd/qrproxy/main.go:56-59 | in a command line a blank ends the command; white space before it, behind it and at the end does not matter |
| QrProxy.BareLineIsSplit | source/cmd/qrproxy/main.go:56-60 | a command without an argument, however it is spaced |
| QrProxy.WhenACommandRemains | source/cmd/qrproxy/main.go:49 | for every cut receipt: what is left holds another tag if and only if what followed the command line does or the cut joined the halves of one |
| QrProxy.HalvesMakeACommand | source/cmd/qrproxy/main.go:49 | the joined case occurs around any first command |
| QrProxy.ParseQRPayArgs | source/cmd/qrproxy/main.go:16-36 | the loop over key, amount and ref computes the scan of the fields |
| QrProxy.PayArgsExact | source/cmd/qrproxy/main.go:16-36 | for any argument: amount and reference are what the last words say that belong to them, where a word belongs to the last field named up to it |
| GoStrings.FieldsFindWords | source/cmd/qrproxy/main.go:18 | Fields gives back the words of a text however they are spaced |
| QrProxy.PaymentRecovered | source/cmd/qrproxy/main.go:16-36 | in either field order, any spacing, with or without a space after each colon, amount and reference come back if and only if no value standing apart looks like a field itself |
| QrProxy.Dispatch | source/cmd/qrproxy/main.go:136-158 | the loop of main performs the effects of the receipts in order, up to a restart |
| QrProxy.ServedInPlace | source/cmd/qrproxy/main.go:138-158 | what is done for a receipt that comes before any restart stands in its place in the order of the receipts |
| QrProxy.PrintedIsHandled | source/cmd/qrproxy/main.go:144-156 | for every command: what is printed, published, with which confirmation, or that the process ends; without an amount nothing is published |
| QrProxy.PlainIsHandled | source/cmd/qrproxy/main.go:144-156 | a receipt without a command is printed as it is |
| QrProxy.PaymentIsServed | source/cmd/qrproxy/main.go:144-172 | among any other receipts, unless a restart comes first: a printed payment is published in its place with a point for every comma of its amount and its reference, for QR_PAY alone and polled, for RECIEPT behind the text and not polled |
| QrProxy.HandedOverInOrder | source/cmd/qrproxy/main.go:140-156 | every receipt before a restart is handed to the printer's channel once, in order, without its command, unless it only asks for a payment |
| ReceiptFlow.LostOnTheWay | source/cmd/qrproxy/main.go:120-158 | in every interleaving main has done for the receipts it took what they ask for, payments included, in order; and the texts to be printed of the receipts accepted are, in order, those relayed, at most nine behind `main`, that of the receipt in hand, and those of at most sixteen receipts before `main`; when a restart or a shutdown has ended the process there is none in hand, and the rest is lost |
| ReceiptFlow.AtRest | source/cmd/qrproxy/main.go:138-158 | when nobody can move any more, everything has been done and printed, or a restart or shutdown has ended the process, or a shutdown hangs |
| ReceiptFlow.MovesRunOut | source/cmd/qrproxy/main.go:63-158 | every move uses up a finite measure, so every run comes to rest |
| ReceiptFlow.HungStays | source/cmd/qrproxy/main.go:148-155 | a process that hangs does so for good |
| ReceiptFlow.ShutdownMayLoseAll | source/cmd/qrproxy/main.go:140-142 | a shutdown can lose every text that fits the printer's queue and sixteen receipts more |
| ReceiptFlow.RestartMayLoseAll | source/cmd/qrproxy/main.go:151-153 | so can a restart |
| ReceiptFlow.ShutdownCanHangExactly | source/cmd/qrproxy/printer.go:13-22 | some run hangs after a signal if and only if more than eight texts are to be printed before any restart |
| QrProxy.PaymentReachesTerminal | source/cmd/qrproxy/main.go:141-170 | a payment printed on a receipt is published with its dotted amount and reference, polled for QR_PAY, printed first and not polled for RECIEPT |
| MdbProjection.RequiredMap | source/cmd/catalog_service/mdb_to_csv.sh:24-28 | the map from normalised to original names, both ways |
| MdbProjection.FindColumns | source/cmd/catalog_service/mdb_to_csv.sh:30-39 | the found indices are exactly those of the last header cell of each required name |
| MdbProjection.AbortsExactly | source/cmd/catalog_service/mdb_to_csv.sh:2-41 | the script gives up without naming a column exactly if the header names none of the six |
| MdbProjection.CountingFindsMissing | source/cmd/catalog_service/mdb_to_csv.sh:41 | where the number of entries can be asked for, comparing it detects exactly a missing column |
| MdbProjection.ReportMissing | source/cmd/catalog_service/mdb_to_csv.sh:42-48 | the columns named in the error are the missing ones, in order |
| MdbProjection.ToCsv | source/cmd/catalog_service/mdb_to_csv.sh:15-66 | the script computes the projection of the exported lines, with its three ways of giving up |
| MdbProjection.ScriptExact | source/cmd/catalog_service/mdb_to_csv.sh:15-66 | for any export: the empty one, a header that names none of the six columns, one that names some (exactly the others are reported, in order), and otherwise the line `Nazev;EAN;ProdejDPH;MJ2;MJ2Koef;StavZ` and one row for every line |
| MdbProjection.OutRowIs | source/cmd/catalog_service/mdb_to_csv.sh:59-66 | an output row is the six cells with the third, fifth and sixth in quotes |
| MdbProjection.NamedExact | source/cmd/catalog_service/mdb_to_csv.sh:33-39 | a column's cell is the one under the last header cell that names it, empty in a row that ends before it |
| MdbProjection.NormalStep | source/cmd/catalog_service/mdb_to_csv.sh:34 | names are compared without quotes and blanks and without regard to case |
| MdbProjection.RequiredInLowerCase | source/cmd/catalog_service/mdb_to_csv.sh:25-28 | the six names in the form in which cells are compared with them |
| MdbProjection.RowsReadBack | source/cmd/catalog_service/mdb_to_csv.sh:56-66 | every output row splits into the six cells in the fixed order |
| MdbProjection.NamedIsCellBelow | source/cmd/catalog_service/mdb_to_csv.sh:33-39 | a name that occurs once stands for the cell under it |
| MdbProjection.ColumnOrderDoesNotMatter | source/cmd/catalog_service/mdb_to_csv.sh:30-66 | permuting header and rows alike leaves the output, or the error, unchanged if no required name occurs twice or one is missing |
| MdbProjection.ColumnOrderMatters | source/cmd/catalog_service/mdb_to_csv.sh:33-39 | otherwise there is a table and a permutation that change the output |
| MdbProjection.ColumnOrderMattersExactly | source/cmd/catalog_service/mdb_to_csv.sh:30-66 | the script is independent of the column order if and only if no required name occurs twice in the header or one is missing from it |
| MdbProjection.ColumnsReachProduct | source/internal/catalog/parser.go:42-59 | a written row, read with its quotes taken off, becomes the product whose fields are the trimmed contents of the cells under the six names |
| MdbProjection.RowIsRead | source/internal/catalog/parser.go:19-22 | the reader gets six fields out of every such row |

## Left out

- MQTT client, TLS, HTTP server, command line and signals: only their effect is kept, as messages that arrive or do not, publishes that fail, and contexts that end.
- The firmware receiver: only its frames, its reports and the honesty assumption appear.
- Database engine, gzip, SHA-256, random session bytes, `mdb-export`, `encoding/csv` and the diacritics library: foreign code, represented by what they may return. Of the CSV reader, `MdbProjection.ReadField` models the treatment of quotes in one field, for the rows in question.
- Clock time: timeouts, deadlines and the discovery window are events that may come at any moment.
- Progress printing and its percentages, `validateOTAConfig`, `firmwareLooksSigned`, `otaStatusError`'s wording, configuration, the printer device, and how `runSocketListener` collects one receipt's bytes: single-branch code or plumbing.
- Integer widths: Go's 64-bit `int` is unbounded here. The 32-bit offset and 16-bit length of a frame do wrap, as in the code.
- Goroutines are modelled as steps on values, not as classes: which fields of `importRunner` and of the channels change in place is not captured, only what every interleaving of the steps can reach.
- A parser that outlives its import inside the service: it holds no slot and touches no database, so `ImportService` follows it only until its import has returned; what becomes of it is `PipelineFairness.ParserLeftBlocked`.
- OtaLiveness.PacedUploadSucceeds: proved for full reads and publishes that succeed; a failed publish ends the upload by design.
- OtaBroadcast.NobodyFallsBehind: proved for full reads; short reads may skip a barrier, and what then still holds is `OtaBroadcast.UploadAllIsSafe`.
- MdbProjection.ColumnsReachProduct: for cells whose quotes, if any, stand around the whole text; with quotes inside a cell, what `encoding/csv` makes of them is its own affair.
- The end of the catalogue service's process: `main` does not wait for a running worker, which then ends in the middle of whatever it does; temporary files it has made stay.
- An upload that cannot be saved: `saveUpload` then removes its own file, and no request reaches the runner.
- SQL types and constraints, and the name space that tables share with indexes.
- The shell's treatment of header cells named `@` or `*` as array subscripts.
- JSON encoding of messages and replies.
