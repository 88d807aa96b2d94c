# Tracoor, modelled and verified in Dafny

Tracoor captures Ethereum beacon and execution data. Agents beside the nodes copy states, blocks,
traces and invalid objects into a store and record them in a shared index; servers keep the index
and coordinate through a lease lock in the database; a web page browses the result.

This project models the parts of Tracoor that have the most state and the most edge cases, and
proves what they promise. `dafny verify dfyconfig.toml` checks it. Nothing here runs Tracoor.

| module | what it models |
|---|---|
| LockTable, LockRuns | the lease lock: the table and its three operations, then every interleaving of its clients |
| Uint64, AgeGates, QueueRuns | the wrapping age gates; the state and block queues with their workers, handlers and reorg loop |
| Capture, CapturePasses, CaptureRuns, CaptureSchedules | capture of one object, sweeps over bad files, bad-block lists; then the six workers call by call, in every interleaving and with any failures; and that the former are runs of the latter |
| Decimal, Paths, Locations, FileNames | the printers of store locations and the readers of clients' file names |
| FileStore, ObjectNames | the file-system store against a map; the headers of presigned URLs |
| Arithmetic, Calendar, Timestamps, StateFilter, Listing, Pages, Distinct | the queries: printed times, filters, pages, page window, distinct values |

Code that changes things step by step (lock.go, the queues, the agent, the file store, the scan, the
page window) is a class or a method with a loop, proved equal to a specification function; the
theorems are about those functions and about runs of them.

## Assumptions

- Lock: one clock shared by all clients that never goes back; a transaction is one atomic step, and a
  failing statement rolls all of it back; instants are integers.
- Agent: one worker per kind (`pkg/agent/agent.go:121-122` and `:186-189`), so an agent handles one object
  of a kind at a time while the kinds, new files and other agents interleave freely; other agents have
  other node names. Calls on the store, the index and the nodes succeed, fail, or (save, create) take
  effect and then report an error; none takes effect after its worker has moved on.
- Nobody but the agent removes bad files, and nobody purges index records or stored objects during a run.
- The index answers a lookup as `pkg/server/service/indexer/indexer.go:779-817` and `:1029-1078` do:
  an empty or zero request field does not restrict anything.
- Database: a listing is one fixed order, ties included; `fetched_at` is kept to the microsecond and
  compares as its printed text or as its instant, which the timestamp theorem shows to be the same.

## What the proofs found

- Near genesis, while the clock is below the tolerance, the age gate wraps and accepts slots at the top of
  the uint64 range. It is the intended window exactly from the moment the clock has passed the tolerance
  (`GateIsAWindowIff`), and that is also exactly when no queued request can be ahead of the clock (`NeverAheadIff`).
- Bad blocks of Lighthouse and Nimbus are never picked up. Their patterns have two groups, the guard at
  `pkg/agent/consensus.go:296` asks for one, and the test for a second group at line 313 is inside it
  (`LighthouseFilesFallThrough`, `NimbusFilesFallThrough`, `OnlyPrysmBlocksArePickedUp`).
- A bad file for slot 0 can be deleted without a record of its own: the lookup's slot 0 means "any slot"
  to the index. No other slot is affected (`NoLossIff`).
- Node names of several path segments can make one object's location the directory of another's, and
  then the second save fails: exactly when one name goes on where the location stops
  (`LocationIsADirectoryIff`). Tokens collide as soon as one name lies above another, and only then is the
  store not a map (`AgentStoreIsAMapIff`).
- `EnsureDir` swallows the error of a file in the way and leaves it to the write to fail, and the file
  store's existence check answers "yes" for directories; neither shows on the locations agents use.
- A page number left over from a longer listing can make the page window hide a single page, or end in an
  ellipsis: exactly if it is beyond 5 and more than one beyond a total below 4 (`EllipsesHideTwoIff`).
- The grouped form of the distinct query loses tuples exactly when there are more than 1000 (`GroupedIsCompleteIff`).
- `RemoveExtension` undoes `AddExtension` exactly for names without the extension (`RemoveUndoesAdd`).

## Model

| member | source | states |
|---|---|---|
| LockTable.DeleteExpiredKeeps | pkg/server/persistence/lock.go:140-152 | a cleanup keeps a row, live or soft-deleted, just when its expiry has not passed |
| LockTable.Insert | pkg/server/persistence/lock.go:16 | the unique index lets a row in just when no row at all, soft-deleted ones included, has its key |
| LockTable.CleanupIsInvisible | pkg/server/persistence/lock.go:140-152 | a cleanup at t changes nothing that any instant from t on can see of any key |
| LockTable.ReleaseEffect | pkg/server/persistence/lock.go:116-137 | a release frees its key if the caller held it, touches no other key, and keeps one row per key |
| LockTable.ReleaseWithoutLeaseIsNoOp | pkg/server/persistence/lock.go:116-129 | a release by an owner who has lost the key leaves the table as it was |
| LockTable.TransactKeepsUnique | pkg/server/persistence/lock.go:38-95 | the transaction keeps one row per key, and neither of its two creates can hit the unique index |
| LockTable.TransactEffect | pkg/server/persistence/lock.go:38-95 | the transaction wins just when nobody else has an unexpired lease and no statement fails; a win replaces the lease of its key and of no other, a loss names the holder and changes nothing |
| LockTable.CleanupIsAStutter | pkg/server/persistence/lock.go:24-95 | an acquire has the same outcome, the same new lease and the same visible table with or without an earlier cleanup |
| LockTable.AcquireEffect | pkg/server/persistence/lock.go:23-113 | a whole acquire in terms of the table before its own cleanup: when it wins, what it leaves, and that other keys look the same |
| LockTable.AcquireSweeps | pkg/server/persistence/lock.go:23-67 | of every other key an acquire leaves just the rows not expired at its sweep, soft-deleted ones included, and of its own key nothing expired but its own lease |
| LockTable.LockIndexer.CleanupExpiredLocks | pkg/server/persistence/lock.go:140-152 | the method leaves the specified rows and keeps one row per key |
| LockTable.LockIndexer.RunTransaction | pkg/server/persistence/lock.go:38-95 | row by row, the method's table and outcome are those of the specified transaction |
| LockTable.LockIndexer.AcquireLock | pkg/server/persistence/lock.go:23-113 | the three clock readings in order give the specified acquire, with the expiry taken before the transaction |
| LockTable.LockIndexer.ReleaseLock | pkg/server/persistence/lock.go:116-137 | the method soft-deletes just the caller's live row, and an error changes nothing |
| LockRuns.TableInvariant | pkg/server/persistence/lock.go:16-152 | in every interleaving at most one row per key, live or soft-deleted |
| LockRuns.UniqueIndexNeverFires | pkg/server/persistence/lock.go:42-67 | in every interleaving no transaction is refused by the unique index |
| LockRuns.WinHistory | pkg/server/persistence/lock.go:23-35 | every win was begun with its key and owner, swept, then stamped, and its expiry is the time to live counted from the stamp, so never more than that from the win |
| LockRuns.AcquireIsARun | pkg/server/persistence/lock.go:23-113 | a call begun, swept, stamped and committed with nobody in between leaves the table of the uninterrupted acquire, for any clock readings; it wins just when no other owner has an unexpired lease, is told so, and is over |
| LockRuns.FailedCleanupIsARun | pkg/server/persistence/lock.go:24-27 | a call whose cleanup fails ends there and changes nothing |
| LockRuns.ReleaseIsARun | pkg/server/persistence/lock.go:116-137 | a release takes effect unless it is refused, frees the key of its owner and of nobody else, and its owner hears of it just if answered |
| LockRuns.ClockMoves | pkg/server/persistence/lock.go:30-70 | the clock reaches every later instant, and only the clock moves |
| LockRuns.StepRefines | pkg/server/persistence/lock.go:23-152 | every step of the table, answered, failed or with its answer lost, is that step of an abstract map from keys to leases without rows, soft deletes or cleanup, with the same event |
| LockRuns.RunRefines | pkg/server/persistence/lock.go:23-152 | the same along whole runs, from the empty table |
| LockRuns.HolderIsClaimant | pkg/server/persistence/lock.go:23-137 | in every reachable state the table's holder of a key is exactly the owner whose own calls that took effect say so, as long as the clock has not passed its expiry |
| LockRuns.AtMostOneClaimant | pkg/server/persistence/lock.go:23-137 | two owners never both have an unexpired claim on a key |
| LockRuns.WinIsKept | pkg/server/persistence/lock.go:23-137 | until its expiry a winner holds the key at least that long, unless it released it or itself shortened the lease since, heard of or not |
| LockRuns.MutualExclusion | pkg/server/persistence/lock.go:23-113 | after A wins with expiry e, another owner can win the key only after e, unless A released it or itself shortened the lease in between; answers may be lost throughout |
| LockRuns.WinsExactlyWhenUnclaimed | pkg/server/persistence/lock.go:42-94 | a transaction that reaches the database wins just when no other owner has an unexpired claim, so a released or expired key goes to the next try; AcquireIsARun gets there |
| AgeGates.GateAccepts | pkg/agent/ethereum/node.go:89-102 | the accepted slots for every clock, tolerance and slot, wrap-around included |
| AgeGates.GateIsAWindowIff | pkg/agent/ethereum/node.go:89-102 | the gate is the window [current - tolerance, current] exactly when tolerance <= current |
| AgeGates.TooOldIff | pkg/agent/queue.go:110-118 | for a target not ahead of the clock the unsigned epoch age is the true one |
| QueueRuns.RunReorgLoop | pkg/agent/agent.go:245-250 | the loop ends for all uint64 slots and sends exactly the specified program |
| QueueRuns.QueueConservation | pkg/agent/queue.go:34-52 | at every step of every run, sent = handled, then in flight, then pending, in order, with at most 1000 pending |
| QueueRuns.DeliverIff | pkg/agent/agent.go:89-90 | a handler's next send goes through just when its queue has fewer than 1000 requests, and otherwise waits |
| QueueRuns.TakeTakesTheOldest | pkg/agent/queue.go:98-98 | a worker that waits takes the oldest request |
| QueueRuns.HandleGoesOn | pkg/agent/queue.go:98-131 | with a working clock, and for blocks in any case, the request in flight is appended to what is done, and the worker goes on |
| QueueRuns.HandleFetchesIff | pkg/agent/queue.go:103-123 | it is fetched just when it is a block, or its unsigned age is within the threshold |
| QueueRuns.HandleWithoutAClock | pkg/agent/queue.go:103-108 | without a clock the state worker returns with the request in its hands |
| QueueRuns.StoppedIff | pkg/agent/queue.go:103-108 | in every run the state worker has stopped just when the clock has failed it before, with a request in flight |
| QueueRuns.RemainingIsTheRest | pkg/agent/agent.go:203-250 | in every run a handler works through its program in order |
| QueueRuns.ProgramOrder | pkg/agent/agent.go:215-250 | with both features on, each slot goes to the state queue first and then to the block queue |
| QueueRuns.ClockMoves | pkg/agent/queue.go:103-103 | the clock reaches every later slot, and only the clock moves |
| QueueRuns.AlwaysOnTrack | pkg/agent/agent.go:203-250 | whatever interleaves, what a handler has sent to a queue followed by what it still will is its whole program for that queue |
| QueueRuns.ReorgSlots | pkg/agent/agent.go:245-250 | the reorg program names each slot of [reorg slot, head) once, ascending, on each enabled queue, and nothing on a disabled one |
| QueueRuns.ReorgCoverage | pkg/agent/agent.go:239-250 | in every run a reorg handler's enqueued slots are an initial part of that range, and all of it once it has finished |
| QueueRuns.BlockCoverage | pkg/agent/agent.go:203-219 | in every run a block event's handler enqueues its slot once on each enabled queue, and nothing else |
| QueueRuns.EventTakenUpIff | pkg/agent/agent.go:203-250 | at any time a block event is taken up just when the wrapping gate accepts its slot, a reorg always, and its handler starts with its whole program |
| QueueRuns.EventsTakenUp | pkg/agent/agent.go:203-250 | in runs past the tolerance a block event is taken up just when its slot is in the window, and a reorg always, with the clock's slot as its head |
| QueueRuns.BlocksAreAlwaysFetched | pkg/agent/queue.go:133-158 | in every run the block worker fetches all it is given and never stops |
| QueueRuns.NeverAhead | pkg/agent/agent.go:203-250 | once the clock has passed the tolerance, nothing queued or still to be sent is ever ahead of it |
| QueueRuns.WorkerFetchesByTrueAge | pkg/agent/queue.go:98-118 | in such runs every request the state worker decides has a true age that is not negative, and is fetched just when it is within the threshold |
| QueueRuns.NeverAheadIff | pkg/agent/ethereum/node.go:89-102 | the bound on the start is exact: in all runs nothing is ahead of the clock just when the clock starts past the tolerance, or neither states nor blocks are fetched |
| QueueRuns.AgentQueue.Enqueue | pkg/agent/queue.go:34-52 | a send goes through just when the feature is on and fewer than 1000 requests wait; it appends one request and changes nothing else |
| QueueRuns.AgentQueue.ProcessNext | pkg/agent/queue.go:98-131 | one turn takes the oldest request; with a working clock it is done with and the worker goes on, and only a failed clock stops the state worker, with the request in its hands |
| Capture.Agent.CaptureOne | pkg/agent/consensus.go:24-140 | look up, fetch, save and create one after the other, with the early returns, leave exactly the specified store, index, files and outcome, for any failures |
| Capture.Agent.HandleFile | pkg/agent/consensus.go:317-454 | one matched file is handled and then removed exactly as specified, outcome included |
| Capture.Agent.SweepDirectory | pkg/agent/consensus.go:294-456 | the loop over the listing, with its continues and its one early end, leaves exactly what the specified pass leaves |
| Capture.Agent.IndexExecutionBadBlocks | pkg/agent/execution.go:99-115 | the loop leaves exactly what handling every listed block in order leaves, whatever happens to the others |
| CapturePasses.FileItemIff | pkg/agent/consensus.go:252-315 | which names a sweep picks up, and as which object, exactly: node, network, root, slot and index in their places |
| CapturePasses.BlobFilesAreRead | pkg/agent/consensus.go:499-568 | every blob file is handled as the root, slot and index its name is made of |
| CapturePasses.BlockFilesAreRead | pkg/agent/consensus.go:294-353 | every block file is handled as the slot its name is made of, with the root unknown |
| CapturePasses.SameKeyIff | pkg/agent/execution.go:24-28 | objects are the same to the index just when kind, node, network and root agree, for beacon objects also the slot, and for blobs the index |
| CapturePasses.MatchesIffSameKey | pkg/agent/consensus.go:348-353 | a lookup with all fields set is answered by exactly the records of its key |
| CapturePasses.SlotZeroMatchesAll | pkg/server/service/indexer/indexer.go:779-781 | a beacon lookup for slot zero is answered by any slot |
| CapturePasses.CaptureEffect | pkg/agent/consensus.go:24-140 | every effect of handling one object on store, index, saves and lookups, for all combinations of failures |
| CapturePasses.CaptureOutcome | pkg/agent/consensus.go:345-442 | which failures end in which outcome; only a compression error aborts |
| CapturePasses.SweepFileEffect | pkg/agent/consensus.go:344-452 | a file is removed just when its object was found or recorded without an error, and the removal does not fail |
| CapturePasses.CaptureIndex | pkg/agent/consensus.go:142-250 | a capture adds at most one record, only after a lookup that failed or found nothing, and for execution bad blocks never after one that failed |
| CaptureRuns.NotFoundMeansNone | pkg/agent/execution.go:123-143 | a lookup that finds nothing proves that the index has no record of that key, its own filter's gaps notwithstanding |
| CaptureRuns.NextBalanced | pkg/agent/consensus.go:45-128 | every single call of a worker keeps the duplicate bound, the object on its way included |
| CaptureRuns.DuplicateBound | pkg/agent/execution.go:24-143 | at every step of every interleaving of the six workers and of other agents: records of a key plus the one on its way are at most one for an execution bad block, and at most one more than the failed lookups for any other object, even when creates take effect and report errors |
| CaptureRuns.StoreBeforeIndex | pkg/agent/consensus.go:94-130 | at every step, for all six kinds: every record of the agent points at a location saved for that object, every object about to be recorded has been saved, and the store still holds it there |
| CaptureRuns.SavedEarlier | pkg/agent/consensus.go:94-107 | a worker about to record its object has seen the save of that object succeed at an earlier step |
| CaptureRuns.RecordHistory | pkg/agent/consensus.go:94-130 | behind every record of the agent there are a successful save of that object and, after it, a create, and the record has its location |
| CaptureRuns.LegalIsWellNamed | pkg/agent/consensus.go:299-343 | what is read out of a listed file name is fit for a location, for an agent with clean names |
| CaptureRuns.RestartIsSound | pkg/agent/agent.go:180-190 | an agent that stops anywhere and starts again keeps all that the theorems need |
| CaptureRuns.NoFileIsLost | pkg/agent/consensus.go:499-679 | over any interleaving with any failures, every bad block or blob file a sweep can read, of any slot, is on disk or the index answers a lookup for it |
| CaptureRuns.NextKeeps | pkg/agent/consensus.go:444-454 | one step removes a file only when the index already answers a lookup for it |
| CaptureRuns.NoLoss | pkg/agent/consensus.go:294-456 | with a non-zero slot that answer is a record of the file's own key |
| CaptureSchedules.NoLossIff | pkg/agent/consensus.go:348-369 | from fresh starts, every run keeps a file or a record of its key exactly when its slot is not zero; the losing run sweeps the slot-one file of the same root first |
| CaptureRuns.UnmatchedFilesStay | pkg/agent/consensus.go:295-307 | files no sweep can read a slot from survive every interleaving |
| CaptureSchedules.HandlingIsARun | pkg/agent/consensus.go:344-452 | the uninterrupted handling of one object, with any failures, is one run of its worker's single calls |
| CaptureSchedules.PassIsARun | pkg/agent/consensus.go:294-456 | so is a whole pass over a directory listing, early end included |
| CaptureSchedules.ListIsARun | pkg/agent/execution.go:99-115 | and the handling of a list of execution bad blocks |
| CapturePasses.SweepFileKeeps | pkg/agent/consensus.go:499-679 | handling one file, of any slot, removes it only if the index then answers a lookup for it, and removes no other file |
| CapturePasses.PassReachesFile | pkg/agent/consensus.go:294-456 | no failure on other files, but for compression errors, keeps a pass from taking a file handled without failures |
| CapturePasses.CompressionErrorEndsPass | pkg/agent/consensus.go:374-377 | a compression error ends the pass before the files behind it |
| CapturePasses.CleanPassDrains | pkg/agent/consensus.go:294-456 | a pass in which nothing fails takes every listed file it can read |
| CapturePasses.CleanCapture | pkg/agent/consensus.go:44-140 | without failures an object ends up in the index, and unless it was found there it is saved at its location and recorded once |
| CapturePasses.CleanListIsRecorded | pkg/agent/execution.go:99-143 | a bad block handled without failures has a record with its node, network and hash, whatever happens to the rest of the list |
| Decimal.ParsePrint | pkg/agent/consensus.go:299 | parsing a printed uint64 gives it back |
| Decimal.PrintIsDecimal | pkg/agent/path.go:20 | numbers print in ten digits, most significant first |
| Paths.PathJoinAround | pkg/agent/path.go:16-23 | path.Join keeps clean segments apart and in order, also when one element spans several |
| Paths.ParentTakesBack | pkg/agent/path.go:16-23 | a parent step takes back the segment before it |
| Paths.PathJoinResolves | pkg/store/fs.go:279-302 | joining and cleaning in two rounds or in one names the same path, whatever the second element |
| Locations.SplitLocation | pkg/agent/path.go:10-103 | a location splits into exactly its kind's segments, in order |
| Locations.LocationSpelled | pkg/agent/path.go:10-103 | the location of each kind written out, with its folder, slots or blocks, and its extension |
| Locations.ParseLocationRoundTrip | pkg/agent/path.go:10-103 | every location, of all six kinds and for nodes of any number of clean segments, reads back as what it was printed for |
| Locations.LocationInjective | pkg/agent/path.go:10-103 | different objects have different locations |
| Locations.NoLocationIsADirectory | pkg/agent/path.go:10-103 | if neither node name lies above the other, as one-segment names never do, no location is equal to or above another object's |
| Locations.LocationIsADirectoryIff | pkg/agent/path.go:10-103 | an object's location is a directory that another node's objects need exactly when that node's name goes on with what the location has behind its own node, extension included |
| Locations.LocationCanBeADirectory | pkg/agent/path.go:10-24 | with longer nodes one can be |
| FileNames.BlobSubmatchesIff | pkg/agent/consensus.go:466 | the blob pattern cuts a name in at most one way, and the cut at the last two underscores finds it |
| FileNames.ParseBlobFileIff | pkg/agent/consensus.go:499-526 | what is read out of a blob name, exactly |
| FileNames.BlobFileRoundTrip | pkg/agent/consensus.go:499-526 | every blob name reads back as its root, slot and index, roots with underscores and digits included |
| FileNames.OnlyPrysmBlocksArePickedUp | pkg/agent/consensus.go:252-315 | a name is taken for a bad block just when the client is Prysm and it is beacon_block_ with a slot; the root is always unknown |
| FileNames.LighthouseFilesFallThrough | pkg/agent/consensus.go:256-296 | a Lighthouse name matches its pattern with two groups and is passed over |
| FileNames.NimbusFilesFallThrough | pkg/agent/consensus.go:258-296 | so is a Nimbus name |
| FileStore.TokenPathsAgree | pkg/store/fs.go:279-310 | for every node the token's existence check looks where saving and reading put it |
| FileStore.StepRefines | pkg/store/fs.go:52-129 | on clean locations none of which is above another, one operation on the tree gives the map's result and keeps representing the map, all other locations and tokens included |
| FileStore.RunRefines | pkg/store/fs.go:52-129 | so does every sequence of operations |
| FileStore.NestedSavesFail | pkg/store/fs.go:63-84 | saving below an existing object fails where the map would not |
| FileStore.StoreIsAMapIff | pkg/store/fs.go:52-129 | over a set of clean locations the store is a map exactly when no location is above another |
| FileStore.AgentStoreIsAMapIff | pkg/store/fs.go:52-336 | for any set of clean node names the store is a map on all their objects and tokens, for every sequence of operations, exactly when no name lies above another |
| FileStore.AgentStoreIsAMap | pkg/store/fs.go:52-336 | so with one-segment names it always is |
| FileStore.FSStore.EnsureParents | pkg/store/fs.go:63-72 | the directories on the way exist afterwards, unless a file is in the way, and then nothing changes |
| FileStore.FSStore.SaveFile | pkg/store/fs.go:74-84 | the tree and the error of a write are as specified |
| FileStore.FSStore.SaveObject | pkg/store/fs.go:103-112 | saving by location is the specified step, and on the store's locations the map gains exactly that entry |
| FileStore.FSStore.GetObject | pkg/store/fs.go:114-118 | reading gives what the map holds |
| FileStore.FSStore.ObjectExists | pkg/store/fs.go:52-61 | the existence check says whether the map has the location |
| FileStore.FSStore.DeleteObject | pkg/store/fs.go:124-129 | deleting is the specified step, which also takes an empty directory; on the store's locations the map loses exactly that entry, or nothing and an error |
| FileStore.FSStore.CopyObject | pkg/store/fs.go:312-336 | copying is the specified step, which creates the destination's directories before it reads; on the store's locations it is the map's copy |
| FileStore.FSStore.SaveStorageHandshakeToken | pkg/store/fs.go:290-299 | saving a token adds its entry to the map |
| FileStore.FSStore.GetStorageHandshakeToken | pkg/store/fs.go:301-310 | reading a token gives what the map holds for it |
| FileStore.FSStore.StorageHandshakeTokenExists | pkg/store/fs.go:279-288 | its existence check says whether the map has it |
| ObjectNames.RemoveUndoesAdd | pkg/compression/compressor.go:107-122 | removing undoes adding exactly for names without the extension |
| ObjectNames.TailSuffix | pkg/compression/compressor.go:116-122 | removing the extension and taking the base name commute: a slash-free ending is one of the path just when it is one of its last element |
| ObjectNames.OldAndNewAgreeIff | pkg/store/s3.go:246-290 | for every location: when an old location without an encoding gets the headers of the new one with gzip |
| ObjectNames.StoredLocationsAgree | pkg/store/s3.go:246-290 | they agree for every location ending in .json or .ssz, and the headers name the right type, file and encoding |
| ObjectNames.PlainLocationHeaders | pkg/store/s3.go:249-290 | a .json or .ssz location gets its own type and name, and the encoding that was given, or none |
| ObjectNames.TypeOfExtensionIff | pkg/mime/content_type.go:25-41 | the content type of every extension, with or without its dot |
| Calendar.MonthTable | pkg/server/persistence/util.go:27 | the days before each month, written out, with one more from March on in a leap year |
| Calendar.DaysBeforeYearClosed | pkg/server/persistence/util.go:27 | the days before a year: 365 each and one for every fourth year, not for centuries, but for every fourth of those |
| Calendar.DateOf | pkg/server/persistence/util.go:27 | every day number has a valid date that numbers back to it |
| Calendar.DateRoundTrip | pkg/server/persistence/util.go:27 | the date of a date's number is that date |
| Calendar.DatesKeepOrder | pkg/server/persistence/util.go:27 | later days have later dates, and equal dates are equal days |
| Timestamps.LayoutKeepsOrder | pkg/server/persistence/util.go:27 | texts of fixed-width fields compare as their fields do, for every layout |
| Timestamps.FormatKeepsOrder | pkg/server/persistence/util.go:27 | texts of two instants in the years 0 to 9999 compare as the instants do, and are equal only for equal ones |
| Timestamps.FieldsOfParts | pkg/server/persistence/util.go:27 | the fields printed for an instant are the date and the time of day it is made of |
| Timestamps.ReferenceText | pkg/server/persistence/util.go:27 | January 2nd 2006, 15:04:05 prints as the layout itself, every literal included |
| Timestamps.BoundsKeepOrder | pkg/server/persistence/util.go:26-28 | printed bounds compare as the times cut to the second |
| Timestamps.TruncateToSecond | pkg/server/persistence/util.go:27 | cutting gives the last whole second not after the time |
| Timestamps.BoundHasNoFraction | pkg/server/persistence/util.go:27 | bounds are printed with a zero fraction |
| Timestamps.BoundIsItsSecond | pkg/server/persistence/beacon_state.go:115-121 | against a row's time a printed bound stands exactly for the start of its second, in both directions |
| StateFilter.ClausesMeanTheFilter | pkg/server/persistence/beacon_state.go:106-152 | the clauses let a row through just when every field set equals its own column and both bounds hold to the second |
| StateFilter.BeforeNeverAdmitsLater | pkg/server/persistence/beacon_state.go:115-117 | no row later than its bound gets through a Before filter |
| StateFilter.AfterNeverDrops | pkg/server/persistence/beacon_state.go:119-121 | for a row at or after its bound the After clause changes nothing |
| StateFilter.CutIsWithinOneSecond | pkg/server/persistence/beacon_state.go:115-121 | which rows of the bound's own second a Before filter loses and an After filter lets through early |
| StateFilter.PagedStatesMatchTheFilter | pkg/server/persistence/beacon_state.go:180-236 | the pages sized by the count show every matching row as often as the table has it, and nothing else |
| Listing.PagesPartitionTheListing | pkg/server/persistence/pagination.go:19-25 | pages 1 to ceil(count / limit), one after the other, are exactly the listing |
| Listing.NoLimit | pkg/server/persistence/pagination.go:19-25 | a limit of zero gives everything from the offset on |
| Listing.PageSizes | web/src/components/BeaconStateTable.tsx:77-96 | all pages but the last are full, the last is not empty, and behind it there is nothing |
| Listing.TotalPagesBounds | web/src/components/BeaconStateTable.tsx:96 | that many pages are enough, and one fewer is not |
| Listing.PagesCoverTheCount | web/src/components/BeaconStateTable.tsx:67-96 | the count request and the list requests agree on an unchanged table, whatever the order |
| Pages.GeneratePageNumbers | web/src/components/Pagination.tsx:4-46 | the pushes and the loop give the specified window for any two numbers |
| Pages.WindowExpands | web/src/components/Pagination.tsx:4-46 | with each ellipsis replaced by the pages between its neighbours the window is exactly 1 to total |
| Pages.NearbyPagesAreShown | web/src/components/Pagination.tsx:9-33 | every page within two of the current one is shown |
| Pages.PageIsShownIff | web/src/components/Pagination.tsx:9-43 | which pages are shown: the ends, two on each side of the current one, and a page that would be hidden alone |
| Pages.EllipsesHideTwoIff | web/src/components/Pagination.tsx:9-42 | for every page number from 1 and every total from 0: each ellipsis lies between two pages and hides at least two, exactly when the page is at most 5, or at most one beyond the total, or the total is at least 4 |
| Pages.WindowIsShort | web/src/components/Pagination.tsx:4-46 | at most nine entries |
| Pages.KeysAreDistinct | web/src/components/Pagination.tsx:13-42 | no two entries share a key |
| Pages.StaleWindow | web/src/components/Pagination.tsx:10-42 | in every other case the window is a first page, an ellipsis and at most one more page, and the ellipsis is wrong |
| Pages.StaleCurrentPage | web/src/components/Pagination.tsx:10-23 | page 10 of 3 is such a case |
| Pages.ButtonsReachEveryPage | web/src/components/Pagination.tsx:63-114 | Previous and Next stay in range and lead from every page to every other |
| Distinct.DistinctValues | pkg/server/persistence/permanent_block.go:172-246 | for any rows and any field list, repeated and unknown names included, the scan with its one reused buffer returns per column the scanned values in first-seen order |
| Distinct.DistinctStateValues | pkg/server/persistence/beacon_state.go:275-330 | so does the scan for states, with its eight lists and a new buffer for every row |
| Distinct.CellPosition | pkg/server/persistence/permanent_block.go:208-223 | the scan goes row by row, and in each row field by field |
| Distinct.FirstSeenOrder | pkg/server/persistence/permanent_block.go:222-236 | an entry of a list was scanned before any cell of a later entry |
| Distinct.ToUint64Value | pkg/server/persistence/permanent_block.go:227 | a stored number that is not negative comes back as it is, and a negative one 2^64 higher |
| Distinct.CollectRow | pkg/server/persistence/permanent_block.go:222-236 | one row read from the buffer extends lists and sets by exactly its cells |
| Distinct.FirstSeenIsDistinct | pkg/server/persistence/permanent_block.go:223-234 | first occurrences are the values of the column, each once |
| Distinct.NumberListIsTheColumn | pkg/server/persistence/permanent_block.go:225-227 | a list of slots or epochs has no duplicates, the conversion to uint64 notwithstanding, and exactly the numbers scanned |
| Distinct.TextListIsTheColumn | pkg/server/persistence/permanent_block.go:228-231 | so for every list of texts |
| Distinct.GroupedIsCompleteIff | pkg/server/persistence/beacon_state.go:265 | the grouped query has every tuple exactly when the table has at most 1000 distinct ones |
| Distinct.GroupedListsAreComplete | pkg/server/persistence/beacon_state.go:265-322 | and then each of the eight lists has exactly the values of its column in the whole table, each once |

## Left out

- LockTable.LockIndexer.AcquireLock: here a failing call has no effect; calls whose answer is lost are in LockRuns.
- AgeGates.GateIsAWindowIff: the error of a missing wall clock (node.go:91-93) is left out; the handler then queues nothing.
- QueueRuns.WorkerFetchesByTrueAge: the wall clock itself is not modelled; now and the epoch of a slot are numbers on one non-decreasing clock.
- QueueRuns.AlwaysOnTrack: covers block events and the state and block part of reorgs; the trace part of a reorg (agent.go:253-286), which stops at its first error, and the 2 s sleep are left out.
- CaptureRuns.DuplicateBound: the server's own refusal of duplicate creates is not modelled; it could only lower the number of records. A create that takes effect only after its worker went on is not covered.
- Capture.Agent.CaptureOne: contents are opaque, so the fetched bytes, gzip, the optional block header fields and the fetch time are left out; timeouts are failures.
- CaptureRuns.StoreBeforeIndex: assumes objects whose names path.Join does not rewrite, as roots, hashes and network names are; nodes may span several segments.
- CaptureRuns.NoFileIsLost: any sequence of readable files counts as a pass; that a pass follows one directory listing is only in Capture and CaptureSchedules. Files removed by others are not covered.
- FileNames.BlobSubmatchesIff: the pattern is modelled as the cuts it allows, not through a regular-expression engine; the cut is unique, so the engine has no choice.
- FileStore.AgentStoreIsAMapIff: contents are bytes, errors are one value, permissions and a full disk are not modelled; only the file store, since S3 keeps no directories.
- Timestamps.FormatKeepsOrder: years beyond 9999 print five digits and are left out, as is a driver that would store times in another layout.
- StateFilter.ClausesMeanTheFilter: slots and epochs are compared as numbers; a driver that refuses slots of 2^63 and more is not part of this model. The Add setters are single assignments.
- StateFilter.PagedStatesMatchTheFilter: the order column and NULLs are not modelled; any fixed order will do.
- Distinct.DistinctValues: scan errors end the query with an error and are left out; column types are those of the schema; the result's fields are modelled as lists by column name.
- S3: upload, deletion and the copy with its fallback; only the headers of presigned URLs are modelled.
- The server's indexer and API services, purging and the permanent store, beacon and execution node clients, readiness callbacks and the token handshake.
- The tables of blocks, bad blocks, bad blobs, traces and execution bad blocks, which repeat the state table's queries with other columns.
- reorderArray of the network selector, URL and form state, rendering, configuration, metrics and logging.
