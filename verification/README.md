# SystemCheck: a verified model

SystemCheck is a monitoring agent (a Windows service with a helper in each user session) and the
server it reports to. This project models the parts where several pieces must agree, and proves
that they do, or says exactly when they do not:

- **The event pipeline.** The disk spool, the drain, the batch insert and the retention purge.
  `SpoolQueue`, `EventStore` and `Agent` have the shape of the code; `Pipeline` is the protocol
  between them, one step per request, reply, file operation and failure, and `Agent` is proved to
  be a run of it. On top of it: no event is lost (`Pipeline`, `Histories`), what file-name collisions cost
  (`Collisions`), how often and in which order events arrive (`Delivery`), what stops the queue
  (`Stall`) and how it empties otherwise (`Progress`; for the code's own drain `Draining` and
  `Agent`), screenshot events never dangle (`Screenshots`, `Redelivery`), the roll-up agrees with
  the log (`AppUsage`), and what a purge leaves (`Retention`). `Names` and `Json` hold the file
  names and the NUL removal.
- **The lifecycle.** The service's loop and the helper's loop (`Service`), the consent gate over
  server, service and helpers with messages in flight (`Consent`, `ConsentRuns`), policy versions (`Policies`),
  collector health and its alerts (`Health`), offline alerts (`Offline`).
- **Incremental scanners.** The directory walk with pruning, de-duplication and a cap (`Fswatch`),
  the paged browser history scan (`Browsing`), byte accounting (`Netflow`).
- **The updater** (`Updater`): the version order and the install budget.
- **Password hashes** (`Password`): base64, decimal fields and splitting recover what was printed.

Code that changes things step by step is a class or a method with loops, proved against a
specification function; the theorems are about those functions and about runs of steps. The
environment (clocks, disk refusals, lost messages, crashes, the order of a Go map, which of the
tied visits a history database returns) is a parameter or an arbitrary choice.

## What does not hold as one might expect

Each of these is a lemma below, with the exact condition and an input that shows it.

- The service and the helper each open the spool directory and count from one. Two events added
  in the same nanosecond under the same counter value share a file name, and the first is lost in
  every continuation (`Delivery.TwoWritersCollide`). Which steps lose an event, exactly and over
  whole runs, is `Collisions.KeepsAllIff`; in terms of adds alone it is
  `Collisions.UntouchedKeepsAllIff`, and adds to a name of the batch in flight are
  `Collisions.OverwrittenThenRefused`, `OverwrittenThenRemoved` and `OverwrittenYetKept`.
- Spool names pad the counter to six digits; from 1000000 on, text order within one nanosecond is
  not numeric order (`Names.OrderBreaksAtAMillion`; the exact order is `Names.NameOrder`).
- An event can be inserted more than once: exactly when the server takes a batch with an event
  it has (`Delivery.InsertedOnceIff`). Its file is left behind to be sent again exactly by a lost
  reply, a failed deletion or a crash after the server took it (`Delivery.StepLeavesCopyIff`), and
  each of them can repeat it any number of times (`Delivery.FaultsRepeat`).
- So a redelivered screenshot has two rows with one blob, and deleting either row takes the blob
  from the other (`Screenshots.DeletionDanglesIff`, `Redelivery.DeletionLeavesRowWithoutBlob`).
- The comment in `server/internal/store/events.go:12-15` says that a NUL can no longer stall the
  queue. A NUL in a map key still does: its batch is refused (`AppUsage.BatchInsert`), and as long
  as the event is among the oldest 500 nothing is ever delivered again (`Stall.BadEventStalls`,
  `Stall.NulKeyStalls`). The same happens when the oldest files take more than the 8 MiB the
  handler reads of a batch (`Stall.LargeHeadStalls`, `Stall.LargeEventStalls`). Exactly these two
  make the server refuse a batch that reaches it (`Stall.ListedIsStoredIff`).
- The upload handler reads at most 16 MiB of a file and reports success
  (`server/internal/api/handlers_agent.go:118`), so a longer screenshot is cut and its spool file
  deleted (`Screenshots.BlobsKeepTheirBytes`, `Screenshots.LongCaptureIsCut`).
- A purge cuts through the day that contains its activity cutoff: the log loses part of that day,
  the roll-up keeps all of it (`AppUsage.CutoffDayAgreesIff`, `AppUsage.CutDayDisagrees`).
- Rows are kept for ever exactly when their kind is in no purge class, and browsing history is in
  none (`AppUsage.KeptForEverIff`, `AppUsage.VisitsAreKeptForEver`).
- The first policy saved for a group has the version of the built-in default, so agents do not
  notice it (`Policies.FirstSaveDetectedIff`, `Policies.FirstSaveGoesUnnoticed`).
- Two users can share one consent marker file (`Consent.MarkersCollideIff`,
  `Consent.MarkersCollide`), and then collectors run in the session of a user who never accepted
  and whose consent is on record all the same (`ConsentRuns.NeverAcceptedYetRecorded`).
- A revoked consent comes back with the next heartbeat that still reports acceptance
  (`Consent.RevocationLastsUntilNextBeat`, `ConsentRuns.RevokedConsentReturns`).
- Versions that do not parse can each be newer than the other (`Updater.AsymmetricIff`,
  `Updater.EachNewerThanTheOther`). The
  install budget is per target: alternating releases install at every check
  (`Updater.FlappingIsUnbounded`, `Updater.FlappingHappens`); the bound that holds then counts the
  changes (`Updater.ChangingTargetsAreBounded`).
- A heartbeat between an offline alert and the flag that follows it leaves the machine flagged
  (`Offline.WronglyFlaggedIff`, `Offline.LateFlagHappens`), and a flagged machine is never alerted
  on before it reports again (`Offline.LateFlagSilencesOutage`).
- Visits tied with the last row of a full page are never emitted (`Browsing.EmittedExactly`,
  `Browsing.TiedVisitIsLost`).
- The profile is watched completely only up to 20000 directories
  (`Fswatch.FirstRootIsWatchedIff`, `Fswatch.LargeRootIsStarved`), although the comment at
  `agent/internal/collectors/fswatch/roots_windows.go:19-22` guarantees it without a bound.

## Model

| member | source | states |
|---|---|---|
| Names.NameOrder | agent/internal/spool/spool.go:36-41 | the exact text order of two spool names, for all times and counters |
| Names.NameOrderIsStampOrder | agent/internal/spool/spool.go:36-41 | text order is (time, counter) order when the times differ or both counters are below a million |
| Names.OrderBreaksAtAMillion | agent/internal/spool/spool.go:40 | counter 1000000 sorts before 999999 |
| Names.NamesUnique | agent/internal/spool/spool.go:36-41 | two names are equal exactly for the same time and counter, however large |
| SpoolQueue.Spool.NextName | agent/internal/spool/spool.go:36-41 | the counter goes up by one and the name is made from the clock and the new counter |
| SpoolQueue.Spool.AddEvent | agent/internal/spool/spool.go:44-51 | one file is written under the next name, replacing a file of that name, or none when the disk refuses; the counter moves either way |
| SpoolQueue.Spool.AddBlob | agent/internal/spool/spool.go:54-60 | the blob file for the key is written or replaced, or nothing changes |
| SpoolQueue.Spool.SortedNames | agent/internal/spool/spool.go:70-76 | the directory's names in strictly increasing text order, each once |
| SpoolQueue.Spool.PendingEvents | agent/internal/spool/spool.go:64-94 | events[i] is what file paths[i] holds, and the paths are the oldest readable files up to the limit |
| SpoolQueue.OldestPrefixIsUnique | agent/internal/spool/spool.go:64-94 | only one listing is the oldest prefix of a set of files |
| SpoolQueue.Spool.PendingBlobs | agent/internal/spool/spool.go:119-136 | the first blob keys in name order, up to the limit |
| SpoolQueue.Spool.Remove | agent/internal/spool/spool.go:97-101 | exactly the listed files that can be deleted are gone |
| Json.StripNul | server/internal/store/events.go:16-36 | the in-place walk computes the recursive cleaning |
| Json.StripFields | server/internal/store/events.go:52-54 | every field of an object is cleaned, in whatever order the map is walked |
| Json.DropNulKeepsTheRest | server/internal/store/events.go:18-22 | a string loses all its NULs and no other character, and is unchanged exactly when it had none |
| Json.DropNulAppend | server/internal/store/events.go:18-22 | the kept characters keep their order: cleaning goes through a string from left to right |
| Json.StripChangesOnlyStrings | server/internal/store/events.go:16-36 | at every path of any nested value strings lose their NULs, arrays keep their length, maps their keys, other leaves their value |
| Json.StripLeavesNoNul | server/internal/store/events.go:12-15 | no string value at any depth contains NUL afterwards |
| Json.StripFixesExactlyCleanValues | server/internal/store/events.go:16-36 | cleaning changes nothing exactly when no string value contained NUL |
| Json.StripIsIdempotent | server/internal/store/events.go:16-36 | cleaning twice is cleaning once |
| Json.StrippedIsStorableIffKeysClean | server/internal/store/events.go:12-36 | a cleaned value is accepted by JSONB exactly when no map key contained NUL |
| Json.JsonbAcceptsIff | server/internal/store/events.go:12-15 | JSONB accepts a value exactly when no string value and no map key at any path contains NUL |
| EventStore.Store.Queue | server/internal/store/events.go:45-75 | the batch becomes the log insert of each event, each followed by its screenshot row or roll-up upsert |
| EventStore.Store.SendBatch | server/internal/store/events.go:76-83 | the queue takes effect as a whole or, if any statement fails, not at all |
| EventStore.FailureSticks | server/internal/store/events.go:79-83 | a transaction in which a statement failed fails, whatever follows |
| EventStore.Store.InsertEvents | server/internal/store/events.go:41-85 | the number accepted is the whole batch or the tables are unchanged |
| EventStore.Store.Purge | server/internal/store/purge.go:47-88 | all three classes are purged in order, with counters equal to the rows each table lost; what that leaves of each table is the subject of `Retention` |
| EventStore.Store.DeleteKinds | server/internal/store/purge.go:90-98 | rows of the kinds older than the cutoff go, the others keep their order |
| EventStore.Store.DeleteScreenshots | server/internal/store/purge.go:100-128 | the blobs of stale rows go unless they cannot be deleted; the rows go all the same; which ones is the subject of `Retention` |
| EventStore.Store.DeleteScreenshot | server/internal/store/events.go:130-140 | one row goes and, if it can be deleted, the blob it names |
| EventStore.TruncatedIsTowardsZero | server/internal/store/events.go:215-226 | a decoded number becomes the nearest integer towards zero, for either sign |
| AppUsage.BatchInsert | server/internal/store/events.go:41-85 | a batch is stored exactly when every event in it is acceptable, and then the log, the screenshot rows and every roll-up gain exactly what its rows stand for |
| AppUsage.OneEvent | server/internal/store/events.go:55-74 | the statements of one event succeed exactly when it is acceptable, on any database |
| AppUsage.InsertedRows | server/internal/store/events.go:41-57 | a stored batch adds one row for each event in its order, with its kind, its time or else the server's clock, and at every path of its data what cleaning makes of it |
| AppUsage.PurgeRemovesExactlyTheStale | server/internal/store/purge.go:34-75 | a purge removes every stale row of its kinds and keeps every other row as often as it was there |
| Retention.PurgeRemovesExactlyTheOldShots | server/internal/store/purge.go:100-128 | a purge removes every screenshot row older than the screenshot cutoff and keeps every other as often as it was there |
| Retention.PurgeDeletesBlobIff | server/internal/store/purge.go:100-128 | a blob leaves the store exactly when a row older than the cutoff names it and it can be deleted; no other blob changes |
| Retention.PurgeKeepsOrder | server/internal/store/purge.go:90-128 | what survives keeps its order, in the log and in the screenshots table |
| Retention.PurgeByWindows | server/internal/store/purge.go:19-75 | with day windows each kind of event is purged by the window of its own class, screenshot rows by the screenshot window, and roll-ups by whole days before the activity window |
| AppUsage.KeptForEverIff | server/internal/store/purge.go:34-75 | no history of inserts, purges and deletions ever removes a row of a kind exactly when the kind is in no purge list |
| AppUsage.VisitsAreKeptForEver | server/internal/store/purge.go:34-35 | browsing history is such a kind |
| AppUsage.PurgeDiscrepancy | server/internal/store/purge.go:50-59 | what a purge does to the difference between roll-up and log, for every day before, on and after the cutoff's |
| AppUsage.CutoffDayAgreesIff | server/internal/store/purge.go:50-59 | on the cutoff's own day agreement survives exactly when the removed rows of that key sum to zero |
| AppUsage.CutDayDisagrees | server/internal/store/purge.go:50-59 | after one concrete insert and one purge the roll-up has five seconds and the log none |
| AppUsage.UsageAgreesOffCutDays | server/internal/store/events.go:67-73 | after any history of inserts, purges with any cutoffs and deletions, app_usage is the sum over the log on every day no purge has cut through |
| AppUsage.OnlyTheLastDayIsCut | server/internal/store/purge.go:50-59 | with cutoffs that never go back only the last cutoff's day is cut |
| AppUsage.AppUsageEqualsLog | server/internal/store/events.go:67-73 | with such cutoffs app_usage equals the sum of active_sec over the log for every machine, process and day except the last cutoff's day |
| AppUsage.FixedWindowsNeverGoBack | server/internal/store/purge.go:19-32 | with a fixed window later purges have later cutoffs, and a non-positive window has none |
| Pipeline.RunKeepsBase | agent/internal/runner/runner.go:308-336 | every run, under any file names, keeps files, batch in flight, history and log in agreement |
| Pipeline.LogHoldsAddedEvents | server/internal/store/events.go:46-57 | in every run each log row is an added event with its own kind, time and cleaned data |
| Pipeline.StepKeepsEventInv | agent/internal/runner/runner.go:308-336 | a step with a safe file name keeps every uninserted event in a file of its own |
| Pipeline.NoEventIsLost | agent/internal/runner/runner.go:308-336 | in every run whose added files take free names, or names of stored events outside the batch in flight, each event ever added is a spool file, or in the log, or was purged from it |
| Histories.EveryEventIsAccountedFor | agent/internal/runner/runner.go:308-336 | so in each such run every event ever added is a spool file, or in the log, or was found stale, by its kind and time, by a purge of that run |
| Histories.PurgedIff | server/internal/store/purge.go:47-88 | an event counts as purged exactly when a purge of the run found all its rows stale |
| Histories.GoneIff | server/internal/store/purge.go:100-128 | a blob counts as deleted exactly when a step of the run took it from the server and it is not there again |
| Histories.WhoDeletesBlobs | server/internal/store/purge.go:117-121 | only a purge and the deletion of a screenshot take a blob from the server |
| Collisions.StepAliveIff | agent/internal/spool/spool.go:49-50 | a step loses an event exactly when it overwrites one that is neither stored nor listed, drops a listed batch one of whose events was overwritten, or removes a file that holds a later event |
| Collisions.LossIsForGood | agent/internal/runner/runner.go:322-335 | an event that is in no file, not stored and in no listed batch is found in no later state |
| Collisions.KeepsAllIff | agent/internal/runner/runner.go:322-335 | a run keeps all events exactly when it has no losing step |
| Collisions.UntouchedKeepsAllIff | agent/internal/spool/spool.go:49-50 | if no added file takes a name of the batch in flight, a run keeps all events exactly when every added file takes a free name or that of a stored event |
| Collisions.OverwrittenThenRefused | agent/internal/runner/runner.go:331-334 | a run in which a listed event is overwritten and its request fails, so that no continuation finds it |
| Collisions.OverwrittenThenRemoved | agent/internal/runner/runner.go:335 | a run in which a stored event is overwritten while its batch is in flight and the removal deletes the new one |
| Collisions.OverwrittenYetKept | agent/internal/runner/runner.go:331-334 | a run in which a listed event is overwritten and nothing is lost |
| Delivery.InsertedAtMostOnce | agent/internal/runner/runner.go:331-335 | without a lost reply, failed deletion or crash no event is inserted twice, under any file names |
| Delivery.InsertedOnceIff | agent/internal/runner/runner.go:331-335 | in every run no event is inserted twice exactly when the server never takes a batch with an event it has |
| Delivery.StepLeavesCopyIff | agent/internal/runner/runner.go:331-335 | while no stored event's file was left behind, a step leaves one exactly when it is a lost reply or a crash with such a file still there, or its failed deletion |
| Delivery.CopiesNeedFaults | agent/internal/spool/spool.go:97-101 | only a lost reply, a failed deletion or a crash does that |
| Delivery.FaultInserts | agent/internal/runner/runner.go:331-335 | a drain with any of these faults inserts its event and leaves the spool as it was |
| Delivery.FaultsRepeat | agent/internal/runner/runner.go:331-335 | for any list of such faults some run of a new machine adds one event and inserts it once for each |
| Delivery.ListingIsOldestUndelivered | agent/internal/spool/spool.go:64-94 | every event older than a listed one is in the log or listed before it |
| Delivery.FirstDeliveriesInAddOrder | agent/internal/spool/spool.go:64-94 | with growing names and readable files first deliveries reach the log in add order, whatever fails in between |
| Delivery.DifferentStampsAreFresh | agent/internal/spool/spool.go:36-41 | names never collide and no event is lost in a run, by any number of processes, when no two adds share clock and counter |
| Delivery.OneWriterDeliversInOrder | agent/internal/spool/spool.go:36-41 | one writer at a time with a clock that never goes back delivers in add order, also across restarts that reset its counter |
| Delivery.TwoWritersCollide | agent/internal/runner/session.go:96-100 | service and helper adding their first events in one nanosecond lose one, whatever follows |
| Stall.BadEventStalls | server/internal/store/events.go:76-83 | with an unacceptable event among the oldest 500 files, in every run whose new files sort after it nothing is inserted again and no file leaves the spool |
| Stall.BadEventStallsOrderedRuns | agent/internal/runner/runner.go:322-335 | the same for every run with growing names and readable files |
| Stall.ListedIsStoredIff | server/internal/api/handlers_agent.go:78-87 | a listed batch that reaches the server is stored exactly when it is no longer than the handler reads and holds no unacceptable event |
| Stall.NulKeyStalls | server/internal/store/events.go:12-15 | one event with a NUL map key in an empty spool: nothing added before or after it is ever stored |
| Stall.LargeHeadStalls | server/internal/api/handlers_agent.go:78-81 | when the oldest files, at most 500, exceed 8 MiB together, in every run whose new files sort after them nothing is inserted again and no file leaves the spool |
| Stall.HeadIsListed | agent/internal/spool/spool.go:70-93 | every listing that can read the oldest files begins with them |
| Stall.LargeEventStalls | server/internal/api/handlers_agent.go:78-81 | one event of 8 MiB in an empty spool: nothing added before or after it is ever stored |
| Progress.DrainDelivers | agent/internal/runner/runner.go:308-336 | from deliverable files and no blobs, a drain in which nothing fails stores the oldest 500 events in order and removes exactly their files |
| Progress.SpoolEmpties | agent/internal/runner/runner.go:308-336 | n such files are delivered and gone after n / 500 such drains, rounded up |
| Screenshots.NoDanglingScreenshot | agent/internal/collectors/screenshot/capture_windows.go:43-59 | in every run, under any file names, each screenshot event in the spool or the log, and each screenshot row, names a blob that is in the spool, on the server, or was purged or deleted |
| Screenshots.StepKeepsBlobInv | server/internal/api/handlers_agent.go:123-129 | every step keeps captured blobs available or accounted for |
| Screenshots.CleaningKeepsKey | agent/internal/runner/runner.go:66-73 | cleaning an event's data never changes the key it names |
| Screenshots.FullKeyInjective | server/internal/api/handlers_agent.go:123-124 | different keys of a machine never share a server key |
| Screenshots.BlobsKeepTheirBytes | server/internal/api/handlers_agent.go:118-128 | with keys that do not repeat, in every run a spooled blob has the bytes of its capture, and a stored one a prefix of them that is all of them exactly up to 16 MiB |
| Screenshots.LongCaptureIsCut | server/internal/api/handlers_agent.go:118 | a fault-free drain of a longer capture stores its first 16 MiB and deletes its file |
| Screenshots.PurgeSparesSurvivors | server/internal/store/purge.go:100-127 | after any run in which every screenshot event names its own key, redeliveries included, no purge deletes the blob of a row that it leaves |
| Screenshots.DeletionDanglesIff | server/internal/api/handlers_admin.go:116-130 | deleting a row takes the blob from another row exactly when the blob is there, can be deleted, and a second row has its key |
| Screenshots.SameKeyIsRedelivery | server/internal/store/events.go:60-66 | where every event names its own key, two rows with one key come from one event |
| Redelivery.DeletionLeavesRowWithoutBlob | server/internal/api/handlers_admin.go:116-130 | a run with one lost reply and one deletion after which a row names a blob that is gone |
| Agent.Agent.Emit | agent/internal/runner/runner.go:61-65 | an emitted event is one more added event and one file under the next name; a refused one is none |
| Agent.Agent.EmitBlob | agent/internal/runner/runner.go:66-73 | the returned key is the one the server will store the blob under |
| Agent.Agent.Capture | agent/internal/collectors/screenshot/capture_windows.go:24-62 | up to the first blob that cannot be stored, each display adds its image under its key and then, if it can be written, the event that names it; the loop is a run of the protocol |
| Agent.Agent.CaptureDisplay | agent/internal/collectors/screenshot/capture_windows.go:33-60 | one display adds its image under its key and the event with its number, width, height and size, or nothing when the blob cannot be stored |
| Agent.EveryDisplayIsNoted | agent/internal/collectors/screenshot/capture_windows.go:33-60 | when every event can be written the displays have one event each, in order |
| Agent.CapturedDisplayHasItsRow | server/internal/store/events.go:60-66 | the event of a captured display becomes a screenshots row with its own width, height, size and format under the key its bytes are stored under |
| Agent.Agent.OtherEmits | agent/internal/runner/session.go:149 | the other process's adds are protocol steps too |
| Agent.Agent.Upload | server/internal/api/handlers_agent.go:101-130 | an upload is one protocol step, at most 16 MiB of it stored before it is acknowledged |
| Agent.Agent.UploadNext | agent/internal/runner/runner.go:310-319 | a listed blob is skipped if unreadable, else uploaded, and its file deleted only after the acknowledgement |
| Agent.Agent.DrainBlobs | agent/internal/runner/runner.go:309-320 | the blob loop goes on exactly past blobs that are skipped or acknowledged, whatever else happens meanwhile; otherwise undisturbed it uploads and deletes exactly those |
| Draining.WithUploadsHolds | server/internal/api/handlers_agent.go:101-130 | an uploaded blob is on the server under the machine's prefix, cut to 16 MiB, and every other key is as it was |
| Agent.Agent.PostBatch | server/internal/api/handlers_agent.go:75-98 | a batch request is one protocol step, accepted only if the insert succeeded |
| Agent.Agent.DrainEvents | agent/internal/runner/runner.go:322-335 | undisturbed it moves the oldest 500 readable files: the tables gain their rows exactly when the request arrives, fits and is acceptable, and the files go exactly when the reply comes back too |
| Agent.Agent.Drain | agent/internal/runner/runner.go:308-336 | a run of the protocol, whatever happens between its steps; a failed upload ends it before events are listed; undisturbed, files and log change exactly as requests, replies and deletions went, and when nothing fails the oldest 500 event files are gone and the log has their rows in order |
| Draining.FairDelivers | agent/internal/runner/runner.go:308-336 | what a drain leaves, when nothing fails and the files are deliverable: the oldest 500 events moved to the log in order, their files and those of the listed blobs deleted |
| Draining.FairTakes | server/internal/api/handlers_agent.go:75-98 | five hundred acceptable events of less than 16 KiB each always fit a request and are taken |
| Agent.Agent.Ticks | agent/internal/runner/runner.go:126-127 | n drains in which nothing fails leave 500 n files less, down to none, and as many rows more |
| Agent.AgentLosesNothing | agent/internal/runner/runner.go:308-336 | whatever this code has done, no event is lost as long as added files took safe names |
| Fswatch.ExcludeDir | agent/internal/collectors/fswatch/roots_windows.go:52-81 | true exactly when a fragment occurs or an ending ends the path |
| Text.ContainsIff | agent/internal/collectors/fswatch/roots_windows.go:66-70 | a fragment is found exactly when it stands somewhere in the path |
| Text.SuffixIff | agent/internal/collectors/fswatch/roots_windows.go:72-77 | an ending is found exactly when the path is something followed by it |
| Fswatch.ExclusionGoesDown | agent/internal/collectors/fswatch/roots_windows.go:49-81 | everything below an excluded directory is excluded |
| Fswatch.PruningIsFiltering | agent/internal/collectors/fswatch/fswatch.go:135-137 | skipping excluded trees leaves exactly the directories that are not excluded themselves |
| Fswatch.WalkOffersEligible | agent/internal/collectors/fswatch/fswatch.go:128-150 | the walk with its shortcuts registers what offering every eligible path in turn would |
| Fswatch.WatchedIsFirstOfWalk | agent/internal/collectors/fswatch/fswatch.go:64-66 | over overlapping roots of one tree the watched list is the first 20000 registrable entries of the de-duplicated walk |
| Fswatch.WantedIsDuplicateFree | agent/internal/collectors/fswatch/fswatch.go:138-148 | that walk lists every registrable path once |
| Fswatch.FirstRootIsWatchedIff | agent/internal/collectors/fswatch/roots_windows.go:19-22 | the first root is watched completely exactly when it has at most 20000 registrable directories |
| Fswatch.LargeRootIsStarved | agent/internal/collectors/fswatch/fswatch.go:142-144 | a concrete root with 20000 sub-directories and a directory of it that is not watched |
| Fswatch.DirCounter.AddTree | agent/internal/collectors/fswatch/fswatch.go:124-151 | the recursive walk computes the specified list, and the counter equals the number of paths seen |
| Fswatch.DirCounter.WatchRoots | agent/internal/collectors/fswatch/fswatch.go:57-66 | the roots are walked in turn with one shared counter |
| Browsing.Collector.ScanSource | agent/internal/collectors/browsing/browsing_windows.go:117-154 | the row loop emits the page's web visits in order and moves the watermark to the latest time |
| Browsing.Collector.ScanAll | agent/internal/collectors/browsing/browsing_windows.go:38-49 | all databases in turn, the watermarks saved once at the end |
| Browsing.Collector.Round | agent/internal/collectors/browsing/browsing_windows.go:38-49 | repeated saved rounds are one long sequence of scans |
| Browsing.EmittedInOrder | agent/internal/collectors/browsing/browsing_windows.go:129-153 | repeated scans never emit a visit twice and emit in time order, between the first and the current mark |
| Browsing.EmittedExactly | agent/internal/collectors/browsing/browsing_windows.go:129-153 | a web visit between the marks has been emitted exactly when it was not tied with the last row of a full page |
| Browsing.MissedIsNeverEmitted | agent/internal/collectors/browsing/browsing_windows.go:129-153 | a visit so tied is emitted by no run of scans |
| Browsing.TiedVisitIsLost | agent/internal/collectors/browsing/browsing_windows.go:133-137 | 3001 visits at one time: the last is never emitted, whatever scans follow |
| Browsing.DistinctTimesMissNothing | agent/internal/collectors/browsing/browsing_windows.go:129-153 | with distinct times the emissions are exactly the web visits between the marks, strictly in time order |
| Browsing.SourcesAreIndependent | agent/internal/collectors/browsing/browsing_windows.go:129-153 | what is emitted for a database and its watermark depend on its own completed scans alone |
| Browsing.CollectorEmitsEachVisitOnce | agent/internal/collectors/browsing/browsing_windows.go:38-49 | over any rounds of the whole collector each database's visits come out once, in order, and with distinct times completely |
| Browsing.EmittedInUnixTime | agent/internal/collectors/browsing/browsing_windows.go:117-208 | every emitted event has its visit's time in the Unix epoch, for either kind of browser, is at most seven days older than the first scan of its database, and is of a web address |
| Updater.ParseVersion | agent/internal/updater/updater.go:179-194 | the loop reads the parts between the dots, or nothing when one is no number; what printed versions are read as is `Updater.ParsedReadsPrinted` |
| Updater.ParsedReadsPrinted | agent/internal/updater/updater.go:179-194 | any numbers below 2^63 printed with dots, perhaps after a "v" and between blanks, are read back in order |
| Updater.AtoiReadsDigits | agent/internal/updater/updater.go:187-190 | a part with either sign or none is read as its number exactly when 64 bits hold it |
| Updater.IsNewer | agent/internal/updater/updater.go:165-177 | true exactly when the candidate's numbers come after, or, if one does not parse, when the texts differ; for printed versions see `Updater.PrintedOrder` |
| Updater.PrintedOrder | agent/internal/updater/updater.go:162-177 | of two printed versions the one with the larger number at the first difference is newer, and not the other |
| Updater.MinorBeforePatch | agent/internal/updater/updater.go:162-164 | "0.2.0" is newer than "0.1.9" and not the reverse |
| Updater.NumbersNotTexts | agent/internal/updater/updater.go:162-164 | "1.10.0" is newer than "1.9.9" and older than "2.0.0" |
| Updater.NumbersAfter | agent/internal/updater/updater.go:171-176 | the comparison loop decides at the first difference, else by length |
| Updater.NewerIsStrictOrder | agent/internal/updater/updater.go:162-177 | on parsable versions a strict order, total up to equal numbers |
| Updater.AsymmetricIff | agent/internal/updater/updater.go:168-170 | two versions are not each newer than the other exactly when they are equal texts or both parse |
| Updater.EachNewerThanTheOther | agent/internal/updater/updater.go:168-170 | two concrete versions that are |
| Updater.VersionsOnlyGoUp | agent/internal/updater/updater.go:117-123 | along updates that reach their target the running version strictly increases and never repeats |
| Updater.Updater.CheckAndUpdate | agent/internal/updater/updater.go:117-148 | each outcome exactly: nothing unless a newer release is offered and the budget is open, failure unless it is signed, downloaded, verified and installed; each check adds at most one install, recorded first with its time and count |
| Updater.InstallsUnlessRoundIsFull | agent/internal/updater/updater.go:67-91 | a check that is otherwise ready installs unless the unbroken attempts at its target make whole rounds of three and the last was at most six hours ago |
| Updater.FourAttemptsSpanTheCooldown | agent/internal/updater/updater.go:67-91 | any four consecutive recorded installs of one target span more than six hours |
| Updater.InstallRateIsBounded | agent/internal/updater/updater.go:67-91 | at most 3 * (floor(T / 6h) + 1) installs of one target start in a span T |
| Updater.ChangingTargetsAreBounded | agent/internal/updater/updater.go:67-91 | in a span T in which the target changes k times at most 3 * (floor(T / 6h) + k + 1) installs start |
| Updater.FlappingIsUnbounded | agent/internal/updater/updater.go:69-71 | for two releases newer than the running one and every n there are n complete checks at one moment that install n times |
| Updater.FlappingHappens | agent/internal/updater/updater.go:69-71 | concrete versions for which that happens |
| Service.OneLiveGeneration | agent/internal/runner/runner.go:87-181 | after any events one live generation runs the current policy if that is active and none otherwise, and runtime.json carries its version, flag and nonce |
| Service.Runner.OnPolicy | agent/internal/runner/runner.go:160-179 | a poll always rewrites the file and replaces the generation exactly when version or flag changed |
| Service.Runner.OnRestart | agent/internal/runner/runner.go:146-155 | a restart replaces the generation, bumps the nonce and rewrites the file; what that does to the helper is `Service.RestartReachesHelper` |
| Service.EveryRestartIsNew | agent/internal/runner/runner.go:146-155 | after any events a restart command gives the file a nonce larger than any before, cancels every context and adds one, running the current policy if active |
| Service.NonceCountsRestarts | agent/internal/runner/runner.go:153-154 | the nonce is the number of restart commands so far |
| Service.PollReplacesIff | agent/internal/runner/runner.go:160-179 | after any events a poll puts the answer into the file and adds a generation exactly when version or flag is new |
| Service.RestartReachesHelper | agent/internal/runner/session.go:145-172 | a helper that runs what the file asked for before a restart command ends that generation at its next wake-up, whatever else has happened, and starts a new one exactly when the file still asks for one |
| Service.GenerationEndsIff | agent/internal/runner/session.go:159-171 | a wake-up ends the running generation exactly when the file is readable and differs in version, flag or nonce |
| Service.SessionCollectorIff | agent/internal/runner/session.go:126-129 | a policy concerns the helper exactly when it enables one of the four session collectors |
| Service.HelperRunsAtMostOne | agent/internal/runner/session.go:120-172 | whatever the helper reads, it has at most one live generation, the one it runs |
| Service.HelperFollowsService | agent/internal/runner/session.go:120-172 | once the file stops changing the next wake-up leaves the helper on the service's version and nonce, running whenever the file asks for it, and on nothing when inactive |
| Service.SessionAgent.Wake | agent/internal/runner/session.go:120-172 | one wake-up of the two nested loops |
| Consent.BehaviourKeepsInv | server/internal/store/policies.go:38-47 | in every behaviour every policy in an answer, a process or a file was granted |
| Consent.ServiceNeedsConsent | agent/internal/runner/runner.go:88-94 | every service generation ever started uses an answer computed while the server held an unrevoked consent of the user then assigned |
| Consent.SessionNeedsConsentAndAcceptance | agent/internal/runner/session.go:106-139 | every session generation moreover needs a local acceptance under the user's marker name |
| Consent.OwnAcceptance | agent/internal/runner/session.go:198-209 | the acceptance is the user's own unless another accepting user shares the marker |
| Consent.MarkersCollideIff | agent/internal/runner/session.go:200-225 | on a file system that ignores case two users share a marker exactly when their names are equally long and differ only in case or in characters that become underscores |
| Consent.FileNameCharacters | agent/internal/runner/session.go:211-225 | letters, digits, '-', '_' and '.' stay in a marker's name, every other character does not |
| Consent.MarkersCollide | agent/internal/runner/session.go:211-225 | two different accounts of one domain that do |
| ConsentRuns.NeverAcceptedYetRecorded | agent/internal/runner/session.go:106-139 | a behaviour of a shared machine after which a user who never accepted has a consent record and a session generation |
| Consent.ConsentIff | server/internal/store/consent.go:8-32 | between any two moments of a behaviour: who consents, in terms of the recorded consents, heartbeats and revocations between them |
| Consent.RevocationLastsUntilNextBeat | server/internal/api/handlers_agent.go:158-164 | after the last revocation in a behaviour the user consents again exactly when a later step recorded a consent or took a heartbeat that reports the acceptance |
| ConsentRuns.RevokedConsentReturns | server/internal/api/handlers_agent.go:158-164 | a behaviour in which a consent is recorded, revoked and recorded again |
| Consent.RevokedHasNone | server/internal/store/consent.go:26-32 | a revocation removes one user's consent and nobody else's |
| Consent.ConsentTable.RecordConsent | server/internal/store/consent.go:18-24 | one more record, and that user consents |
| Consent.ConsentTable.RevokeConsent | server/internal/store/consent.go:26-32 | all of the user's records are revoked in place, the others untouched |
| Health.HealthRegistry.Snapshot | agent/internal/runner/health.go:83-91 | every entry once, in any order |
| Health.HealthRegistry.StartCollectors | agent/internal/runner/runner.go:283-290 | the registry then holds exactly the role's enabled collectors, all running |
| Health.RolesAreDisjoint | agent/internal/runner/runner.go:240-282 | the two roles share no collector name |
| Health.MergedCollectorHealth | agent/internal/runner/health.go:18-39 | exactly the service's entries and, while collection is on, the helper's if they are younger than three minutes, else every enabled session collector as down; no name twice |
| Health.MergedHasNoRepeats | agent/internal/runner/health.go:18-56 | no name twice, for any policy and any state of the helper |
| Health.WriteSessionState | agent/internal/runner/session.go:186-196 | the published listing is one of the registry, of session collectors only, each once, and counts as current for at least 179 and at most 180 seconds |
| Health.SnapshotIsFromHelper | agent/internal/runner/session.go:186-196 | so is any snapshot of a session registry |
| Health.MachineHealth.Heartbeat | server/internal/api/handlers_agent.go:165-196 | stored report and alert requests are those of the sequence of non-empty heartbeats |
| Health.StoredIsLastSaved | server/internal/api/handlers_agent.go:172-180 | the stored list is the last saved report entry by entry, but session collectors with recent data run and lose their error |
| Health.StoredAsReported | server/internal/api/handlers_agent.go:172-180 | reconciliation changes only entries of session collectors reported down with recent data |
| Health.AlertsAreEntries | server/internal/api/handlers_agent.go:189-195 | every alert is about an entry of the report that is down |
| Health.AlertsCount | server/internal/api/handlers_agent.go:181-195 | one report requests one alert for a collector that is down and was not, else none |
| Health.RequestsAreEdges | server/internal/api/handlers_agent.go:168-196 | over any heartbeats the alert requests for a collector are exactly the reports that tell of it being down, session collectors with recent data excepted, where the list read did not |
| Health.RequestsMatchRecoveries | server/internal/api/handlers_agent.go:165-167 | when reports are stored and read back, every alert request is answered by a recovery, but for one while the collector is down |
| Offline.OneAlertPerOutage | server/internal/store/machines.go:96-129 | at most one successful alert per machine between two of its heartbeats, however they interleave with the sweeps |
| Offline.StepKeepsInv | server/internal/store/machines.go:90-129 | every step keeps alerts separated and alerted machines flagged or about to be |
| Offline.WronglyFlaggedIff | server/internal/store/machines.go:88-128 | in every run a machine is flagged with no alert since its last heartbeat exactly when a heartbeat came between its last alert and that alert's flag update and none since |
| Offline.LateFlagSilencesOutage | server/internal/store/machines.go:100-128 | from any reachable state in which a machine is flagged, no run without its own heartbeat alerts on it |
| Offline.LateFlagHappens | server/internal/store/machines.go:88-128 | a run in which that happens |
| Offline.Machines.TouchMachine | server/internal/store/machines.go:88-94 | a heartbeat updates the last contact and clears the flag |
| Offline.Machines.SelectStale | server/internal/store/machines.go:100-116 | exactly the active, contacted, stale, unflagged machines, each once |
| Offline.Machines.SweepOfflineMachines | server/internal/store/machines.go:99-129 | whatever heartbeats come between its statements, it alerts once on every machine that was stale when it began unless the alert fails, and on no other, and returns their number; undisturbed it flags exactly those and changes nothing else |
| Offline.Machines.AlertAndFlag | server/internal/store/machines.go:118-127 | a failed alert changes nothing; a successful one is followed by the flag |
| Policies.SaveTakesEffect | server/internal/store/policies.go:71-105 | one group assignment, a version above all earlier ones of the name, the new document for machines without an assignment of their own, no change for the others |
| Policies.EditorShowsWhatMachinesRun | server/internal/store/policies.go:50-69 | the editor is shown what such machines run, before and after a save |
| Policies.VersionsCountSaves | server/internal/store/policies.go:74-121 | over any saves and stored documents the group's version grows by at least its own saves, and stays without them |
| Policies.PollDetectsSaves | agent/internal/runner/runner.go:160-179 | for a group with a saved policy the next poll, whatever collectors it names, restarts them exactly when it was saved since, however often, or the flag changed |
| Policies.FirstSaveDetectedIff | server/internal/store/policies.go:87-90 | a group's first save changes the version of its machines exactly when a document of that name was stored before |
| Policies.FirstSaveGoesUnnoticed | server/internal/store/policies.go:87-90 | in a new installation the first save is version 1 and the next poll keeps the old collectors |
| Policies.PolicyStore.SetGroupPolicy | server/internal/store/policies.go:74-105 | insert, unassign and assign as one transaction |
| Policies.PolicyStore.UpsertPolicy | server/internal/store/policies.go:107-121 | a row one version above the name's highest |
| Policies.PolicyStore.GetGroupPolicy | server/internal/store/policies.go:50-69 | the group's highest assigned row, or the default under version 0 |
| Policies.PolicyStore.EffectivePolicy | server/internal/store/policies.go:14-36 | the machine's policy, else its group's, else the default |
| Policies.EffectiveIs | server/internal/store/policies.go:10-36 | a machine with an assignment runs the highest version of its own, whatever its group has; else the highest of its named group; else the default |
| Policies.ShownIs | server/internal/store/policies.go:50-69 | the editor is shown the highest version assigned to the group, or the default under version 0 |
| Password.Base64RoundTrip | server/internal/auth/password.go:33-34 | unpadded base64 (sections 3.2 and 4 of RFC 4648) recovers any bytes and prints no separator |
| Password.AlphabetIs | server/internal/auth/password.go:33-34 | the alphabet of table 1 of RFC 4648 |
| Password.GroupsAreNumbers | server/internal/auth/password.go:33-34 | each three bytes are written as the same number in four sextets |
| Password.LastGroupIsPadded | server/internal/auth/password.go:33-34 | one or two last bytes are written as if zeros followed, without the padding |
| Password.DecodesIff | server/internal/auth/password.go:52-59 | a text decodes exactly when, line ends aside, it is from the alphabet and does not end in a lone character; four characters give three bytes |
| Password.FieldReadsBack | server/internal/auth/password.go:44-52 | a printed decimal field in range is read back when no digit follows it |
| Password.ParseReadsPrinted | server/internal/auth/password.go:40-60 | every field of a printed hash is recovered, for any salt, key and parameters in range |
| Password.VerifyAcceptsEqualKeys | server/internal/auth/password.go:39-63 | checking p against the hash of q never errs and succeeds exactly when their derived keys are equal |
| Password.HashIsPrintedAs | server/internal/auth/password.go:25-36 | the text of a hash: algorithm, version 19, 64 MiB, one pass, four threads, salt and 32-byte key |
| Password.WrongShapeIsAnError | server/internal/auth/password.go:40-43 | a text without exactly five dollar signs, or with another algorithm, is an error |
| Netflow.Collector.Observe | agent/internal/collectors/netflow/run_windows.go:83-113 | a packet adds its bytes to one pid and direction, and conservation holds |
| Netflow.Directions | agent/internal/collectors/netflow/run_windows.go:16-19 | which ids send and which receive; no id does both |
| Netflow.OneEachWay | agent/internal/collectors/netflow/run_windows.go:83-113 | one packet each way counts for its own process and direction |
| Netflow.Collector.Flush | agent/internal/collectors/netflow/run_windows.go:53-74 | a roll-up empties the counters into one event for each pid that moved bytes, and keeps reported plus live equal to observed for every pid and direction |
| Netflow.Collector.Run | agent/internal/collectors/netflow/run_windows.go:76-115 | after any packets and ticks the final flush leaves every observed byte reported |
| Text.SplitJoined | server/internal/auth/password.go:40 | splitting at a separator no part contains recovers the parts |

## Left out

- EventStore.Store.Purge: the four deletions are separate statements in the code and one step here, and the audit_log class is not modelled.
- EventStore.Store.InsertEvents: one `now` per batch instead of one clock reading per event; a nil data map, column widths and float values outside the 64-bit range are not modelled.
- EventStore.Store.Queue: cleaned data is a new value; the in-place change of the caller's map (also when the batch fails) is not visible afterwards and not modelled.
- AppUsage.FixedWindowsNeverGoBack: days have a fixed length and no time zone, so calendar arithmetic across clock changes is left out.
- SpoolQueue.Spool.PendingEvents: a file that cannot be read or parsed (half written, say) is in `unreadable`; sub-directories and directory read errors are left out.
- SpoolQueue.Spool.AddEvent: a refused write leaves no file; a partly written one counts as unreadable.
- Agent.Agent.Capture: display and JPEG errors end the loop as a refused blob does; the events' times are one parameter, and their sizes are given.
- Agent.Agent.Drain: which listings, requests, replies and deletions fail is fixed before it starts; what is promised of files and tables, beyond its being a run of the protocol, is for a drain during which nothing else touches them.
- Agent.Agent.PostBatch: alert evaluation after the insert and HTTP itself are left out. The size of a batch is that of its events and commas; the few bytes of its id, time and brackets are not counted, so a batch that only they put over the 8 MiB limit counts as one that does not arrive.
- Screenshots.NoDanglingScreenshot: a redelivered upload can restore a blob that was purged; such a blob counts as on the server again.
- Fswatch.DirCounter.AddTree: paths are their lower-cased, cleaned keys; case folding, symbolic links and trees that change during the walk are left out, and so are the directories created later and the settle timers.
- Fswatch.DirCounter.WatchRoots: which drives exist and which folders the policy names is a parameter.
- Browsing.Collector.ScanSource: copying the database, SQL, titles, domains and browser names are left out; the time conversion is kept.
- Updater.Updater.CheckAndUpdate: downloads, signature checks and the install are free outcomes; state writes succeed and checks do not overlap.
- Service.Runner.OnPolicy: writes of runtime.json succeed; the indicator and the tickers are left out.
- Consent.ServiceNeedsConsent: statements of the heartbeat handler succeed and run as one step; policy answers are computed in two steps (machine row, then consent).
- Consent.MarkersCollideIff: letter case is that of ASCII letters; other letters all become underscores.
- Health.MachineHealth.Heartbeat: whether a collector has recent data is an input; machine touch, consent and pending commands are elsewhere or left out.
- Health.HealthRegistry.StartCollectors: a collector that crashes later, and the gap between its check and its report, are left out.
- Offline.Machines.SweepOfflineMachines: one sweeper and successful flag updates; machine rows are not deleted.
- Policies.PolicyStore.EffectivePolicy: among assigned rows of one version the first is taken, where the database may return any.
- Policies.PolicyStore.SetGroupPolicy: concurrent saves of one name are left out; a document is opaque text, so decoding it over the default is too.
- Password.VerifyAcceptsEqualKeys: Argon2 is an arbitrary function with keys of the requested length; its panics for zero passes or threads are not modelled.
- Netflow.Collector.Run: event tracing, process names and 64-bit overflow of the counters are left out.
- HTTP, TLS, certificates, enrollment, configuration, SQL text and migrations: plumbing between what is modelled.
- Alert rules, tokens, approvals, roles, sessions and pending commands: branches and one-step guards that would only add easy members.
- TOTP, AES-GCM and Ed25519: cryptography; TOTP would add a short fixed computation.
- DNS, USB, print, install, posture and security-log collectors: readers of Windows interfaces.
- The dashboard, reports and the swap script: presentation and foreign code.
