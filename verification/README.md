# Verification of kontroller's hard cores

A model, in Dafny, of the parts of kontroller whose correctness is hardest to see by reading, with proofs
of what they promise:

- the **parallel copy engine** (`CopyEngine`, `CopyProofs`, `CopyOrder`, `CopyTheorems`, `CopyOverlap`,
  `CopyRuns`, `CopyWorker`): a producer, a bounded channel, any number of workers, a watchdog, an error record that the
  first writer wins, and a two-step commit. Every atomic action of every thread is one step; a run is any
  list of enabled steps.
- the **change watcher** (`ChangeWatcher`, `WatcherProofs`, `WatcherNotices`, `WatcherTheorems`, `WatcherRuns`,
  `WatcherTicks`): a main
  loop, a goroutine and timer callbacks that share one mutex, one condition variable and several flags,
  some written outside the lock.
- **nuvo recovery** (`NuvoRecovery`, `RecoveryProofs`, `RecoveryAnswers`, `CacheDevices`): a retried procedure
  that may fail at any exit and keeps what it learnt.
- the **column list parser** (`Columns`, `ColumnTheorems`, `ColumnTexts`), the **LUN allocator** and the removal
  of a disk from the list being ranged over (`DiskLuns`, `DiskTheorems`), the **label selector printer**
  (`LabelSelector`), the **credentials file** (`Credentials`, `CredentialTheorems`, `CommandAnswers`,
  `InheritedTokens`), **attribute updates and the client cache** (`CspDomains`) and **segment selection**
  (`SegmentGC`).
- what several of these stand on: text (`Text`), decimal numbers (`Numbers`), sorted keys (`SortedKeys`),
  options and results (`Wrappers`).

The states of the copy and of the watcher also keep a history (errors met, calls made) in which some results are
stated; `CopyRuns`, `WatcherRuns` and `WatcherTicks` say what the answers given in the steps of a run decide, and
`RecoveryAnswers` and `CommandAnswers` do so for single commands.

Objects that the source updates in place are classes here, and loops are loops; each such method is proved
against a function of the old state, and the properties are proved of that function over all inputs or all
runs. Threads are modelled as steps under sequential consistency. Calls into code that is not part of the
repository (clients, the clock, the hash, the cloud) are parameters or answers that may be anything.

## Where the code and its promises part

- `NoVolumesInUse` (pkg/agentd/vreq/recover.go:115-133) releases volumes one by one and returns nothing when
  a later one fails, so the Storage of those already released is forgotten and a later successful
  recovery does not restore its location (`StorageReferenceLost`). `DroppedExactly` says when an attempt
  drops a reference, `NothingDropped` when a series of attempts drops none. Every location is restored
  exactly when the volumes released by calls that failed use no Storage but that of the others
  (`LocationsAreWhatWasReturned`).
- The comment on `WatchForChange` (cmd/ctl/watcher.go:264) says that `ChangeDetected` is always called once.
  It is not when `Watch` fails before its first callback (`ChangeDetectedMayNeverBeCalled`);
  `CalledIffRecorded` says exactly when it is. After a callback error the watcher returns only when the
  goroutine has ended, by the next callback of Watch or an error of Watch (`WatcherResult`), and later events
  may go unreported; `CollectedIsReported` says which are still reported.
- Detaching ranges over the array it shifts (cmd/azure/vm.go:226-231). With repeated names it crashes or
  leaves a disk of the name behind; `DetachIsRight` says exactly when it does neither.
- `nuvoUseCacheDevices` changes the node object before an error return, so a retry that finds nothing to
  change leaves the stored copy behind (`RetryLeavesStaleCopy`).
- With two or more workers and dirty chunks at one offset that differ, the copy commits whatever order the
  workers happened to write in (`OverlapIsNotSequential`). `SequentialIffOrderFree` gives the exact
  condition. A source can send such chunks: the directory endpoint's Differ turns the entries of a
  metadata file into chunks in file order and does not check that offsets increase
  (pkg/endpoint/direndpoint.go:171-209).
- The check of immutable attributes covers the attributes an update gives: one that is optional may be left
  out, and against a nil map nothing is compared (`ImmutableMayChange`). `ImmutableStep` and
  `NilSkipsImmutables` say exactly when a value is kept. The client cache hashes values without a separator
  (`MovedValueIsNotNoticed`): `ServedIffSameText` says exactly when a client built for other attributes is
  served, and values of unchanged lengths are told apart (`SameLengthsAreToldApart`).
- Different label selectors may print alike outside the stated conditions (`AlikeInPrint`).
- Reading a token creates its section in memory; the commands never write it, because each reads the file
  afresh (`ConsultedSectionIsWritten` says what would happen otherwise). Should the library that reads the
  file let a section inherit keys from one whose name it extends after a dot, then logins such as `joe`
  and `joe.smith` on one server can share a token: each may change what is read for the other (`JoeUpdates`,
  `JoeLogsOut`, `SmithUpdates`). `TokenReadByOthers` and `TokenReadAfterLogout` say exactly whose token a
  command changes. Should the library delete sections by the name as given, a logout that is to delete the
  section of a host or login with capital letters deletes nothing (`LogoutForgets`).

## Model

| member | source | states |
|---|---|---|
| CopyOrder.ApplyAllMeaning | cmd/copy/copy.go:159-183 | one thread applying a list in which dirty chunks at one offset have the same bytes leaves each dirty chunk's source bytes at its offset, and every untouched offset as it was |
| CopyOrder.DistinctIsOrderFree | cmd/copy/copy.go:159-183 | dirty chunks at distinct offsets meet the condition of the copy theorems, for every source and any number of workers |
| CopyOrder.StepKeepsOrder | cmd/copy/copy.go:144-277 | every step of every thread keeps: while nothing failed, completed dirty chunks are in place; and a worker alone handles the chunks in the order sent |
| CopyOrder.CompletedIsSequential | cmd/copy/copy.go:144-189 | when all workers are gone, nothing failed and nothing is queued, everything sent was completed once, and the destination is the sequential result if there is one worker or dirty chunks at one offset agree |
| CopyTheorems.CleanCopyIsSequential | cmd/copy/copy.go:144-277 | for every number of workers and interleaving: workers finished and no error recorded implies Differ succeeded, each chunk was handled exactly once, and, with one worker or agreeing dirty chunks, the destination equals the sequential application of the chunk list |
| CopyOverlap.SequentialIffOrderFree | cmd/copy/copy.go:144-277 | for every configuration and chunk list: every clean copy of the list leaves the sequential result if and only if there is one worker or all dirty chunks at one offset have the same source bytes |
| CopyOverlap.AnyChunkMayBeLast | cmd/copy/copy.go:159-173 | with more than one worker, for every list and every dirty chunk of it, some clean copy ends with that chunk's bytes at its offset |
| CopyTheorems.DamageIsContained | cmd/copy/copy.go:159-183 | with distinct dirty offsets, whatever failed, completed dirty chunks are in place and no offset changed but those of completed and failed dirty chunks |
| CopyTheorems.CommitMeansComplete | cmd/copy/copy.go:247-268 | the destination is told to commit only after Differ returned nil, no worker failed, each chunk was handled exactly once, and the source was told to commit and succeeded; it then holds the sequential result, with one worker or agreeing dirty chunks |
| CopyTheorems.ChunksAreConserved | cmd/copy/copy.go:159-179 | in every reachable state the chunks sent are exactly those queued, in a worker's hands, completed or failed, counted with multiplicity |
| CopyTheorems.ProducerIsNotStranded | cmd/copy/copy.go:238-247 | a worker that left while the channel is open implies that the abort poll given to Differ is true |
| CopyTheorems.FirstErrorWins | cmd/copy/copy.go:50-63 | the record is always that of the first call of set in lock order, watchdog included |
| CopyTheorems.RecordIsFinal | cmd/copy/copy.go:50-59 | once recorded, the error never changes in any continuation of the run |
| CopyTheorems.CopyOutcome | cmd/copy/copy.go:247-277 | a finished copy made exactly two Done calls, source first; its record is empty if and only if Differ, all workers, both Done calls and the watchdog had nothing to report, and then both were told to commit |
| CopyRuns.CopySucceedsIffAllWell | cmd/copy/copy.go:144-277 | in every run that ends after both endpoints were set up, the record is empty if and only if no step of the run is an endpoint call answered with an error or a watchdog step; the destination then has the sequential result of what Differ sent; otherwise the record is fatal and has the message, prefix included, of a step that went wrong |
| CopyRuns.TroubleIffWrong | cmd/copy/copy.go:144-268 | in every state of every run an error is recorded, or on its way to the record, if and only if some step so far went wrong |
| CopyRuns.DoneCallsFollowTheRun | cmd/copy/copy.go:257-268 | in every such run each endpoint was told to commit if and only if no step before the decision on its call went wrong, for the destination the source's own Done included |
| CopyRuns.EndsEarlyIffSetupFails | cmd/copy/copy.go:211-227 | the copy ends early if and only if a setup step failed, and no thread but the watchdog moves after that |
| CopyRuns.PoolAndChannel | cmd/copy/copy.go:201-241 | as many workers are started as asked for, or one, and a chunk can be sent if and only if fewer than four for each worker are queued |
| CopyRuns.AnyAnswerIsPossible | cmd/copy/copy.go:191-277 | the runs cover every answer of the endpoints, every chunk list and every moment of the watchdog |
| CopyTheorems.FailedSetup | cmd/copy/copy.go:211-227 | an endpoint that cannot be set up ends the copy with an error, no worker, no chunk and no Done call |
| CopyTheorems.CopyTerminates | cmd/copy/copy.go:247-277 | after the channel is closed no schedule makes the workers and the main thread take more steps than a bound computed from the state |
| CopyTheorems.CopyIsNeverStuck | cmd/copy/copy.go:238-268 | until the copy has returned, some thread other than the watchdog can move in every reachable state, so the wait for the workers ends |
| CopyTheorems.BlockedProducerIsServed | cmd/copy/copy.go:233-247 | with the channel full, a worker can move or the abort poll given to Differ is true |
| CopyOverlap.OverlapIsNotSequential | cmd/copy/copy.go:159-173 | for any two dirty chunks at one offset with different bytes and more than one worker: a clean, committed copy of these two chunks that leaves the older bytes behind |
| CopyOverlap.FailedWriteMayLeaveAnything | cmd/copy/copy.go:168-172 | for every dirty chunk and any bytes there is a run in which writing it fails and leaves these bytes at its offset |
| CopyProofs.StepKeepsInv | cmd/copy/copy.go:144-277 | every step of every thread keeps the invariant from which the copy theorems follow |
| CopyProofs.RunKeepsInv | cmd/copy/copy.go:191-277 | the invariant holds in every state of every run |
| CopyProofs.HeldOffsetIsFresh | cmd/copy/copy.go:159-173 | with distinct dirty offsets, no completed or failed dirty chunk has the offset of a dirty chunk a worker holds |
| CopyWorker.CopyError.Set | cmd/copy/copy.go:50-59 | the record becomes the new error if it was empty, and stays as it is otherwise |
| CopyWorker.CopyError.IsSet | cmd/copy/copy.go:61-63 | tells whether an error is recorded |
| CopyWorker.Work | cmd/copy/copy.go:144-189 | the worker's loop with its reused buffer makes exactly the endpoint calls of the chunks it handled, in order; it stops short if and only if one of its calls failed, right after that call, whose prefix and error it records unless an error was recorded before; the destination is as the handled chunks leave it, but for the offset of a failed write |
| ChangeWatcher.Start | cmd/ctl/watcher.go:280-288 | a ticking detector is refused exactly when its period is not positive |
| WatcherTheorems.NoLostWakeup | cmd/ctl/watcher.go:295-298 | parked with the mutex free means no flag is set; woken or past the wait means one is; the final wait is never for a goroutine that has finished |
| WatcherTheorems.NoDeadlock | cmd/ctl/watcher.go:233-328 | a held mutex is held by a thread that can move; with it free the main loop can move unless there is nothing to do and the goroutine is still there |
| WatcherTheorems.MutualExclusion | cmd/ctl/watcher.go:236-261 | no two of the main loop, the goroutine and the timers are in their critical sections together |
| WatcherTheorems.NotPendingIsReported | cmd/ctl/watcher.go:299-311 | nothing is pending in the log if and only if every recorded event is followed by a call of ChangeDetected |
| WatcherTheorems.NoLostChange | cmd/ctl/watcher.go:235-311 | in every run ending without a callback error every recorded event is followed by a ChangeDetected call |
| WatcherTheorems.CollectedIsReported | cmd/ctl/watcher.go:295-311 | in every run that returns, with or without a callback error, every event recorded by the time the loop collects the flags, the last time included, is followed by a ChangeDetected call |
| WatcherTheorems.CalledIffRecorded | cmd/ctl/watcher.go:291-321 | in every run that ends, with or without a callback error, ChangeDetected was called if and only if an event was recorded |
| WatcherTheorems.TicksFollowChanges | cmd/ctl/watcher.go:309-319 | NoChangeTick is not called, and no callback fails, before ChangeDetected has been called |
| WatcherNotices.StepKeepsNotices | cmd/ctl/watcher.go:291-321 | every step keeps what ties timers, time-outs and callbacks to an earlier call of ChangeDetected or to leaving the loop |
| WatcherTheorems.WatcherResult | cmd/ctl/watcher.go:245-252 | WatchForChange returns only after the goroutine's last critical section; it returns nil if and only if no callback failed and Watch ended without a real error, and otherwise the error of one of the two |
| WatcherRuns.ResultIsOfTheRun | cmd/ctl/watcher.go:245-327 | in every run that returns, the result is nil if and only if no step of the run is a callback returning an error or Watch ending with one; otherwise it is the error of such a step |
| WatcherRuns.LastErrorWins | cmd/ctl/watcher.go:245-316 | when both failed, the error returned is the one written last |
| WatcherRuns.NothingIsCalledAfterFailure | cmd/ctl/watcher.go:314-321 | after a callback returned an error no callback is called again, stopThread is set by the loop's next step, and the loop goes to wait for the goroutine |
| WatcherRuns.StoppedWatchEnds | cmd/ctl/watcher.go:235-251 | a watch callback that has yet to look at stopThread when that is set records no event and ends the goroutine, within ten of its steps |
| WatcherRuns.AnyAnswerIsPossible | cmd/ctl/watcher.go:245-319 | the runs cover every answer of the callbacks and of Watch and every moment at which a timer expires |
| WatcherTicks.EveryEventIsReported | cmd/ctl/watcher.go:235-321 | in every run that returns and in which no callback returned an error, every event that Watch met is followed by a call of ChangeDetected |
| WatcherTicks.NoCallsWithoutCause | cmd/ctl/watcher.go:235-311 | ChangeDetected is called at most once for each event met, and NoChangeTick at most once for each timer expired |
| WatcherTicks.LoopActsOnFlags | cmd/ctl/watcher.go:299-313 | when the loop has collected a change it calls ChangeDetected, with a time-out and no change NoChangeTick, and otherwise nothing, whatever happens in between |
| WatcherTicks.TickIsComing | cmd/ctl/watcher.go:255-319 | with a ticking detector, whenever the loop is parked after a first call, the newest timer has yet to report that it expired and can move, so without a change a tick comes |
| WatcherTicks.TimerIsStopped | cmd/ctl/watcher.go:304-319 | the timer armed last, if it has not expired when the loop next collects the flags, never expires, unless an older timer cleared the field before |
| WatcherTicks.TickSparesNewerTimer | cmd/ctl/watcher.go:255-307 | after a timer cleared the field, whichever timer it named, the loop stops no timer until it arms another |
| WatcherNotices.StepKeepsBlame | cmd/ctl/watcher.go:245-327 | every step keeps that the error kept is the callback's or that of Watch, though both write it outside the lock |
| WatcherTheorems.TicksNeedAPeriod | cmd/ctl/watcher.go:309-319 | NoChangeTick is called, and timers exist, only with a positive period |
| WatcherTheorems.GoneIsFinal | cmd/ctl/watcher.go:291-328 | once the goroutine is gone it stays gone, and every step of the main loop brings its return nearer, whatever the timers do |
| WatcherTheorems.ReturnsSoonAfterGoroutine | cmd/ctl/watcher.go:291-328 | at most seventeen steps of the main loop separate the end of the goroutine from the return, in every run |
| WatcherTheorems.ChangeDetectedMayNeverBeCalled | cmd/ctl/watcher.go:264-264 | a run that returns without a callback error and without any call of ChangeDetected |
| WatcherProofs.StepKeepsInv | cmd/ctl/watcher.go:233-328 | every step of the main loop, the goroutine and the timers keeps the watcher's invariant |
| WatcherProofs.RunKeepsInv | cmd/ctl/watcher.go:233-328 | the invariant holds in every state of every run |
| NuvoRecovery.Volumes.NoVolumesInUse | pkg/agentd/vreq/recover.go:115-133 | volumes are released in order up to the first failure; the Storage ids are returned only when all were released |
| NuvoRecovery.Volumes.CheckNuvoVolumes | pkg/agentd/vreq/recover.go:92-106 | when nuvo lists a volume nothing is released and the check succeeds; when it lists none or cannot list, success leaves no volume in use and failure the last ones |
| NuvoRecovery.AppCtx.ReleaseVolumes | pkg/agentd/appctx.go:536-574 | everything before UseNodeUUID: new state, call trace and success are those of the specification |
| NuvoRecovery.AppCtx.LoadCaches | pkg/agentd/appctx.go:590-609 | the first start loads both caches from the lists, and touches neither when a list fails |
| NuvoRecovery.AppCtx.RestoreNuvo | pkg/agentd/appctx.go:611-623 | a restart configures the cached devices in order up to the first failure and then passes on the collected Storage ids |
| NuvoRecovery.AppCtx.BecomeReady | pkg/agentd/appctx.go:624-639 | the PSO is created once; only then is the recovery state cleared, the count raised and the service ready |
| NuvoRecovery.AppCtx.InitializeNuvo | pkg/agentd/appctx.go:533-640 | one call changes the agent's fields, issues the calls and returns as the specification of an attempt says, at every exit |
| RecoveryProofs.AttemptEffect | pkg/agentd/appctx.go:533-640 | an attempt leaves the service ready if and only if it succeeds, counts only successes, and a failed one keeps the collected Storage ids and adds those it gained |
| RecoveryAnswers.FirstStartVolumes | pkg/agentd/vreq/recover.go:92-133 | on the first start, an attempt that looks at the volumes leaves them in use when nuvo lists at least one; otherwise it releases them all, or stops with those from the first failure on in use, exactly when listing or releasing fails |
| RecoveryAnswers.RestartVolumes | pkg/agentd/appctx.go:557-574 | after a restart the volumes are released whatever nuvo lists, and their Storage ids are kept if the attempt fails later |
| RecoveryAnswers.SucceedsIffAllAnswersAreGood | pkg/agentd/appctx.go:533-640 | an attempt succeeds if and only if everything asked on its way is answered well |
| RecoveryAnswers.StopsAtFirstFailure | pkg/agentd/appctx.go:533-640 | every call but the last went well, the last is the one that failed or the announcement of a success; the state is updated first if and only if the service was not NOT_READY, and no call is made when the node is unknown |
| RecoveryAnswers.WhatASuccessCalls | pkg/agentd/appctx.go:533-640 | the exact calls of a successful attempt in their order, with the locations of exactly the Storage referenced |
| RecoveryAnswers.FieldsAfterAttempt | pkg/agentd/appctx.go:533-640 | readiness, count, PSO and fatal errors after any attempt: the PSO is created in the first success, and failing to create it is the only fatal error |
| RecoveryProofs.ReadyIffLastAttemptSucceeded | pkg/agentd/appctx.go:520-532 | over every run of attempts the service is ready if and only if the last attempt succeeded, and nuvoInitCount counts the successes |
| RecoveryProofs.LocationsAreWhatWasReturned | pkg/agentd/appctx.go:562-623 | in a successful attempt after a restart RecoverStorageLocations receives exactly the union of the lists returned since the previous success, which is the Storage of the volumes in use at the restart but for the first ones, released by calls that failed; every location is restored if and only if the others use all Storage those used; every device in the storage cache is configured |
| RecoveryProofs.DroppedExactly | pkg/agentd/vreq/recover.go:124-133 | an attempt drops Storage ids if and only if it releases a volume that uses Storage and then fails on a later volume |
| RecoveryProofs.AttemptVolumes | pkg/agentd/vreq/recover.go:115-133 | an attempt either gains the Storage of all volumes in use and leaves none in use, or fails, gains nothing and drops the Storage of the first ones, leaving the others in use |
| RecoveryProofs.NothingDropped | pkg/agentd/appctx.go:562-571 | from a state in which the service is ready to any before it is ready again, nothing was dropped if and only if no attempt dropped anything |
| RecoveryProofs.StorageReferenceLost | pkg/agentd/vreq/recover.go:124-127 | a concrete run of four actions whose last, successful attempt restores one of two Storage locations |
| RecoveryProofs.CallsAreOrdered | pkg/agentd/appctx.go:557-639 | in every trace UseNodeUUID directly follows a successful volume check, and every device, cache, location and PSO call comes after UseNodeUUID succeeded and none before |
| RecoveryProofs.FirstStorageWins | pkg/agentd/appctx.go:756-766 | the storage map loaded from a list has exactly the listed ids, each with the first listed entry of that id |
| RecoveryProofs.FirstLunWins | pkg/agentd/appctx.go:704-715 | the LUN map loaded from a list has exactly the listed keys, each with the first listed entry of that key |
| RecoveryProofs.CachesAfterAttempt | pkg/agentd/appctx.go:572-630 | a first start leaves the loaded lists in both caches when it succeeds or fails at the PSO, and both unchanged otherwise; a restart keeps the storage cache, and empties the LUN cache if and only if NoVolumesInUse returned a list, without which it fails |
| RecoveryProofs.LunKeysDiffer | pkg/agentd/appctx.go:708-708 | two LUNs share a cache key only if they are the same, for volume ids without a colon |
| CacheDevices.OfferAllMeaning | pkg/agentd/appctx.go:648-675 | offering distinct devices one after the other reconciles exactly those that nuvo takes |
| CacheDevices.Node.ReconcileDevice | pkg/agentd/appctx.go:657-669 | the device takes the reported size and the state it implies, and is reported changed if and only if it differs |
| CacheDevices.Node.UpdateNodeLocalStorage | pkg/agentd/heartbeat/hb.go:162-177 | writes nothing while there is no node object; otherwise the node object first, and the stored copy equals it afterwards if the write works and is untouched if not |
| CacheDevices.Node.NuvoUseCacheDevices | pkg/agentd/appctx.go:644-684 | devices are offered in key order up to the first refusal, which is of a CACHE or UNUSED device; if there is none every CACHE or UNUSED device was accepted and shows the answer, and every other is untouched; the node is updated if and only if something changed, with the unit size last reported |
| CacheDevices.SuccessReconciles | pkg/agentd/appctx.go:650-675 | when no device is refused every CACHE or UNUSED device was accepted, shows the reported size and is CACHE if and only if that is not zero; every ERROR or RESTRICTED device is untouched |
| CacheDevices.UnitIsLastReported | pkg/agentd/appctx.go:670-683 | the unit size sent with the update is that of the last device that was asked about |
| CacheDevices.UpdateIsCalledFor | pkg/agentd/appctx.go:645-683 | the stored node is to be updated if and only if a device changed, or the unit size was not the one on record after some device |
| CacheDevices.RetryLeavesStaleCopy | pkg/agentd/appctx.go:653-683 | a failed attempt and a successful retry after which object and stored copy differ |
| SortedKeys.SortedStringKeys | pkg/util/mapkeys.go:36-39 | the keys of the map, each once, in sorted order |
| SortedKeys.SortedUnique | pkg/util/mapkeys.go:36-39 | a set has only one sorted list, so the result does not depend on the order in which the map yields its keys |
| Columns.MakeTable | cmd/ctl/helpers.go:205-210 | the valid columns by trimmed lower case key, later ones taking the key |
| Columns.ReadToken | cmd/ctl/helpers.go:222-248 | how one token changes the parser's variables, and when it is refused |
| Columns.ReadTokens | cmd/ctl/helpers.go:211-249 | the loop succeeds if and only if no token is unknown or a second star, and then holds the explicit columns before and after the star, the removed defaults and whether defaults are wanted; a failure names the first offending token |
| Columns.ParseColumns | cmd/ctl/helpers.go:204-270 | fails exactly on an unknown name or a second star, reporting the first; otherwise returns the columns of the declarative specification |
| ColumnTheorems.AppendNewMeaning | cmd/ctl/helpers.go:252-265 | appending keeps the base and adds, without repetition, exactly the columns neither skipped nor present |
| ColumnTheorems.AppendNewInOrder | cmd/ctl/helpers.go:252-265 | what is appended comes in the order of the list it is taken from |
| ColumnTheorems.ShownColumns | cmd/ctl/helpers.go:250-265 | a column is in the merged list if and only if it is explicit, or a default that is wanted and not removed |
| ColumnTheorems.ShownOrder | cmd/ctl/helpers.go:250-265 | the merged list is the explicit columns before the star, then new defaults, then new later columns, each part in its own order |
| ColumnTheorems.DuplicateFree | cmd/ctl/helpers.go:250-269 | the result is free of duplicates if and only if the explicit columns before the star are, or the defaults where it falls back to them |
| ColumnTheorems.ParseOfJoin | cmd/ctl/helpers.go:204-270 | joining any non-empty list of well-formed valid names with commas is read as that list |
| ColumnTheorems.RoundTrip | cmd/ctl/helpers.go:204-270 | the parser returns the list whose joined names it is given |
| ColumnTheorems.CaseDoesNotMatter | cmd/ctl/helpers.go:240-240 | strings that differ in letter case only are read as the same tokens |
| ColumnTheorems.SpaceDoesNotMatter | cmd/ctl/helpers.go:218-221 | white space around tokens does not change what is read |
| ColumnTheorems.DefaultsAreAppended | cmd/ctl/helpers.go:199-200 | for any tokens without a star the result is the explicit columns followed by the defaults that are wanted, not removed and not among them, in their order |
| ColumnTexts.ParseItems | cmd/ctl/helpers.go:204-270 | for every list of names, "+name", "-name" and stars typed with commas between them: parsing fails if and only if there are two stars; otherwise the result is the names before the star, then the defaults if anything but plain names was typed, without those dropped or named before, then the names behind the star that are new, or all defaults if that is nothing |
| ColumnTexts.ParseRemoval | cmd/ctl/helpers.go:235-244 | "-name" shows the other defaults, or all when there are no others |
| ColumnTexts.ParseAddition | cmd/ctl/helpers.go:232-245 | "+name" shows that column and then the other defaults |
| ColumnTexts.ParseBehindStar | cmd/ctl/helpers.go:222-230 | "*,name" shows the defaults and then that column if it is not one of them |
| ColumnTexts.ParseTwoStars | cmd/ctl/helpers.go:222-225 | "*,*" is refused |
| ColumnTexts.AcceptedTokens | cmd/ctl/helpers.go:217-248 | tokens are accepted if and only if each is a star or names a valid column, in any case and with or without a sign, and no two are stars |
| Text.SplitJoin | cmd/ctl/helpers.go:217-217 | splitting undoes joining for parts without the separator |
| Text.TrimPadded | cmd/ctl/helpers.go:218-218 | white space put around a text is trimmed away |
| Text.LowerTrim | cmd/ctl/helpers.go:207-208 | folding case and trimming commute |
| DiskLuns.VirtualMachine.UsedLuns | cmd/azure/vm.go:157-162 | the table marks exactly the LUNs in use; there is none if and only if a LUN is out of range |
| DiskLuns.VirtualMachine.NextLun | cmd/azure/vm.go:163-172 | the least free LUN; fails exactly when all 64 are used |
| DiskLuns.VirtualMachine.AttachDisk | cmd/azure/vm.go:155-183 | appends one disk with the least free LUN, or fails and leaves the disks as they are, exactly when all 64 are used or one is out of range |
| DiskLuns.VirtualMachine.MoveDown | cmd/azure/vm.go:229-229 | the in-place removal moves the rest of the slice down by one and leaves the last element doubled |
| DiskLuns.VirtualMachine.DetachDisk | cmd/azure/vm.go:224-237 | the loop over the shifting array leaves the disks, reports not attached, or crashes exactly as the specification on the original list says |
| DiskTheorems.SweptIsWithout | cmd/azure/vm.go:226-231 | skipping the disk behind a removed one removes exactly the disks of the name if and only if no two neighbours carry it |
| DiskTheorems.DetachIsRight | cmd/azure/vm.go:224-237 | the command removes all disks of the name and no other if and only if the last disk does not repeat the name of an earlier one and no two neighbours carry it |
| DiskTheorems.DetachRemovesOne | cmd/azure/vm.go:224-237 | with distinct names it removes exactly the named disk and keeps the order |
| DiskTheorems.AttachIsAStep | cmd/azure/vm.go:155-183 | an attach call is a step of the run model, and with fitting LUNs never indexes out of range and keeps them fitting |
| DiskTheorems.LunsAlwaysFit | cmd/azure/vm.go:155-232 | over every sequence of attaches and detaches LUNs stay pairwise distinct and in 0..63, whatever the names and whether or not the cloud carries a request out |
| DiskTheorems.LeastFreeExists | cmd/azure/vm.go:163-172 | there is exactly one least free LUN unless all 64 are used, and none then |
| DiskTheorems.DetachUndoesAttach | cmd/azure/vm.go:224-237 | detaching a disk just attached under a new name gives the disks back |
| DiskTheorems.RepeatedNamesGoWrong | cmd/azure/vm.go:226-231 | concrete lists on which detaching crashes, and leaves a disk of the name |
| LabelSelector.PrintRequirement | pkg/cluster/k8s_label_selector.go:43-62 | the text of one expression for every operator |
| LabelSelector.PrintedForms | pkg/cluster/k8s_label_selector.go:37-62 | the texts of a label and of In, NotIn, Exists and DoesNotExist |
| LabelSelector.List | pkg/cluster/k8s_label_selector.go:26-65 | nil exactly for a nil or empty selector; otherwise every slot is filled, the labels first in key order and then the expressions in order |
| LabelSelector.RoundTrip | pkg/cluster/k8s_label_selector.go:26-65 | a decoder recovers the labels and the ordered expressions from the list, for well-formed keys, comma-free values, known operators and non-empty value lists |
| LabelSelector.ListIsInjective | pkg/cluster/k8s_label_selector.go:26-65 | two such selectors with the same list ask for the same |
| LabelSelector.ListIsDetermined | pkg/cluster/k8s_label_selector.go:37-41 | the list does not depend on the order in which the map yields its keys |
| LabelSelector.AlikeInPrint | pkg/cluster/k8s_label_selector.go:37-62 | six pairs of different entries that print alike when a condition is dropped |
| Credentials.AuthCmd.ReadCredentialsFile | cmd/ctl/auth.go:114-124 | the file is read once; afterwards the sections in memory are used |
| Credentials.AuthCmd.GetToken | cmd/ctl/auth.go:146-153 | the stored token or the empty one; the section and key exist in memory afterwards and the file is untouched |
| Credentials.AuthCmd.SetToken | cmd/ctl/auth.go:156-172 | which argument is refused, and the token written under the identity's section otherwise |
| Credentials.AuthCmd.LoginExecute | cmd/ctl/auth.go:294-326 | which password is used, what is stored of it, and what each failure leaves in memory and in the file |
| Credentials.AuthCmd.LogoutExecute | cmd/ctl/auth.go:347-373 | the section, or only its token, is removed; without a section nothing is written |
| Credentials.AuthCmd.ListExecute | cmd/ctl/auth.go:213-235 | fails on the first section name that does not split into three parts with a number in the middle, all before it being well-formed; otherwise lists the sections that pass the filter |
| CredentialTheorems.RowsAreTheSections | cmd/ctl/auth.go:213-264 | the list has a row for exactly the sections that pass the filter, with the identity in the section name and its token |
| CredentialTheorems.ParsesIffCommaFree | cmd/ctl/auth.go:218-227 | the section name of an identity splits back into its host, port and login, up to case, if and only if host and login have no comma |
| CredentialTheorems.SameSection | cmd/ctl/auth.go:150-151 | identities share a section if and only if they agree up to the case of host and login |
| CredentialTheorems.ListIsNeverCorrupt | cmd/ctl/auth.go:213-227 | over every run of commands every section name in the file splits back into a valid identity it was written for, so the list never reports corruption |
| CredentialTheorems.SectionsAreWrittenByCommands | cmd/ctl/auth.go:169-171 | every section in the file was there at the start or was written by an earlier update or login of that name |
| CredentialTheorems.CommandWrites | cmd/ctl/auth.go:127-172 | a command that does not write leaves the file as it is, and only well-formed identities are written |
| CredentialTheorems.CommandNames | cmd/ctl/auth.go:169-171 | a command creates and removes no section but that of its own identity, and changes no other if the section has no ancestor to inherit keys from |
| CredentialTheorems.OthersAreUntouched | cmd/ctl/auth.go:169-171 | a command whose section has no ancestor to inherit from gives its own identity the token it writes and leaves the whole section of every other identity alone, and the token read for it if that section has no ancestor either |
| CredentialTheorems.UpdateStaysHome | cmd/ctl/auth.go:169-171 | in a store that inherits keys an update leaves the contents of all other sections alone if and only if the identity has a token of its own, or no ancestor has one, or the ancestor has that very token |
| CredentialTheorems.AncestorIsOverwritten | cmd/ctl/auth.go:169-171 | where such a store finds the token of an identity in an ancestor, an update overwrites the ancestor's token and leaves none in the identity's own section |
| CredentialTheorems.LastTokenIsRead | cmd/ctl/auth.go:145-172 | over every run the token read for an identity is the one left by the last command that wrote for it, if the store does not inherit keys or no section name of the run extends another after a dot |
| CredentialTheorems.StoredPasswordIsUsed | cmd/ctl/auth.go:301-324 | a login stores the password it used, and the next login uses it; with ForgetPassword the next login prompts |
| CommandAnswers.UpdateAnswers | cmd/ctl/auth.go:156-172 | an update writes if and only if the file can be read and written, host and login are non-empty without bracket or comma, the port is positive and the token non-empty; each error says which of these fails first |
| CommandAnswers.LoginAnswers | cmd/ctl/auth.go:294-326 | a login succeeds if and only if the password given, or else the stored one, or else the trimmed answer to the prompt, is granted a token that can be stored; that password is then stored, or an empty one |
| CommandAnswers.FailedLogin | cmd/ctl/auth.go:294-319 | which of login, file, password and grant a failed login misses |
| CommandAnswers.LogoutAnswers | cmd/ctl/auth.go:347-373 | when a logout fails, and with which error; without a section it succeeds and writes nothing |
| CommandAnswers.FullFilter | cmd/ctl/auth.go:228-235 | with host, login and port given, the list shows exactly the rows of the section these name |
| InheritedTokens.TokenReadByOthers | cmd/ctl/auth.go:145-172 | after a successful update or login the token read for any identity is what was read for it before if and only if its token is not read through the section written, or was the new one already |
| InheritedTokens.TokenReadAfterLogout | cmd/ctl/auth.go:363-373 | after a logout that removes something the token read for any other identity is what was read for it before if and only if it was not found in that section, or the section's ancestor has the same |
| InheritedTokens.ReadAfterWrite | cmd/ctl/auth.go:169-171 | after any write those who read through the section written get the new value and all others what they got before |
| InheritedTokens.LogoutForgets | cmd/ctl/auth.go:367-373 | a logout that is to store the password removes the token only; another removes the section if and only if the library deletes under the folded name or the name has no capitals; what is read afterwards is the token of the ancestor, or none |
| InheritedTokens.JoeUpdates | cmd/ctl/auth.go:169-171 | in a store that inherits keys, with joe logged in, an update for joe changes the token read for joe.smith |
| InheritedTokens.JoeLogsOut | cmd/ctl/auth.go:367-373 | in that store a logout of joe leaves joe.smith no token |
| InheritedTokens.SmithUpdates | cmd/ctl/auth.go:169-171 | in that store an update for joe.smith changes joe's token |
| CredentialTheorems.ConsultedSectionIsWritten | cmd/ctl/auth.go:150-152 | had one authCmd read a token and then written the file, the list would be corrupt if and only if the identity read has a comma |
| Numbers.AtoiOfDecimal | cmd/ctl/auth.go:224-227 | reading the printed form of any 64-bit int gives it back |
| Numbers.AtoiReads | cmd/ctl/auth.go:224-227 | a text is a number if and only if it is digits after an optional sign and fits in 64 bits |
| CspDomains.ValidateBasicAttributes | pkg/centrald/csp_domains.go:199-224 | accepts exactly the attribute maps that fit all descriptors and have no unknown name, in whatever order the maps are ranged over; an error names something wrong |
| CspDomains.AcceptableIffNoFault | pkg/centrald/csp_domains.go:199-224 | attributes are acceptable if and only if none is missing, of a wrong kind, invalid, modified though immutable, or unknown |
| CspDomains.ImmutableStep | pkg/centrald/csp_domains.go:200-216 | an accepted update keeps the value of an immutable attribute if and only if it gives the attribute or there was no value; only an optional one can be left out |
| CspDomains.NilSkipsImmutables | pkg/centrald/csp_domains.go:214-216 | an update is accepted against the old attributes if and only if it is accepted against a nil map and gives no immutable attribute a new value |
| CspDomains.RequiredImmutableIsKept | pkg/centrald/csp_domains.go:199-224 | over every history of accepted updates a required immutable attribute keeps its first kind and value |
| CspDomains.OptionalImmutableIsKeptOrGone | pkg/centrald/csp_domains.go:199-224 | at any two points of a history an immutable attribute has the same value or is empty or absent at the later one |
| CspDomains.ClearedStaysCleared | pkg/centrald/csp_domains.go:199-224 | an immutable attribute that is empty or absent never has a value again |
| CspDomains.ImmutableMayChange | pkg/centrald/csp_domains.go:200-216 | leaving out an optional immutable attribute is accepted, and so is any change against a nil map |
| CspDomains.AppCtx.MakeAttrValSHA | pkg/centrald/csp_domains.go:322-328 | the hash of the values in key order, a function of the attributes alone |
| CspDomains.AppCtx.Csp | pkg/centrald/csp_domains.go:62-83 | a provider is created at most once per type, and a failure is not cached |
| CspDomains.AppCtx.GetDomainClient | pkg/centrald/csp_domains.go:333-370 | when a cached client is served, when one is built and recorded, and what each failure leaves |
| CspDomains.RecordIsLatestBuild | pkg/centrald/csp_domains.go:354-362 | over every run each record is that of the last request that built a client for its ID, and no record has an empty ID |
| CspDomains.ClientsAgree | pkg/centrald/csp_domains.go:333-370 | every client handed out for an object with metadata was built from an object of the same ID, version and hash: the object itself, or that of the latest build for the ID |
| CspDomains.FailureChangesNoRecord | pkg/centrald/csp_domains.go:349-369 | a failed request changes no record; an object without an ID is never recorded and always gets its own client |
| CspDomains.ServedIffSameText | pkg/centrald/csp_domains.go:333-347 | over every run, with a hash without collisions, an object is served the client of the latest build for its ID if and only if its version and hashed text are those it was built from |
| CspDomains.SameLengthsAreToldApart | pkg/centrald/csp_domains.go:322-328 | attributes of the same names whose values have the same lengths have one hashed text if and only if all values agree |
| CspDomains.MovedValueIsNotNoticed | pkg/centrald/csp_domains.go:324-326 | two different attribute maps with one hash, the second served the client of the first |
| SegmentGC.CandidatesAreTheCollectable | cmd/nuvo_vm/gc.go:31-33 | the candidates are exactly the collectable segments of all parcels of all devices |
| SegmentGC.PoliciesAreOrders | cmd/nuvo_vm/gc.go:38-52 | each of the four comparators is a strict weak order |
| SegmentGC.ChosenIsFirstUnbeaten | cmd/nuvo_vm/gc.go:64-70 | for every strict weak order the segment kept by the loop is the first candidate that no candidate beats |
| SegmentGC.ManifestBest | cmd/nuvo_vm/gc.go:54-78 | fails exactly when no segment is collectable; otherwise gives the parcel index and position of the first collectable segment no collectable segment beats |
| SegmentGC.NoneIfUnused | cmd/nuvo_vm/gc.go:54-78 | there is no best segment if and only if every segment is reserved, of the log or without an age |
| SegmentGC.BestByAge | cmd/nuvo_vm/gc.go:38-44 | the oldest policy triggers, by parcel index and position, a collectable segment of least age, and the youngest one of greatest age |
| SegmentGC.BestByFullness | cmd/nuvo_vm/gc.go:46-52 | the fullest policy triggers a collectable segment of greatest fullness, and the emptiest one of least |
| SegmentGC.GcAll | cmd/nuvo_vm/gc.go:100-115 | triggers exactly the collectable segments in order, up to and including the first failure |

## Left out

- Real time, scheduling fairness and weak memory: `isSet` reads the record without the lock, and the
  watcher writes some fields outside it; both are single atomic steps here. That a thread which can move
  does move is not claimed.
- The fields of the copy response and of the change watcher are fields of a state value there, not of an
  object: other threads update them between any two steps. `CopyWorker` has one worker alone, in place.
- That at most one timer is armed: the last loop iteration arms one nobody stops, and a late `tick` may
  clear the field of a newer one.
- The statistics counters, the progress file and the exit of the process after the watchdog's error; the
  watchdog is a thread that may set the error at any time.
- Endpoints and `Differ`: a source is a function from offset and hash to bytes, a destination a map by
  offset, and Differ any sender of chunks that closes the channel. Whether a particular Differ polls the
  abort predicate is not modelled.
- NuvoRecovery.Volumes.NoVolumesInUse: a volume either is released or not; removing mounts of a volume that
  is also mounted on other nodes, and its cache and state updates, are one call.
- NuvoRecovery.AppCtx.InitializeNuvo: the cache device call is one answer here, its body is in CacheDevices;
  the asynchronous stop that follows the fatal error of a PSO that cannot be created is only counted.
- NuvoRecovery.AppCtx.AddLUN: the panic on an invalid LUN is a precondition, as is that of AddStorage.
- CacheDevices.SuccessReconciles: sizes are below 2 to the power 64, the width of the nuvo API.
- Columns.ParseColumns: case folding and white space are those of ASCII.
- DiskLuns.VirtualMachine.AttachDisk: the disk found by the cloud has a size, which the source dereferences.
- The Azure client calls before and after the list of disks is changed; a request is carried out or not.
- Credentials.AuthCmd.LoginExecute: the checks for a unix socket and for no-login, the emitted record, and
  the inside of the password obfuscation.
- Credentials.AuthCmd.ListExecute: validation of listed tokens by the service, expiry times, and the empty
  token keys that reading creates in memory; host and login flags are compared by ASCII folding.
- The INI syntax and library: a file is a map of sections by folded name, looked up and created under one
  folding; the library is not part of this model, so whether it inherits keys and whether it folds the name
  it deletes are parameters. The default section has no entries.
- CredentialTheorems.OthersAreUntouched: asks, of a store that inherits keys, that the section extend no
  other after a dot; TokenReadByOthers and TokenReadAfterLogout say what happens otherwise.
- CredentialTheorems.LastTokenIsRead: asks the same of all section names of the run, for the same reason.
- File permissions and the steps of replacing the credentials file; reading and writing work or fail whole.
- CspDomains.AppCtx.GetDomainClient: the hash is any function of the text; a client is known by a number
  and the object it was built from, and its timeout is not modelled. The list of storage types is not either.
- CspDomains.ValidateBasicAttributes: what makes a value valid for its kind is any predicate.
- SegmentGC.PoliciesAreOrders: fullness is a real number, so not-a-number is not modelled.
- LabelSelector.List: keys are ordered by character, where Go orders by byte.
- Command plumbing, emitters, flag parsing, cloud and Kubernetes clients, the authentication service and the
  copy of the column parser in `cmd/azure`, which would only add easy members.
