# Concourse operator: reconcile protocols

This project models how the operator's controllers keep Kubernetes objects and the
Concourse ATC in step, and proves what survives conflicting writers, stale reads, lost
answers and crashes.

Two stores take part. The Kubernetes API server keeps one object per controller; its
resource version is the position in the history of everything ever persisted, so a stale
read is a read of an earlier position and a write lands only on top of the last one. The
ATC keeps builds, a set of disabled versions, a pin, a config with a version token, and
teams. Each protocol is a state machine whose events are the single API calls of a
reconcile, other writers, ATC progress and crashes; an event that is not possible leaves
the state alone, so a run is any sequence of events. The controllers themselves are
methods over classes: before each call the environment acts as a script decides, then one
atomic event happens, and the method is proved to extend the run of its protocol. What is
proved about all runs therefore holds of them. A method always runs to its end; a crash is
an event of the protocol, and every prefix of a method's events is a run too.

| module | subject |
|---|---|
| `Options`, `Protocols` | optional values, lost answers and runs, shared by all protocols |
| `BuildTypes`, `BuildProtocol`, `BuildInvariant` | the build trigger-and-track protocol and what every step keeps |
| `BuildLedger`, `BuildTerminal`, `BuildLaws` | creation ledger, terminal phases, and what the ATC is asked for |
| `BuildController`, `BuildWatchers` | the reconciler, event watchers |
| `DisabledVersions`, `ResourceCalls`, `ResourceController` | disabled versions and pins: the sets, the calls and their replies, the reconciler |
| `BuildPruning`, `BuildTtl`, `JobController` | build history pruning, and what TTLs and limits mean for it |
| `ClientCache`, `ClientCacheThreads` | the client cache, sequential and interleaved |
| `PipelineConfig`, `PipelineController` | pipeline config by compare-and-set |
| `TeamLifecycle`, `TeamLaws`, `TeamController`, `TeamAuth` | team finalizer and role grouping |

## Assumptions

- One reconcile per key at a time. Snapshots may be arbitrarily stale unless a theorem says
  otherwise: `AtMostOneCreate`, `CreatesAreReplacements`, `TerminalIsQuiet` and
  `FailedCommentIsNeverRetried` need fresh reads. The Team theorems about what is left in the
  ATC (`TeamIsNotLeaked`, `GoneMeansDestroyedOrOrphaned`, `GoneLeavesNothingIff`,
  `MineIsCreatedMinusDestroyed`) need reads that never go back, and `StaleReadLeaves` shows
  why; that the object cannot disappear unreleased (`GoneWasReleased`) holds for reads of any
  age. Every other run theorem needs neither.
- `CreationLedger` and its companions are for Builds that never have a `spec.buildID`.
- An undisturbed reconcile (`UndisturbedCalls`, `UndisturbedDeletion` and their companions) reads the
  newest version, nobody else acts meanwhile, its calls succeed and its writes land; what happened
  before it is arbitrary.
- The retry bound of the conflict loop is a parameter; client-go's loop is not part of this
  model beyond "at most that many attempts, again only after a conflict".
- ATC build IDs and config versions are never reused, and the ATC never lets a build leave
  a terminal phase.
- Nobody else changes a Build's `status.buildID` or phase, or touches the Team's finalizer of
  the operator.
- The IDs and versions in the ATC's version listing never change.
- The ATC's disable, enable, pin, unpin and comment calls answer with a boolean beside the
  error, which the operator drops. The methods log every call with its whole reply; a call
  without an error and without effect is an ignored one. A run in which the ATC ignored nothing
  leaves the intended set and pin; for the others the contracts say exactly what the ignored
  calls leave (`IgnoredCallsMatterUnless`, `SuccessAfterRetries`, `IgnoredCallsAreNotRepeated`).
- The digest of a config is a parameter, assumed injective and not empty only in
  `HashAgreesIff` and `SkipIff`.
- Namespaces hold no `/` and names no `@` where `Named` is required; `NamingRulesNeeded`
  shows that both are needed.

## Where the code and its documentation disagree

The model follows the code.

- `api/v1alpha1/build_types.go:83-84` says a TTL of zero keeps a build until the history
  limits prune it. The two are the same exactly unless the build's end time has passed and
  the history limit would still have kept it (`ZeroIsUnsetUnless`).
- `internal/controller/build_controller.go:241-247` and `:506-511` say a created build is
  never lost or duplicated. A crash between create and persist makes the next reconcile
  create another one (`DuplicateAfterCrash`). `CreationLedger` and
  `LostBuildsAreTheLosingEvents` count exactly when a build is lost; `AtMostOneCreate` says
  when it cannot happen.
- `internal/controller/build_controller.go:388-390` says the next reconcile retries a failed
  comment. It does so exactly if the persisted phase is not terminal
  (`CommentRetriedIffNotTerminal`); a run from a new Build reaches the other case
  (`FailedCommentIsNeverRetried`).
- `internal/controller/pipeline_controller.go:337` skips a config whose hash is recorded. A
  config that was accepted but not recorded, followed by a revert, leaves the ATC with the
  abandoned config (`LossThenRevertSticks`, `CalmReconcileRepairsIff`).
- `api/v1alpha1/team_types.go:40` calls teamName immutable, but it may be set once when it
  was unset; the team created under `metadata.name` is then left behind, and nothing else
  ever is (`RenameLeaves`, `GoneLeavesNothingIff`).
- `internal/controller/resource_controller.go:255` calls the disabled-version sync idempotent. A
  disable or enable call that the ATC ignored is recorded as done and not made again
  (`IgnoredCallsAreNotRepeated`); an ignored pin is (`PinIsRepeatedIff`).
- `docs/architecture/client-cache.md:43` says a rotated Secret evicts the client. No code
  does; the entry stays until the Instance's resource version changes. After an eviction an
  entry can come back exactly if a thread was still preparing one (`EvictedEntryReturnsIff`).

## Model

| member | source | states |
|---|---|---|
| BuildController.BuildReconciler.Reconcile | internal/controller/build_controller.go:79-199 | one reconcile extends the run by legal protocol events from one read to the verdict it returns, whatever others do meanwhile; of the version read: an abort of the build looked at is sent exactly if it is canceled and the look is reached, a trigger only if it names and tracks no build, a comment exactly if wanted, not recorded and the build is not lost; the verdict is fixed by the last two answers, the status written and whether that write was confirmed |
| BuildController.BuildReconciler.EnsureBuildTriggered | internal/controller/build_controller.go:205-256 | a tracked build is left as it is and spec.buildID is taken over, both without any call; otherwise one trigger call, and it goes on only with a persisted build ID; a failed trigger and a failed persist end with 30 and 2 seconds |
| BuildController.BuildReconciler.PersistBuildTracking | internal/controller/build_controller.go:512-541 | re-reads and rewrites after each conflict within the retry bound; success means that the build's status is persisted; gives up exactly as the protocol does |
| BuildController.BuildReconciler.TrackOnce | internal/controller/build_controller.go:519-540 | one attempt: takes over a build ID recorded meanwhile, otherwise writes the tracking fields; after a conflict nothing has changed |
| BuildController.BuildReconciler.ObserveBuild | internal/controller/build_controller.go:296-339 | resets exactly three fields and requeues exactly if the ATC answered that it has no such build and no terminal phase was known; otherwise takes over the ATC's phase, or nothing if unreachable |
| BuildController.BuildReconciler.HandleBuildLifecycle | internal/controller/build_controller.go:270-291 | goes no further exactly for suspended, deleted and terminal builds; only the first writes anything, and fails exactly if that write is not confirmed |
| BuildController.BuildReconciler.ResolveJob | internal/controller/build_controller.go:103-127 | a missing job, a failed adoption or an unready chain ends the reconcile, each with its verdict; it goes on exactly with a job, its owner reference and a ready chain |
| BuildController.BuildReconciler.ReconcileComment | internal/controller/build_controller.go:397-422 | one comment call exactly if a comment is wanted and not recorded; success records it, failure leaves it unrecorded with CommentFailed |
| BuildController.BuildReconciler.FinishReconcile | internal/controller/build_controller.go:145-199 | one final status write; if it is confirmed an ended build is done and a tracked one is watched, or retried in 30 seconds after a failed comment; otherwise an error |
| BuildInvariant.StepKeeps | internal/controller/build_controller.go:205-256 | every event persists at most one object and only as a legal change of build ID and phase |
| BuildInvariant.RunKeeps | internal/controller/build_controller.go:79-199 | the invariant holds in every run, whatever is stale, lost or interleaved |
| BuildInvariant.BuildIDWriteOnce | internal/controller/build_controller.go:512-541 | in every run a persisted build ID is kept, set from nil or cleared by the vanish path, never replaced, even from stale snapshots |
| BuildInvariant.TrackingWriteIsNarrow | internal/controller/build_controller.go:512-541 | a tracking write that lands changes the five tracking fields and nothing another writer left |
| BuildInvariant.HistoryGrows | internal/controller/build_controller.go:79-199 | continuing a run only appends to what is persisted |
| BuildLedger.CreationLedger | internal/controller/build_controller.go:205-256 | in every run: builds created = recorded now + persisted resets + lost before being recorded + in flight |
| BuildLedger.RunBalances | internal/controller/build_controller.go:205-256 | builds neither recorded nor in flight are exactly as many as the losing events, at every point of every run |
| BuildLedger.LostBuildsAreTheLosingEvents | internal/controller/build_controller.go:241-252 | the builds created but never persisted nor in flight are as many as the crashes, exhausted retries, failed reads and writes, and lost answers that lose one |
| BuildLedger.RecordedBuildsNeverReturn | internal/controller/build_controller.go:302-319 | every recorded build was created for the object, and after a reset it is never recorded again |
| BuildLedger.CreatesAreReplacements | internal/controller/build_controller.go:205-256 | with fresh reads there is at most one create beyond one per reset and one per lost build |
| BuildLedger.AtMostOneCreate | internal/controller/build_controller.go:241-252 | with fresh reads, no crash or error around a persist, fewer conflicts than attempts and no vanished build, at most one create or rerun succeeds over any run |
| BuildLedger.DuplicateAfterCrash | internal/controller/build_controller.go:506-511 | a crash before the persist makes a fresh reconcile create a second build |
| BuildTerminal.TerminalIsAbsorbing | internal/controller/build_controller.go:258-291 | once a terminal phase is persisted no later event changes the persisted build ID or phase |
| BuildTerminal.TerminalIsQuiet | internal/controller/build_controller.go:270-291 | with fresh reads no later reconcile creates, reruns, aborts or comments |
| BuildTerminal.CommentRetriedIffNotTerminal | internal/controller/build_controller.go:286-288 | an outstanding comment is tried again exactly if the persisted phase is not terminal |
| BuildTerminal.FailedCommentIsNeverRetried | internal/controller/build_controller.go:286-288 | a new Build whose comment fails in the reconcile that sees it finish is never sent its comment again in any fresh continuation |
| BuildLaws.CallsAreAskedFor | internal/controller/build_controller.go:79-256 | in every run, stale reads included, each call was asked for by a persisted version with a job that is neither suspended, deleting nor ended: an abort by a canceled one, a trigger by one that names and tracks no build, a comment by one with that text; aborts and comments are about builds created for the object or named for adoption |
| BuildLaws.AdoptionCreatesNothing | internal/controller/build_controller.go:209-211 | in every run of a Build that always names build k for adoption no build is created, no other ID is ever persisted and no call is about another build |
| BuildLaws.UndisturbedCalls | internal/controller/build_controller.go:79-199 | an undisturbed reconcile after any run: exactly which calls are made, which builds are created, and what is returned |
| BuildLaws.UndisturbedWrites | internal/controller/build_controller.go:79-199 | the same reconcile: exactly which objects are persisted, field by field |
| BuildLaws.UndisturbedInactive | internal/controller/build_controller.go:87-95 | an undisturbed reconcile of a suspended, deleted, ended or jobless Build makes no call and writes at most its condition |
| BuildLaws.CanceledIsAborted | internal/controller/build_controller.go:130-138 | an undisturbed reconcile of a tracked unfinished Build has, before it looks at the build, sent exactly one abort of the recorded ID if canceled and none otherwise |
| BuildLaws.AdoptionIsRecorded | internal/controller/build_controller.go:209-211 | an undisturbed reconcile of a new Build that names build k persists k exactly if the ATC has it, and triggers nothing |
| BuildLaws.CommentIsSentOnce | internal/controller/build_controller.go:397-422 | after an undisturbed reconcile that saw its build, the next one makes no comment call |
| BuildLaws.FourPhasesEnd | internal/controller/build_controller.go:258-266 | succeeded, failed, errored and aborted, once persisted, stay in every continuation and ask for nothing; in any other phase an undisturbed reconcile looks at the build |
| BuildWatchers.OneWatcherPerKey | internal/controller/build_controller.go:188-196 | in every interleaving a key's sentinel is present exactly while its one watcher runs, each ended watcher sent one event, and no event is lost or invented |
| BuildWatchers.SendsForAReason | internal/controller/build_controller.go:473-503 | in every interleaving a watcher sends only after a failed open, one of the four last phases or a stream error met while waiting; any other item leaves it reading |
| BuildWatchers.Watchers.EnsureWatcher | internal/controller/build_controller.go:188-196 | starts a goroutine exactly if the sentinel was absent |
| BuildWatchers.Watchers.WatchBuildEvents | internal/controller/build_controller.go:462-504 | whatever the stream yields, the goroutine reads it up to the first status of the four last phases or the first error and no further, nothing if it does not open, then ends having sent one event and removed its sentinel |
| BuildWatchers.Watchers.Enqueue | internal/controller/build_controller.go:464-471 | a send blocks on a full channel and goes through once |
| DisabledVersions.RetriesConverge | internal/controller/resource_controller.go:256-321 | for a fixed spec, any stopped attempts and outsiders followed by a success leave what a first success leaves; that is (start minus tracked) union desired exactly if no tracked and still desired version had been enabled by others |
| DisabledVersions.AttemptsStayPartial | internal/controller/resource_controller.go:291-311 | after any number of stopped attempts the set is still between what one attempt may take away and add |
| DisabledVersions.SpecChangeAfterLostWriteIff | internal/controller/resource_controller.go:286-318 | a spec change after an unrecorded success converges to the fresh result exactly if that success disabled nothing the new spec drops and enabled nothing it keeps |
| DisabledVersions.SpecChangeAfterAttemptsIff | internal/controller/resource_controller.go:286-318 | the same after any stopped attempts for the old spec: exactly if they changed no version that is dropped by the new spec or kept from the tracked list |
| DisabledVersions.NextSuccessAgreesIff | internal/controller/resource_controller.go:286-318 | whatever earlier attempts did, the next success is as on the untouched set exactly if they left alone every ID it does not set itself |
| DisabledVersions.OutdatedAttemptIff | internal/controller/resource_controller.go:256-321 | the exact harm of an unpersisted attempt that read an outdated tracked list |
| DisabledVersions.IgnoredCallsMatterUnless | internal/controller/resource_controller.go:296-307 | a success with ignored calls gives the intended set exactly if those calls had nothing to do |
| DisabledVersions.IgnoredCallsAreNotRepeated | internal/controller/resource_controller.go:286-318 | once recorded, no later reconcile of the same spec makes up for an ignored call |
| DisabledVersions.SpecChangesAreFollowed | internal/controller/resource_controller.go:286-318 | across spec changes the tracked set is the last desired one, disabled but for exactly the versions whose disable call was ignored, and never listed versions are as others left them |
| DisabledVersions.LostSuccessIsAnAttempt | internal/controller/resource_controller.go:256-321 | a success whose status write is lost is covered by the retry theorem |
| DisabledVersions.AscendingIsUnique | internal/controller/resource_controller.go:314-318 | the tracked list is decided by its set, so map iteration order cannot show |
| DisabledVersions.ToInt32 | internal/controller/resource_controller.go:323-325 | a 32-bit number congruent to the given one; the number itself if it fits |
| DisabledVersions.FirstMatchIsFirst | internal/controller/resource_controller.go:273-281 | the match is the first entry with exactly the version, and exists exactly if some entry has it |
| DisabledVersions.DesiredAreListed | internal/controller/resource_controller.go:260-284 | the desired IDs are those of the first entries whose versions the spec lists, empty ones aside, cut to 32 bits; there are some exactly if every listed version is known |
| ResourceController.ResourceReconciler.SyncDisabledVersions | internal/controller/resource_controller.go:256-321 | succeeds exactly if every listed version is known and no call fails, having looked up each listed version, then asked to disable exactly the desired untracked versions, then to enable the tracked dropped ones in list order; for 32-bit IDs these are the listed IDs minus the tracked, and the tracked minus the listed; with no call ignored it leaves exactly the intended set, otherwise that but for the ignored ones; the tracked list is then the desired set ascending; a failure stops at the failed call, leaves the list alone and the set in between |
| ResourceController.ResourceReconciler.DisableNew | internal/controller/resource_controller.go:291-300 | asks once for each desired untracked version in any map order up to the first failed call, and adds exactly those the ATC applied |
| ResourceController.ResourceReconciler.EnableDropped | internal/controller/resource_controller.go:302-311 | asks for each tracked version no longer desired in list order up to the first failed call, and takes away exactly those the ATC applied |
| ResourceController.ResourceReconciler.Resolve | internal/controller/resource_controller.go:260-284 | looks up every non-empty listed version in order and resolves it to its ID; gives up exactly at a failed lookup or an unknown version, and changes nothing |
| ResourceController.ResourceReconciler.FindVersion | internal/controller/resource_controller.go:234-240 | the first listed version that equals the wanted one, or none |
| ResourceController.ResourceReconciler.SortedIDs | internal/controller/resource_controller.go:313-317 | the tracked list is strictly ascending and holds exactly the desired IDs |
| ResourceController.ResourceReconciler.SyncPin | internal/controller/resource_controller.go:190-250 | asks for the wanted pin or unpin as its last call exactly if the pin is wrong, and for no other; succeeds exactly if no call but the comment's fails and a version to pin is known; then the pin is the desired one exactly if that call was not ignored; the comment is sent exactly if it differs, and its reply does not matter |
| ResourceController.ResourceReconciler.ApplyPin | internal/controller/resource_controller.go:215-249 | the same for a version to be pinned, once the ATC's pin and comment are read |
| ResourceController.ResourceReconciler.LookUpAndPin | internal/controller/resource_controller.go:226-249 | one lookup, and one pin call for the first matching ID exactly if there is one |
| ResourceCalls.SuccessAfterRetries | internal/controller/resource_controller.go:256-321 | after any stopped attempts and outsiders a success leaves what a first success would have left exactly if the calls it saw ignored had nothing to do; with none ignored that is (start minus tracked) union desired exactly if no tracked and still desired version had been enabled by others |
| ResourceCalls.PinIsRepeatedIff | internal/controller/resource_controller.go:190-250 | an immediate repeat of a successful pin sync calls for a change exactly if the first one's call was ignored |
| ResourceCalls.SuccessInListing | internal/controller/resource_controller.go:256-321 | in terms of the listing: a success knows every listed version, and asked to disable, asked to enable and tracks exactly the IDs it should |
| ResourceCalls.OutcomeInListing | internal/controller/resource_controller.go:256-321 | an attempt succeeds exactly if every listed version is known and no call fails; with an unknown one nothing is disabled or enabled |
| ResourceCalls.PinInListing | internal/controller/resource_controller.go:190-250 | an unpin is asked for only if a pin is there and none is wanted, a pin only of the first entry with the wanted version and only if that is not pinned; a success does ask |
| BuildPruning.InterruptedThenFullIsOneRun | internal/controller/job_controller.go:311-347 | a run cut short and rerun at the same clock together delete what one full run may delete |
| BuildPruning.RetriesAddUpToOneRun | internal/controller/job_controller.go:311-347 | so do any number of interrupted runs followed by a full one |
| BuildPruning.SurvivorsAreUnique | internal/controller/job_controller.go:331-336 | with distinct creation times all full runs leave the same builds |
| BuildPruning.FullRunIsStable | internal/controller/job_controller.go:289-348 | a further run at the same clock deletes nothing |
| BuildPruning.TailIsOldest | internal/controller/job_controller.go:331-346 | any newest-first order leaves min(limit, length) builds before the limit, none older than a deleted one |
| BuildPruning.PlanExists | internal/controller/job_controller.go:289-348 | for every list, job and clock some plan exists |
| BuildTtl.ZeroIsUnsetUnless | internal/controller/job_controller.go:315-321 | for every list, job and clock a TTL of zero allows the same deletions as none exactly unless the end time has passed and fewer newer builds than the limit stand beside it |
| BuildTtl.TtlIsADeadline | internal/controller/job_controller.go:315-321 | a TTL of t on a build that ended at e puts it into every plan if now > e + t; otherwise the plans are those with that TTL unset |
| BuildTtl.TtlIsUnsetUnless | internal/controller/job_controller.go:315-321 | the same deletions as without the TTL exactly unless the deadline has passed and fewer newer builds than the limit stand beside it |
| BuildTtl.LimitDecides | internal/controller/job_controller.go:302-346 | a build before its deadline with fewer rivals than the limit for its outcome, 3 by default, is in no plan; one with that many newer rivals is in every plan |
| JobController.JobReconciler.PruneBuilds | internal/controller/job_controller.go:289-348 | nil exactly if the list and every delete succeed, and then exactly a plan for the list read is deleted by name: expired ones gone, the newest up to each limit kept, unowned and unfinished ones never touched; an error, as when a build is gone already, stops there with part of a plan deleted |
| JobController.CurrentListIsPruned | internal/controller/job_controller.go:289-348 | with a current list nil leaves exactly the builds outside a plan, and an error never costs one of those |
| JobController.OnlyListedBuildsGo | internal/controller/job_controller.go:290-301 | however old the list, a build goes only if the list showed an owned one of that name expired or finished, and in the plan for that list |
| JobController.RequestsAreDecided | internal/controller/job_controller.go:289-348 | the same for the deletes asked for: none of a build that is not the job's or has not ended, on success all past their deadline, and the others as their rivals and the limit, 3 by default, decide |
| JobController.JobReconciler.FilterOwned | internal/controller/job_controller.go:294-301 | keeps exactly the builds the job controls |
| JobController.JobReconciler.DeleteExpired | internal/controller/job_controller.go:311-330 | deletes exactly the expired owned builds, or stops at the first failed delete, and partitions the rest by outcome |
| JobController.JobReconciler.DeletePastLimits | internal/controller/job_controller.go:331-347 | each history loses all but its newest up to the limit, or the run stops at the first failed delete |
| JobController.JobReconciler.DeletePast | internal/controller/job_controller.go:337-346 | deletes exactly the builds from the limit on in slice order, or stops at the first failed delete |
| JobController.SortNewestFirst | internal/controller/job_controller.go:331-336 | a newest-first permutation |
| ClientCache.KeysAreExact | internal/concourse/client_cache.go:43-45 | the key is injective and the prefix test matches exactly the instance's own keys |
| ClientCache.NamingRulesNeeded | internal/concourse/client_cache.go:43-45 | without the naming rules keys collide and evictions hit other instances |
| ClientCache.CacheRefinesTable | internal/concourse/client_cache.go:48-79 | every sequence of Get, Set and Evict answers as a table from instance to at most one versioned client does |
| ClientCache.StepRefines | internal/concourse/client_cache.go:48-79 | each operation keeps the string-keyed store a representation of the table |
| ClientCache.Cache.Get | internal/concourse/client_cache.go:48-53 | for every table the store represents: the instance's client if it is for this resource version, else none |
| ClientCache.Cache.Evict | internal/concourse/client_cache.go:70-79 | removes exactly the keys with the instance's prefix, in any iteration order; the table loses that instance alone |
| ClientCache.Cache.Set | internal/concourse/client_cache.go:57-67 | evicts the instance's keys, then stores one; the table changes at that instance alone |
| ClientCache.Cache.GetOrBuild | internal/concourse/client_cache.go:83-94 | a hit is returned unchanged; a miss builds and stores, or fails and stores nothing |
| ClientCacheThreads.HitsAreForTheirVersion | internal/concourse/client_cache.go:83-94 | in every interleaving at most one entry per instance, each built from the spec at its key's version, and every client returned is for the snapshot asked about |
| ClientCacheThreads.EntryIffLastIsSave | internal/concourse/client_cache.go:83-94 | in every interleaving an instance has an entry exactly if it was saved after its last eviction |
| ClientCacheThreads.EvictedEntryReturnsIff | internal/concourse/client_cache.go:70-94 | after an eviction an entry can come back without a new Get exactly if some thread had missed on the instance and not saved yet |
| PipelineConfig.NoLostUpdate | internal/controller/pipeline_controller.go:344-367 | in every run an accepted save replaced exactly what its reconcile fetched last, at most two saves per reconcile, and a comparison error surfaces only after two saves each preceded by a failed fetch or overtaken |
| PipelineConfig.SaveIsTakenUnlessRaced | internal/controller/pipeline_controller.go:344-358 | a save is taken exactly if the ATC's config is still the one fetched, or none exists after a failed fetch |
| PipelineConfig.RunKeeps | internal/controller/pipeline_controller.go:334-381 | in every run the persisted hash is that of the config last recorded, and every refused save is excused |
| PipelineConfig.HashAgreesIff | internal/controller/pipeline_controller.go:337-378 | in every run the persisted hash is that of the last accepted config exactly if the config recorded last is the one accepted last |
| PipelineConfig.OnRecordAgrees | internal/controller/pipeline_controller.go:337-378 | the hash agrees between reconciles while no accepted config has been forgotten since the last one recorded |
| PipelineConfig.SkipIff | internal/controller/pipeline_controller.go:337 | while nothing is forgotten, a reconcile skips the save exactly if its bytes are those last accepted and the pipeline ID is known |
| PipelineConfig.CalmReconcileRepairsIff | internal/controller/pipeline_controller.go:337-378 | after a loss an undisturbed reconcile restores agreement exactly if it is not fooled by the recorded hash |
| PipelineConfig.CalmReconcileApplies | internal/controller/pipeline_controller.go:334-381 | an undisturbed reconcile that saves leaves the ATC with its bytes and the status up to date |
| PipelineConfig.LossThenRevertSticks | internal/controller/pipeline_controller.go:337-378 | a lost status write or answer followed by a revert leaves the abandoned config in place |
| PipelineConfig.OneRaceIsSurvived | internal/controller/pipeline_controller.go:344-367 | a reconcile overtaken once fetches the token again, replaces what the other writer left and records its hash; overtaken twice it gives up and the old hash stays |
| PipelineConfig.PipelineIDStays | internal/controller/pipeline_controller.go:225-230 | in every run a persisted pipeline ID stays, also if the ATC does not name the pipeline |
| PipelineController.PipelineReconciler.SyncPipelineConfig | internal/controller/pipeline_controller.go:334-381 | no call if up to date; otherwise one save with the token just fetched, and a second exactly after a comparison error; gives up exactly if the last one was not accepted, and takes the hash over otherwise |
| PipelineController.PipelineReconciler.TrySave | internal/controller/pipeline_controller.go:344-358 | one fetch and one save, with what each of the three answers leads to |
| PipelineController.PipelineReconciler.Reconcile | internal/controller/pipeline_controller.go:60-152 | one read with the bytes given, then the protocol's events up to the status write; succeeds exactly if there are bytes, no save was needed or the last one was accepted, and the status write landed and was answered; the persisted status then holds their hash |
| PipelineController.PipelineReconciler.ApplyConfig | internal/controller/pipeline_controller.go:126-151 | the same from the loaded bytes on |
| PipelineController.PipelineReconciler.CurrentVersion | internal/controller/pipeline_controller.go:344-349 | the fetched token, or the empty one if the fetch fails or finds nothing |
| TeamLifecycle.TeamIsNotLeaked | internal/controller/team_controller.go:73-132 | while an ATC team of the operator's may exist, the object exists with its finalizer, unless released under Orphan or after destroying the team's then name |
| TeamLifecycle.GoneMeansDestroyedOrOrphaned | internal/controller/team_controller.go:73-132 | without a rename, an object that is gone leaves no team, or was released under Orphan |
| TeamLifecycle.GoneWasReleased | internal/controller/team_controller.go:73-132 | in every run, stale reads included, once CreateOrUpdate has been called the object disappears only after DestroyTeam succeeded under the name of a version marked for deletion, or such a version asked for Orphan |
| TeamLifecycle.GoneLeavesNothingIff | internal/controller/team_controller.go:73-132 | after a release by DestroyTeam only the team named after the object can be left, exactly if it was created under that name, never destroyed, and teamName was set since |
| TeamLifecycle.MineIsCreatedMinusDestroyed | internal/controller/team_controller.go:73-132 | the teams that may be left are those created minus those destroyed; nothing is created after a destroy call |
| TeamLifecycle.MainIsProtected | internal/controller/team_controller.go:176-192 | in every run DestroyTeam is called only for the resolved name of a deleted object, and for "main" only if the object read allows it |
| TeamLifecycle.RunKeeps | internal/controller/team_controller.go:73-92 | until the operator lets go, a persisted finalizer stays; deletion marks never go away; DestroyTeam is reached only with the finalizer held |
| TeamLifecycle.RenameLeaves | api/v1alpha1/team_types.go:40 | setting teamName after creation leaves the team of the old name behind |
| TeamLifecycle.StaleReadLeaves | internal/controller/team_controller.go:56-132 | a read that goes back recreates the team of an object that is gone |
| TeamLaws.UndisturbedDeletion | internal/controller/team_controller.go:73-87 | an undisturbed reconcile of a held deleted object after any run: released as Orphaned without a call under Orphan, otherwise released as destroyed under its name after that call, unless that is "main" without permission, which leaves both as they are |
| TeamLaws.UndisturbedUpkeep | internal/controller/team_controller.go:64-132 | an undisturbed reconcile of any other object: suspended or not held and deleted ones are left alone, live ones get the finalizer first and then their team |
| TeamController.TeamReconciler.Reconcile | internal/controller/team_controller.go:56-174 | one read, answered as returned; if it finds the object, the lifecycle's events from that read until idle, without another read or a crash, and the verdict that these events call for: Done for a held object marked for deletion means released as Orphaned or after destroying its resolved name, the long requeue means the grouping of the roles read was sent and the team exists; no other grouping and no other destroy call is made |
| TeamController.TeamReconciler.Finalize | internal/controller/team_controller.go:73-87 | the deletion branch: the object is written back without finalizer exactly if deleting succeeded, else the status with 30 seconds; done or an error as that write was confirmed |
| TeamController.TeamReconciler.Maintain | internal/controller/team_controller.go:89-174 | the other branch: finalizer, owner reference, then the team; any failed write ends it with an error |
| TeamController.TeamReconciler.Synchronize | internal/controller/team_controller.go:111-173 | resolves, creates and writes the status in this order; the grouping of the roles is sent once exactly if the instance was resolved, and the long requeue is returned exactly if the create succeeded and the status write landed |
| TeamController.TeamReconciler.DeleteTeam | internal/controller/team_controller.go:176-192 | under Orphan always succeeds without a call; otherwise fails exactly for a protected main, an unresolved instance or a failed destroy, and a success has destroyed the resolved name |
| TeamAuth.BuildTeamAuth | internal/controller/team_controller.go:196-209 | nil exactly for no roles; otherwise the listed roles as keys, each with its in-order concatenations |
| TeamAuth.NothingLostOrInvented | internal/controller/team_controller.go:196-209 | an identity is granted a role exactly if some entry for that role lists it |
| TeamAuth.OrderIsKept | internal/controller/team_controller.go:196-209 | grouping a concatenated list concatenates the groups: order and multiplicity are kept |
| TeamAuth.GroupingIsUnique | internal/controller/team_controller.go:196-209 | the role list decides the map |
| TeamAuth.DistinctRolesPassThrough | internal/controller/team_controller.go:196-209 | roles listed once are passed on as they are |

## Left out

- HTTP, OAuth2 and TLS construction, and the comment request itself: each is a call that succeeds or fails.
- Status projections, conditions other than Ready, events, WebURL, inputs and outputs: one opaque `rest` field, or nothing.
- int32 truncation of build and pipeline IDs; it is modelled for version IDs only.
- The resolver chain and name defaulting beyond the team name: one step that may fail.
- Instance and worker reconcilers, generated code, RBAC, start-up.
- Cache freshness against rotated Secrets: no code provides it.
- Leak freedom of pipelines: the finalizer is removed even when the deletion fails.
- Unarchiving pipelines and the paused and exposed switches: the config protocol does not depend on them.
- Repair of a config changed by others: a recorded hash hides any drift, and the code does not look.
- How the comparison error is recognised in an error's text: it is a case of a datatype.
- Owner references of pipelines and resources: metadata writes with no part in the protocols.
- Progress of anything while suspended: the suspend branch returns first.
- Watchers after a process restart: their map is rebuilt empty.
- ResourceController.ResourceReconciler.SyncDisabledVersions: outsiders act between attempts, not within one.
- JobController.JobReconciler.PruneBuilds: others create and delete builds between runs, not within one; the list may be of any age.
- PipelineController.PipelineReconciler.Reconcile: its read of the object succeeds; a failed read ends the reconcile at once.
- JobController.SortNewestFirst: an insertion sort stands for the library's unstable sort; only what any such sort promises is used.
- ClientCacheThreads.HitsAreForTheirVersion: a client is its spec's snapshot; what the client does is not modelled.
