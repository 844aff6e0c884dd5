# Verified model of the goark logging framework

The framework routes log events from named loggers to appenders. This project models its
algorithmic parts in Dafny and proves what they promise: the asynchronous pipeline, the
router, the construction of configured appenders and filters, the structured JSON writer,
the rolling file appender with its retention, the token bucket filter and the fast
dispatch path.

`dafny verify dfyconfig.toml` checks everything. Each module is one file of the same name;
`Optional` and `Sequences` hold what several of them share.

* **Asynchronous pipeline** (`Capacity`, `AsyncPipeline`, `AsyncRing`, `AsyncClose`,
  `AsyncWakeup`, `AsyncTheorems`, `AsyncOutcomes`, `AsyncTermination`). A transition system: any number of
  `Append` calls, one worker and the first `Close` interleave freely, one atomic load,
  store, compare-and-swap, channel operation or sink call at a time. `Action` names the
  steps, `Enabled` and `Step` define them, `IsRun` says what a run is. The stale loads of
  `cursor` and `gating` are part of the program counters. The model records which call
  claimed which sequence, what the worker read, and what reached the sinks. It covers the
  async appender and the async logger, which share the protocol.
* **Router** (`Text`, `RouterLevels`, `RouterOverrides`, `RouterConfig`, `Router`). Rules
  sorted by a lossy specificity number, level overrides layered on an immutable base, and
  the class `Router` with the ownership of appender lists.
* **Configuration** (`References`, `ConfigAppenders`, `ConfigFilters`). Composite appenders
  by rounds over a list that is compacted in place; filters by a depth-first construction
  with memory. Both are proved to succeed exactly on acyclic references.
* **Structured JSON** (`Json`, `KeyScopes`, `OpenObjects`, `StructuredWriter`,
  `StructuredPaths`, `StructuredEmission`). The array-backed key table refines a stack of
  name sets; the text refines a stack of open objects and parses back (section 4 of
  RFC 8259); the tree of dotted paths is compiled, written and read back without loss.
* **Rolling files** (`RollingFiles`, `RollingBounds`, `RollingSlots`, `RollingSteps`,
  `RollingAppender`, `RollingRuns`, `RollingPattern`, `RollingSearch`, `RollingReading`,
  `RollingMisreads`, `RollingIndex`, `ArchiveRetention`, `ExpiredArchives`). The file system is a map from path to the pieces written. Ghost
  history names the archive each finished file became; `OnDisk` reads the files at those
  names. `RollingRuns.Run` states over whole runs what is on the disk in the end.
* **Smaller cores** (`BurstFilter`, `FastDispatch`).

Some statements one might expect are false of the code; the model follows the code:

* An unsuccessful `PopBatch` does not mean that nothing is published
  (`AsyncTheorems.PopCanMissPublished`; the exact condition is `AsyncTheorems.PopFailsExactly`).
* Min index mode does not always lose the oldest archive. It fills its slots upwards before
  it rotates, so the k-th rotation loses archive max - k as long as archives of the filling
  are left, the newest of those first, and only then the oldest
  (`RollingSlots.KthRotationLoses`).
* The appender's own retention goes by name, not by age (`ExpiredArchives.NewerCanGoFirst`;
  the exact condition is `ExpiredArchives.RetentionFollowsNames`).
* `PatternHasIndex` takes the second half of `%%i`, and the option in `%d{%i}`, for an index
  (`RollingIndex.EscapedPercentIsMisread`, `RollingIndex.DateOptionIsMisread`; the exact
  condition for all patterns is `RollingIndex.HasIndexIsRightWhen`).
* A file above `maxSize` may hold more than one record: empty records slip in before a large
  one (`RollingRuns.EmptyRecordsSlipIn`). It holds exactly one exactly when no empty record
  comes before the last (`RollingBounds.OverfullHoldsOne`).
* The index is not always recovered from an archive's name. Of `20243`, printed by `%d{yyyy}%i`
  for 2024 and index 3, the search takes `0243` for the index, because a date gives up all
  digits but its first (`RollingMisreads.DateMayTakeDigits`). Every index is recovered from
  every name, by the search as by any other match, exactly when the pattern has one index,
  dates on at most one side of it, and a character that is no digit in the literal text
  between the index and the nearest date (`RollingIndex.IndexRoundTrip`,
  `RollingMisreads.EveryMatchReadsExactlyWhen`).
* The initial index can be the index of an archive that exists. What is read from a name is at
  least its index exactly when dates stand on at most one side of the only index
  (`RollingIndex.InitialIndexIsSafeWhen`); and a name whose digits are too many for an int is
  not counted at all (`RollingIndex.LongDatesAreSkipped`).
* Looking for `.gz` in the printed path and in the pattern can differ; they agree for all dates
  exactly when no date stands where it could end the name in `.gz`
  (`RollingPattern.GzAgreesExactlyWhen`).

## Model

| member | source | states |
|---|---|---|
| Capacity.MaskIsModulo | internal/disruptor/ring_buffer.go:34-57 | masking a sequence with a power of two minus one is the remainder |
| Capacity.PowerTestIsExact | internal/disruptor/capacity.go:24-26 | the bit trick accepts exactly the powers of two |
| Capacity.NormalizedIsLeastPower | internal/disruptor/capacity.go:11-22 | the capacity is the least power of two that holds the request, and exists exactly within the limits |
| Capacity.SlotsWithinALap | internal/disruptor/ring_buffer.go:98-119 | sequences less than a lap apart use different slots, one lap apart the same slot |
| AsyncRing.StepKeepsRing | internal/disruptor/ring_buffer.go:97-178 | every step of every thread keeps the ring invariant: window, stamps, claims, claimants, what the worker read |
| AsyncRing.OtherSlots | internal/disruptor/ring_buffer.go:98-119 | within the window of one lap only one sequence lives in a slot |
| AsyncRing.UnstampedIsNotTheWorkers | internal/disruptor/ring_buffer.go:121-149 | the worker is never in the slot of a producer that has not stamped it |
| AsyncRing.PublishedHoldsClaimant | internal/disruptor/ring_buffer.go:121-149 | a slot stamped with the next sequence holds its claimant's value |
| AsyncClose.StepKeepsClose | internal/asyncappender/appender.go:111-160 | every step keeps the life cycle invariant: producers counted, close phases in order, batch conserved, drain empties the ring, outcomes logged once |
| AsyncClose.RunKeepsClose | internal/asyncappender/worker.go:10-53 | the invariant holds at every point of every run |
| AsyncClose.QuietMeansPublished | internal/asyncappender/appender.go:140-160 | with no call in flight every claimed sequence is published |
| AsyncClose.DrainEndsEmpty | internal/asyncappender/worker.go:28-38 | the drain stops only when every claimed sequence is consumed |
| AsyncWakeup.StepKeepsWake | internal/disruptor/wait_strategy.go:88-107 | every step keeps the two wake-up conditions although each channel holds one token |
| AsyncWakeup.RunKeepsWake | internal/disruptor/wait_strategy.go:230-235 | the wake-up conditions hold at every point of every run |
| AsyncWakeup.ParkedCallMoves | internal/disruptor/ring_buffer.go:205-233 | while a producer is parked some thread can move on its own |
| AsyncWakeup.BacklogMoves | internal/disruptor/ring_buffer.go:215-244 | while claimed sequences are unreleased some thread can move on its own |
| AsyncWakeup.CloserMoves | internal/asyncappender/appender.go:140-160 | a Close under way with no call in flight can proceed |
| AsyncWakeup.NeverStuck | internal/asyncappender/enqueue.go:23-36 | no deadlock: anything outstanding means that some thread can take a step |
| AsyncWakeup.RunNeverStuck | internal/asynclogger/logger.go:163-275 | the same over every run; a parked producer is never left behind |
| AsyncTheorems.SlotsAreExclusive | internal/disruptor/ring_buffer.go:97-149 | no two threads are ever inside the same slot |
| AsyncTheorems.OverwritesOnlyRead | internal/disruptor/ring_buffer.go:98-119 | a slot is rewritten only after its previous value was read |
| AsyncTheorems.RunDeliversInClaimOrder | internal/disruptor/ring_buffer.go:97-178 | in every run the worker reads and hands on the claimants in claim order, each once, and never more than a capacity is outstanding |
| AsyncTheorems.StepOnlyAdds | internal/disruptor/ring_buffer.go:97-178 | no step takes back a claim, a read, a delivery or a drop |
| AsyncTheorems.GatingNeverFalls | internal/disruptor/ring_buffer.go:121-149 | the gating sequence only rises, so a stale load of it is safe |
| AsyncTheorems.CloseIsADrainBarrier | internal/asyncappender/appender.go:140-160 | when Close has returned, every Append that returned nil reached the sinks exactly once or was dropped and counted, and refused calls never reached them |
| AsyncTheorems.ClosedStaysSilent | internal/asynclogger/logger.go:108-125 | after Close no step reaches a sink or the drop counter |
| AsyncTheorems.NothingAfterClose | internal/asynclogger/logger.go:108-125 | the same over the rest of every run |
| AsyncTheorems.RefusedSawFullRing | internal/asyncappender/enqueue.go:38-79 | a refused call saw an instant at which exactly capacity sequences were unreleased |
| AsyncTheorems.DropsOnlyWhenFull | internal/asyncappender/enqueue.go:38-65 | every increment of the drop counter belongs to one call that saw a full ring |
| AsyncTheorems.PopFailsExactly | internal/disruptor/ring_buffer.go:121-149 | PopBatch finds nothing exactly when the ring is empty or the next claimant has not stamped its slot |
| AsyncTheorems.PopCanMissPublished | internal/disruptor/ring_buffer.go:121-149 | a run in which PopBatch fails although a later sequence is published |
| AsyncOutcomes.RunKeepsToStrategy | internal/asyncappender/enqueue.go:23-79 | at every point of every run: an event was dropped only under Drop, or under DropDebug at debug level or lower; only SyncFallback runs the sinks in the call; only Block and DropDebug above debug level wait; under Block every call that returned is queued or refused |
| AsyncOutcomes.FullRingDecides | internal/asyncappender/enqueue.go:23-79 | a call that found the ring full ends, once it returns, dropped under Drop and as a debug event under DropDebug, served by the sinks under SyncFallback, else queued or refused |
| AsyncOutcomes.ClosingRefuses | internal/asyncappender/appender.go:111-137 | a call that finds the pipeline closing ends refused |
| AsyncOutcomes.RefusedForAReason | internal/asyncappender/enqueue.go:12-36 | a call is refused only once Close has begun or when its context is cancelled |
| AsyncOutcomes.SyncReports | internal/asyncappender/enqueue.go:67-79 | a call that ran the sinks itself returns what they reported |
| AsyncOutcomes.CloseClosesSinks | internal/asyncappender/appender.go:140-160 | the sinks are closed exactly when Close has returned and was to close them, and not before the worker has exited |
| AsyncTermination.DrivenLowers | internal/asyncappender/appender.go:111-160 | every step except new calls and polling lowers a well-founded measure |
| AsyncTermination.EveryScheduleSettles | internal/asyncappender/appender.go:111-160 | without new calls every schedule reaches a state in which all calls have returned and the queue is handed on, before Close as well as after |
| AsyncTermination.CloseAlwaysFinishes | internal/asyncappender/appender.go:140-160 | once Close has begun, every schedule reaches a state in which Close and all calls have returned and the queue is handed on |
| Text.TrimSpaceIsTrimmed | internal/router/levels.go:74-80 | trimming leaves no outer space and is the identity on trimmed names |
| Text.TrimSpaceCuts | internal/router/levels.go:74-80 | trimming takes away space at both ends and nothing else |
| Text.CoversChain | internal/router/levels.go:94-96 | two rules that match one name are dotted prefixes of one another |
| Text.CoversParent | internal/router/levels.go:94-96 | the rules strictly above a name are those that match its parent |
| RouterLevels.FirstMatch | internal/router/plan.go:5-14 | the found rule matches, and nothing is found only if no rule matches |
| RouterLevels.FirstMatchIsNearest | internal/router/levels.go:94-100 | in specificity order the first match is the longest matching rule, however ties are ordered |
| RouterLevels.EffectiveIsNearest | internal/router/levels.go:65-72 | the scan for a level finds that of the nearest dotted ancestor that has one |
| RouterLevels.PlannedLevel | internal/router/plan.go:5-14 | the planned level of any name is that of its nearest configured ancestor, else the root level |
| RouterOverrides.PlanIsNearest | internal/router/plan.go:5-14 | the appenders, filters and location flag of a plan are those of the deepest rule that covers the name, or the root's when none does |
| RouterOverrides.OverridesKeepRouting | internal/router/levels.go:9-56 | overrides change no appender, filter or location flag of any name, inserted rules included |
| RouterOverrides.OverridesSetLevels | internal/router/levels.go:9-56 | with overrides the planned level is that of the nearest ancestor with an override or a configured level |
| RouterOverrides.SnapshotIsDetermined | internal/router/levels.go:44-55 | two snapshots of one base and one override map give every name the same plan |
| RouterOverrides.NoOverrides | internal/router/levels.go:10-14 | without overrides the base itself is in force |
| RouterOverrides.SortBySpecificity | internal/router/levels.go:44-46 | the sorted list is in order and a rearrangement of the rules |
| RouterOverrides.EnterOverride | internal/router/levels.go:20-43 | one override replaces the level of its rule or inserts a rule with the routing its name already has |
| RouterOverrides.PutLevels | internal/router/levels.go:48-54 | the second pass puts the effective level into every route and nothing else |
| RouterOverrides.ApplyLevelOverrides | internal/router/levels.go:9-56 | the result is the base with the overrides in force; without overrides it is the base |
| RouterConfig.UniqueControlsIs | internal/router/appender.go:238-264 | deduplication keeps the first control of every name and no other, in order |
| RouterConfig.UniqueIsFirstOfEach | internal/router/appender.go:238-264 | the kept controls stand at increasing positions of the list, and a control is kept exactly when no earlier one has its name |
| RouterConfig.Compact | internal/router/appender.go:238-251 | compaction in place computes that deduplication of the old contents |
| RouterConfig.AppendUnique | internal/router/appender.go:238-264 | both halves together deduplicate the concatenation |
| RouterConfig.IndexAppenders | internal/router/runtime.go:11-34 | the table of the appenders by trimmed name, exactly when names are distinct and not blank |
| RouterConfig.ResolveRefIs | internal/router/appender.go:223-236 | a reference resolves exactly when its trimmed name is known, to the appender of that name with the level, location flag and filters of the reference; else the error says which of the two is wrong |
| RouterConfig.ResolveRefs | internal/router/appender.go:223-236 | one control per reference, position by position, or the error of the first bad reference |
| RouterConfig.ResolvedIs | internal/router/appender.go:223-236 | the same of the specification that the other members use |
| RouterConfig.BuiltFromMeans | internal/router/runtime.go:92-131 | a logger has its own controls in the order of its references, then, if additive, the root's controls and filters, one control per name; it wants a location when the rule, or else the root, or one of its controls does |
| RouterConfig.AcceptedMeans | internal/router/runtime.go:85-110 | a rule is accepted exactly with a name, with known references, and with an output of its own unless it is additive |
| RouterConfig.RootDefault | internal/router/runtime.go:35-42 | without references the root gets the first appender |
| RouterConfig.RootIsAsAsked | internal/router/runtime.go:35-57 | the root has the level and filters asked for and one control per reference, and wants a location when the options or one of its controls do |
| RouterConfig.BuildLogger | internal/router/runtime.go:78-131 | one rule becomes a logger exactly when it is acceptable, with what the rule asks for: own and inherited controls and filters in order, level, location flag |
| RouterConfig.BuildLoggers | internal/router/runtime.go:58-64 | all rules become loggers in order, exactly when all are acceptable |
| RouterConfig.BuildRuntimeConfig | internal/router/runtime.go:11-76 | a configuration is built exactly from acceptable options; its root and loggers are those the options describe, it is sound, and a root without references gets the first appender |
| RouterConfig.BuiltIsGood | internal/router/runtime.go:65-75 | what is built is sorted, has levels in force and a truthful location flag |
| Router.CloseOrderIsComplete | internal/router/lifecycle.go:14-38 | closing a list closes each of its appenders exactly once |
| Router.AsyncFirst | internal/router/lifecycle.go:14-38 | the async appenders are closed before the others, each kind in the order of the list |
| Router.CloseAsync | internal/router/lifecycle.go:14-26 | the first pass closes the async appenders and remembers exactly their names |
| Router.CloseAll | internal/router/lifecycle.go:14-38 | async appenders first, then the others, none twice |
| Router.LastSettingCounts | internal/router/router.go:113-118 | the override of a name is its last setting, or none after it was cleared |
| Router.NormalizedIs | internal/router/levels.go:74-80 | root in any case of its letters stands for the root, any other name for itself without outer space |
| Router.Router.constructor | internal/router/router.go:89-97 | a new router is in force on its base, without overrides |
| Router.Router.SetLevel | internal/router/router.go:100-120 | succeeds exactly for a name on an open router, and then the snapshot is the base with the net overrides; otherwise nothing changes |
| Router.Router.Replace | internal/router/router.go:193-215 | swaps in a base that says what the options say, under the same overrides, and closes the old list; on a closed router closes the new list; on bad options nothing changes |
| Router.Router.Close | internal/router/router.go:177-190 | closes the current list once |
| Router.Router.PlanFor | internal/router/router.go:153-162 | the plan has the routing of the deepest rule of the base that covers the name, and of the snapshot's, and the level of the nearest override or configured level, else that of the root or of its override |
| Router.Router.IncludeLocation | internal/router/router.go:165-174 | the early exit on the summary flag never hides a route that wants locations |
| Router.ClosedExactlyOnce | internal/router/router.go:177-215 | every installed appender is closed exactly once and none while current |
| Router.OverrideKeepsLocation | internal/router/levels.go:9-56 | overrides keep the location flag truthful |
| References.OrderedIsAcyclic | internal/configfile/config_appender_methods.go:36-69 | a dependency order of all names rules out cycles |
| References.StuckIsCyclic | internal/configfile/config_appender_methods.go:60-66 | a set of names that all refer into it contains a cycle |
| ConfigAppenders.ResolveRefsIs | internal/configfile/config_appender_composite.go:246-300 | built, waiting and failed each mean what they say about the references |
| ConfigAppenders.RefsOfIs | internal/configfile/config_appender_composite.go:302-325 | the references of an entry are its references, the targets of its routes, and the fallback when there is one |
| ConfigAppenders.BuildableIs | internal/configfile/config_appender_composite.go:52-244 | an entry can be built exactly when its factory succeeds, all its references are configured, and it has as many outputs as its kind needs |
| ConfigAppenders.ResolveRoutes | internal/configfile/config_appender_composite.go:302-325 | the same for the routes of a routing appender, visited in any order |
| ConfigAppenders.AttemptComposite | internal/configfile/config_appender_composite.go:52-244 | a composite is built only from built references, waits only for a configured name, and fails only if it can never be built |
| ConfigAppenders.KeepName | internal/configfile/config_appender_methods.go:38-55 | writing a waiting name back in place never clobbers an unread one |
| ConfigAppenders.Visit | internal/configfile/config_appender_methods.go:39-59 | one name of a round is built, fails or is written back |
| ConfigAppenders.Round | internal/configfile/config_appender_methods.go:36-67 | a round keeps every pending name exactly once, built or waiting |
| ConfigAppenders.NoProgressIsCyclic | internal/configfile/config_appender_methods.go:60-66 | a round without progress means a cycle among the names left |
| ConfigAppenders.BuildConcrete | internal/configfile/config_appender_methods.go:18-35 | concrete appenders are built at once, the others are left pending |
| ConfigAppenders.BuildAppenders | internal/configfile/config_appender_methods.go:11-70 | terminates, succeeds exactly for buildable entries with acyclic references, and returns a dependency order of all names |
| ConfigFilters.Builder.constructor | internal/configfile/config_filter_build.go:41-43 | nothing is remembered, visited or invoked at first |
| ConfigFilters.Builder.Invoke | internal/configfile/config_filter_build.go:73-82 | the factory call adds exactly one filter, made from the filters of its references |
| ConfigFilters.Builder.Build | internal/configfile/config_filter_build.go:54-82 | a remembered or a new filter; the set of visited names is restored; an error is justified by the configuration |
| ConfigFilters.Builder.ResolveNested | internal/configfile/config_filter_build.go:84-106 | the filters of the references in their order, or a justified error |
| ConfigFilters.Builder.BuildFilters | internal/configfile/config_filter_build.go:37-52 | terminates, succeeds exactly when all references exist, all factories succeed and the references are acyclic; nothing is left visited |
| ConfigFilters.BackReferenceIsCyclic | internal/configfile/config_filter_build.go:63-65 | meeting a visited name exhibits a cycle |
| ConfigFilters.ConsistentIsGrounded | internal/configfile/config_filter_build.go:69-81 | children are built before their parents |
| ConfigFilters.InvokedOnce | internal/configfile/config_filter_build.go:60-62 | every factory is invoked exactly once |
| ConfigFilters.OrderDoesNotMatter | internal/configfile/config_filter_build.go:41-50 | a name stands for the same tree of filters whatever the order of names |
| Json.ParseInvertsRender | internal/layout/structured_writer.go:11-140 | the written tokens parse back to exactly the value, whatever follows |
| Json.RenderAppend | internal/layout/structured_writer.go:27-41 | members written one by one, each but the first after a comma, are the members of one object |
| KeyScopes.ClaimAdds | internal/layout/structured_writer.go:111-140 | a claim adds the key to the innermost set and no other, in the array or in the overflow map |
| KeyScopes.PushOpens | internal/layout/structured_writer.go:91-97 | opening an object pushes an empty set |
| KeyScopes.PopCloses | internal/layout/structured_writer.go:100-109 | closing an object forgets its keys, wherever they were kept, and no others |
| OpenObjects.PutWrites | internal/layout/structured_writer.go:39-40 | a member extends the text by a separator and the member |
| OpenObjects.PopWrites | internal/layout/structured_writer.go:100-101 | a closing brace completes the member of the outer object |
| OpenObjects.PopUnambiguous | internal/layout/structured_writer.go:100-109 | closing an object keeps all names distinct |
| OpenObjects.WrittenReadsBack | internal/layout/structured_writer.go:11-140 | the text of closed objects reads back as their members |
| StructuredWriter.Writer.constructor | internal/layout/structured_writer.go:11-21 | an empty writer stands for one empty object |
| StructuredWriter.Writer.InSegment | internal/layout/structured_writer.go:112-118 | the scan finds exactly the keys of the innermost segment |
| StructuredWriter.AddIs | internal/layout/structured_writer.go:27-41 | a member is added under the name that the layout gives it, unless its path is blank, excluded or not among those kept, or its name is taken |
| StructuredWriter.AddListIs | internal/layout/structured_writer.go:55-75 | the same for a list of strings, which is left out when it is empty |
| StructuredWriter.BeginIs | internal/layout/structured_writer.go:77-98 | an object is opened exactly when nothing excludes it and it, or a path inside it, is kept, the depth allows it and its name is new |
| StructuredWriter.Writer.ClaimKey | internal/layout/structured_writer.go:111-140 | succeeds exactly for a name that is new in the innermost object, and then claims it there |
| StructuredWriter.Writer.AddPath | internal/layout/structured_writer.go:27-41 | adds the member unless it is filtered out or its name is taken; text, names and commas stay right |
| StructuredWriter.Writer.AddStrings | internal/layout/structured_writer.go:55-75 | the same for a list of strings |
| StructuredWriter.Writer.BeginObject | internal/layout/structured_writer.go:77-98 | opens an object exactly when it is enabled, not too deep and its name is new; otherwise nothing changes |
| StructuredWriter.Writer.EndObject | internal/layout/structured_writer.go:100-109 | turns the innermost object into a member of the outer one |
| StructuredWriter.Writer.DocumentReadsBack | internal/layout/structured_writer.go:11-140 | the finished text is one object with exactly the added members and no repeated name at any depth |
| StructuredPaths.JoinInvertsSplit | internal/layout/structured_paths.go:27-35 | a path is its segments joined by dots |
| StructuredPaths.SplitAtDot | internal/layout/structured_paths.go:31 | a dot between two texts is a cut |
| StructuredPaths.SplitIsOnly | internal/layout/structured_paths.go:31 | the segments of a path are the only texts without dots that joined by dots give the path |
| StructuredPaths.JoinPathCuts | internal/layout/structured_paths.go:97-109 | a prefix and a name are cut apart at one dot, put between them if neither brings it |
| StructuredPaths.InsertSucceedsWhen | internal/layout/structured_paths.go:54-82 | a path is accepted exactly when it has no blank segment and no path of the tree equals or extends it or is extended by it |
| StructuredPaths.InsertAddsOne | internal/layout/structured_paths.go:54-82 | an insertion adds one entry and moves no other |
| StructuredPaths.InsertKeepsWellFormed | internal/layout/structured_paths.go:54-82 | sibling names stay distinct, trimmed and not blank; no branch is empty |
| StructuredPaths.Compile | internal/layout/structured_paths.go:20-40 | succeeds exactly for paths that are pairwise incomparable, without blank segments and at most 16 long; flattening gives exactly the given paths and values; the segments are the trimmed dot-free parts of each path |
| StructuredEmission.AddStructuredPaths | internal/layout/structured_paths.go:84-95 | the recursion over the tree refines adding to the open objects |
| StructuredEmission.NodesAreWritten | internal/layout/structured_paths.go:84-95 | without filters and taken names exactly the tree is written; the depth limit is never met |
| StructuredEmission.AttributesReadBack | internal/layout/structured_paths.go:20-95 | compiling, writing and parsing returns a rearrangement of the given paths and values |
| RollingFiles.RenameKeepsFaith | internal/rollingfile/rollover.go:45-49 | renaming a file moves its archive and overwrites at most the target's |
| RollingFiles.FinishKeepsFaith | internal/rollingfile/rollover.go:40-49 | renaming the active file to an absent target loses nothing |
| RollingFiles.ClosedArrayReads | internal/layout/structured.go:69-105 | header, separated records and footer read as one array of the records (section 5 of RFC 8259) |
| RollingFiles.OpenArrayNext | internal/layout/structured.go:69-77 | a separator and a record extend an array under construction |
| RollingSlots.RotationShifts | internal/rollingfile/archive.go:111-153 | slot i moves to slot i + 1, slot 1 becomes free, no other file changes |
| RollingSlots.OnlyTheLastIsLost | internal/rollingfile/archive.go:111-153 | the rotation loses exactly the archive in the last slot |
| RollingSlots.RotationKeepsFaith | internal/rollingfile/archive.go:111-153 | all other archives are found unchanged at their new paths |
| RollingSlots.RolloverKeepsFillOrder | internal/rollingfile/archive.go:63-97 | every rollover keeps the archives in the slots that their order of allocation gives them |
| RollingSlots.KthRotationLoses | internal/rollingfile/archive.go:63-153 | nothing is lost while slots fill; the k-th rotation loses exactly archive max - k for k up to max, and from then on exactly the oldest |
| RollingSlots.FirstRotationLosesTheNewest | internal/rollingfile/archive.go:63-97 | the first rotation loses the newest archive in the slots and no other |
| RollingSlots.LaterRotationsLoseTheOldest | internal/rollingfile/archive.go:63-97 | after max rotations every further one loses the oldest archive there is and no other |
| RollingBounds.WriteKeepsFile | internal/rollingfile/appender.go:239-252 | one more event keeps a file bounded and an open array well formed |
| RollingBounds.OverfullHoldsOne | internal/rollingfile/rollover.go:12-20 | a file above the limit holds one record exactly when no empty record comes before the last; always so with a header or without empty records |
| RollingSteps.MinRolloverIs | internal/rollingfile/rollover.go:22-57 | finish, find a slot, rename and reopen together are one rollover in min mode: the first free slot, or slot 1 after a rotation |
| RollingSteps.RolloverPreserves | internal/rollingfile/rollover.go:22-57 | in the other modes a rollover adds one archive and touches no other file |
| RollingSteps.ArchivesAreFinished | internal/rollingfile/rollover.go:22-57 | every archive begun empty that is still there is a finished file: header, records, footer, within the limit, a whole array if complete |
| RollingAppender.NextRolloverAfter | internal/rolling/schedule.go:6-28 | no next time exactly without an interval; else it lies ahead, for a modulated day at the next midnight, for another modulated interval at a multiple of it |
| RollingAppender.RollingFile.constructor | internal/rollingfile/appender.go:91-143 | a new appender has no archives and no open file |
| RollingAppender.RollingFile.DiskIsComplete | internal/rollingfile/appender.go:152-194 | with every archive kept, reading the archives in order and then the active file gives exactly what was appended |
| RollingAppender.RollingFile.OpenActive | internal/rollingfile/open.go:75-107 | opening keeps earlier records when appending, and writes a header only into an empty file |
| RollingAppender.RollingFile.RotateMinIndexArchives | internal/rollingfile/archive.go:111-153 | the loop performs the rotation from the last slot down |
| RollingAppender.RollingFile.NextMinIndexArchivePath | internal/rollingfile/archive.go:63-97 | the first free slot without any change, or slot 1 after the rotation; the path is absent |
| RollingAppender.RollingFile.NextArchivePath | internal/rollingfile/archive.go:24-61 | the first absent path from the index on; nothing exactly outside min mode when a thousand candidates exist |
| RollingAppender.RollingFile.FinishActive | internal/rollingfile/rollover.go:22-32 | the footer ends the file; a complete JSON file begun empty is then a well-formed array |
| RollingAppender.RollingFile.Shelve | internal/rollingfile/rollover.go:45-49 | the finished file becomes the next archive |
| RollingAppender.RollingFile.Rollover | internal/rollingfile/rollover.go:22-57 | succeeds exactly in min mode or with a free path among the next thousand; no record is lost and earlier archives stay; on success the old contents are the newest archive, under a path that was absent, or in min mode in its slot, and the active file holds a header only |
| RollingAppender.RollingFile.Format | internal/layout/structured.go:28-32 | formatting counts the event and adds a separator to all but the first of a file |
| RollingAppender.RollingFile.Write | internal/rollingfile/appender.go:239-252 | the record is appended and the size stays the size of the file |
| RollingAppender.RollingFile.Open | internal/rollingfile/appender.go:177-187 | the first use opens the file; what an earlier run left is archived exactly when that is asked for at startup and it has a size, else the file goes on, behind a header if it is empty; says when the file counts as begun empty and keeps earlier archives |
| RollingAppender.RollingFile.MakeRoom | internal/rollingfile/rollover.go:12-20 | archives the file exactly when a set time has come, or the limit is on, the file has a size, and file and text exceed the limit; earlier archives stay |
| RollingAppender.RollingFile.AppendFormatted | internal/rollingfile/appender.go:160-194 | a text formatted beforehand is appended once; the file is archived before exactly when a set time has come or file and text exceed the limit, else the text joins it; it fails exactly when that rollover does |
| RollingAppender.RollingFile.AppendSynchronized | internal/rollingfile/appender.go:196-237 | formatting twice around a rollover still appends the record once, with the separators of the new file; earlier archives stay |
| RollingAppender.RollingFile.AppendFirst | internal/rollingfile/appender.go:177-194 | the first event after an earlier run: what it left is archived exactly when that is asked for at startup, or a time just set has come, or it would overflow; else the text joins it |
| RollingAppender.RollingFile.Append | internal/rollingfile/appender.go:152-194 | the record becomes the last on record; the file is archived and the record begins a new one exactly when a set time has come or file and text exceed the limit, else the text joins the file; earlier archives stay kept, at their paths and unchanged, or in min mode in their order; it fails only once closed or with a thousand candidate paths taken |
| RollingAppender.RollingFile.Close | internal/rollingfile/appender.go:264-284 | adds the footer once and changes nothing else; a file begun empty is then finished |
| RollingAppender.RollingFile.DeleteArchive | internal/rollingfile/options.go:238-262 | retention loses only the archive it deletes |
| RollingRuns.Run | internal/rollingfile/appender.go:152-284 | a run from an empty file, then Close: the files on disk hold exactly the events in order, every archive is kept, no foreign file changes, and every file is finished; in min mode the archives are in their slots by age; every archive was archived for a reason; a run fails only with a thousand candidate paths taken, in min mode never |
| RollingRuns.Feed | internal/rollingfile/appender.go:152-194 | the events one after another: each either joins the file, or finds that the file's time has come or that it would overflow, and then begins a new one |
| RollingRuns.ArchivesHaveReasons | internal/rollingfile/rollover.go:12-20 | over a run: every archive was archived when an event found its time come, or would have made it exceed the limit |
| RollingRuns.NoRecordAfterTime | internal/rollingfile/rollover.go:12-20 | over a run: no record is written to a file whose time has come |
| RollingRuns.LeftInSlots | internal/rollingfile/archive.go:63-153 | in min mode a run leaves, of c archives, those below 2 * max - c and those from max and c - max on, each unchanged at its path |
| RollingRuns.EmptyRecordsSlipIn | internal/rollingfile/rollover.go:12-20 | a run that ends with any number of empty records and one above the limit in one file |
| RollingPattern.FormatPattern | internal/rolling/pattern.go:15-108 | prints the tokens of the pattern, and fails exactly when one of them is bad |
| RollingPattern.TokenIsSpelled | internal/rolling/pattern.go:15-108 | what is taken for a literal, an index with its padding and width, or a date with its option is written so in the pattern |
| RollingPattern.TokenIsBad | internal/rolling/pattern.go:15-108 | a token is bad exactly when behind the percent sign and any digits stands neither i nor d, or a d whose option is not closed |
| RollingPattern.ItoaIsShortest | internal/rolling/pattern.go:62-69 | an index prints without leading zeros |
| RollingPattern.PaddedIs | internal/rolling/pattern.go:62-69 | with padding the index is filled up with zeros to the width, and only then |
| RollingPattern.PaddedReadsBack | internal/rolling/pattern.go:62-69 | a printed index reads back whatever its padding |
| RollingPattern.EndsGzIs | internal/rollingfile/archive.go:166-176 | the ending .gz counts in any case of its letters |
| RollingSearch.SearchFindsAMatch | internal/rolling/pattern.go:179-235 | what the leftmost-first search finds is a match |
| RollingSearch.SearchFindsAll | internal/rolling/pattern.go:179-235 | where there is a match the search finds one |
| RollingReading.IndexReadsBack | internal/rolling/pattern.go:179-235 | from a name printed by a readable pattern every match takes exactly the digits of the index |
| RollingSearch.PrintedMatches | internal/rolling/pattern.go:179-235 | every printed name matches, with one group per index, whatever the pattern |
| RollingMisreads.DateGivesItsDigits | internal/rolling/pattern.go:179-235 | of a date directly before the index the search gives all digits but the first to the index |
| RollingMisreads.DateMayTakeDigits | internal/rolling/pattern.go:179-235 | the search reads 0243 from the name 20243 printed with index 3 |
| RollingMisreads.DatesOnBothSides | internal/rolling/pattern.go:179-235 | with dates before and after the index a date hides the index 2 behind a 1 |
| RollingMisreads.ReadsBackExactlyWhen | internal/rolling/pattern.go:179-235 | the search recovers every index whatever the dates print exactly for readable patterns |
| RollingMisreads.EveryMatchReadsExactlyWhen | internal/rolling/pattern.go:179-235 | every match recovers every index exactly for the same patterns |
| RollingMisreads.ReadsEnoughExactlyWhen | internal/rollingfile/archive.go:205-232 | the index that is read is never smaller than the printed one exactly with one index and dates on at most one side of it |
| RollingPattern.GzAgreesExactlyWhen | internal/rollingfile/archive.go:166-176 | looking for .gz in the printed path or in the pattern comes to the same for all dates exactly when no date can end the name in .gz |
| RollingIndex.PatternIndexRegexp | internal/rolling/pattern.go:179-235 | one item per token plus the extension that compression adds; says whether there is an index |
| RollingIndex.ArchiveNameIs | internal/rollingfile/archive.go:166-176 | with compression every name ends in .gz, which is added only to a name that does not end so; otherwise it is the printed name |
| RollingIndex.IndexRoundTrip | internal/rolling/pattern.go:179-235 | from the name of every archive, compressed or not, its index is recovered whatever the dates print, exactly for readable patterns |
| RollingIndex.InitArchiveIndex | internal/rollingfile/archive.go:205-232 | one more than the largest index that is read from a name and that an int holds |
| RollingIndex.NextNamesAreNew | internal/rollingfile/archive.go:205-232 | with dates on at most one side of the index no index from the initial one on gives a name that existed, unless the digits read from it are too many for an int; for readable patterns without exception |
| RollingIndex.InitialIndexIsSafeWhen | internal/rollingfile/archive.go:205-232 | what is read from a name is at least its index, whatever the dates print, exactly with dates on at most one side of the only index |
| RollingIndex.LongDatesAreSkipped | internal/rollingfile/archive.go:205-232 | an archive whose name has nanoseconds directly before the index is not counted |
| RollingIndex.PatternHasIndex | internal/rolling/pattern.go:110-127 | looks for a percent sign, digits and an i at every position |
| RollingIndex.HasIndexIsRightWhen | internal/rolling/pattern.go:110-127 | for every pattern: it is right exactly when there is an index or nothing inside another token looks like one |
| RollingIndex.EscapedPercentIsMisread | internal/rolling/pattern.go:110-127 | a pattern that passes for indexed and prints one name for all archives |
| RollingIndex.DateOptionIsMisread | internal/rolling/pattern.go:110-127 | the same for an index inside the option of a date |
| ArchiveRetention.SortSorts | internal/rolling/delete.go:147-152 | sorting keeps the candidates and puts them in order |
| ArchiveRetention.KeptIsLongest | internal/rolling/delete.go:139-168 | a newest-first prefix is within all limits exactly when it is no longer than what is kept |
| ArchiveRetention.MarkOld | internal/rolling/delete.go:139-146 | the age pass marks exactly the candidates before the cutoff |
| ArchiveRetention.MarkSurplus | internal/rolling/delete.go:153-159 | the count pass marks exactly the candidates beyond the count |
| ArchiveRetention.MarkOversize | internal/rolling/delete.go:160-168 | the size pass marks exactly the candidates at which the running total exceeds the limit |
| ArchiveRetention.DeleteCandidates | internal/rolling/delete.go:130-184 | sorts the candidates newest first and deletes all but the longest prefix within age, count and size |
| ExpiredArchives.DeleteByCountAndAge | internal/rollingfile/archive.go:259-277 | deletes exactly the surplus in name order and the expired rest |
| ExpiredArchives.DeleteBySize | internal/rollingfile/archive.go:278-295 | deletes live archives in name order exactly until the rest fits the cap |
| ExpiredArchives.DeleteExpired | internal/rollingfile/archive.go:248-297 | the three passes together delete exactly the archives that do not survive |
| ExpiredArchives.SurvivorsMeetLimits | internal/rollingfile/archive.go:248-297 | survivors are at most maxBackups, none expired, and fit the cap |
| ExpiredArchives.RetentionFollowsNames | internal/rollingfile/archive.go:248-297 | nothing deleted is newer than anything kept, whatever the count, age and size limits, exactly when names are in order of age |
| ExpiredArchives.NewerCanGoFirst | internal/rollingfile/archive.go:256-268 | a newer archive deleted while an older one is kept |
| BurstFilter.TokenMeansRoom | internal/filter/burst.go:63-67 | a token is left exactly when every window has room for one more grant |
| BurstFilter.RefillStaysTight | internal/filter/burst.go:56-62 | the refill with its cap keeps the tokens equal to what the tightest window leaves |
| BurstFilter.GrantStaysWithin | internal/filter/burst.go:63-66 | a grant keeps every window within burst plus rate times length |
| BurstFilter.BurstFilter.constructor | internal/filter/burst.go:24-45 | a new filter has its full burst |
| BurstFilter.BurstFilter.Decide | internal/filter/burst.go:47-68 | a low-level event is granted exactly when every window since construction stays within the bound; higher levels pass untouched |
| FastDispatch.SharingIsInvisible | internal/logevent/event.go:177-219 | reusing the caller's attributes instead of copying them changes no event |
| FastDispatch.AppendJSONEvent | internal/layout/structured.go:108-125 | writes the event's fields and attributes in order |
| FastDispatch.AppendJSONFixedEvent | internal/layout/structured.go:153-172 | writes the same text from an array of three and a count |
| FastDispatch.JsonControlWrites | internal/router/appender.go:147-161 | without filters a JSON control does exactly what the fast path does for it |
| FastDispatch.CollectedGathers | internal/logevent/event.go:213-234 | the collected attributes are, in order, exactly those with a key other than the logger's, resolved and with the groups before their keys |
| FastDispatch.GroupKeyCuts | internal/logevent/event.go:242-257 | cut at its dots a grouped key is its groups and then its key |
| FastDispatch.EmptyGroupsVanish | internal/logevent/event.go:242-257 | empty groups leave no trace in a key |
| FastDispatch.EventCarries | internal/logevent/event.go:138-197 | copied or shared, an event carries the attributes of the handler, the context and the call, in this order |
| FastDispatch.ApplyDecides | internal/filter/filter.go:138-148 | the first filter that is not neutral decides; it is neutral exactly when all are |
| FastDispatch.ControlsAreServed | internal/router/appender.go:147-161 | the controls are served in order: each whose level and filters let the event pass writes it or reports why not, the others do nothing |
| FastDispatch.RouteIsDispatched | handler_part1.go:99-116 | a denying route filter keeps the event from all controls, otherwise all are served |
| FastDispatch.DispatchAttrsFast | internal/router/fast.go:15-55 | handles an event exactly when the route, the context and the attributes allow it and some control listens to its level; then the effects and errors are those of building and dispatching the event; otherwise nothing was done |
| FastDispatch.DispatchFixedAttrsFast | internal/router/fast.go:58-101 | the same for three attributes in an array |
| FastDispatch.LogAttrs | handler_part1.go:15-69 | the first global filter that is not neutral decides: Deny drops the event, Accept overrides the level of the route; what passes is queued, or served by the controls in order; the fast path makes no difference, for every plan and request |
| FastDispatch.Log3Attrs | handler_part2.go:15-51 | the same for both fast paths together |

## Left out

Asynchronous pipeline

* The protocol is a transition system over values, not a class over shared memory: Dafny's
  methods run one at a time, and the interleaving is what matters here.
* Go's memory model: atomics are sequentially consistent, as `sync/atomic` promises.
* Calls of the sinks for one event are one step; the `failed` counter, the error handler, the
  end-of-batch flag and the payload of events do not appear. Events are the numbers of the
  calls that append them.
* `beginAppend` and the check of `closed` happen under one lock and are one step. Later
  calls of `Close` return at once and are not modelled.
* Wait strategies that poll are steps without tokens; they take part in all safety results
  and in the absence of deadlock. The timeouts of the blocking strategy are not modelled.
* AsyncTermination.EveryScheduleSettles: as the next line.
* AsyncTermination.CloseAlwaysFinishes: schedules exclude new calls and polling steps,
  which can go on for ever without helping anyone.
* The 64-bit sequence and event counters do not wrap. `SequenceBarrier`, which the pipeline
  does not use, and `HighestPublished`, `IsPublished` and `RemainingCapacity` are left out.

Router

* Router.Router.constructor: takes a configuration that was built; the failure of the build
  itself is that of `RouterConfig.BuildRuntimeConfig`.
* Router.Router.Replace: rules whose trimmed names coincide are excluded, because the order
  of equal rules after an unstable sort is not determined. The errors of closing appenders
  are not collected.
* `Configurations`, `ConfigReloader` and the locks around the snapshot; calls of one router
  happen one after another.
* Filters are numbers here: the router only passes them on.

Configuration

* Reading YAML, TOML, XML and property files, looking up placeholders, and the contents of
  appender, layout and filter factories: whether a factory succeeds is part of the entry.
* The sorted order in which names are visited: the results hold for every order.
* Without any configured appender the original returns its defaults; here the empty list.

Structured JSON

* Escaping of keys and string values; encoded values are opaque text.
* StructuredPaths.Compile: the tree is a value that insertion rebuilds, because nodes that
  hold their children and are reached again through an index would add aliasing but no
  behaviour; updating nodes in place is not captured.
* The configuration of filters and renames, and the layouts that call the writer.

Rolling files

* Compression, the queue for rollover actions, permissions, buffering and flushing, I/O
  errors other than a failed allocation of an archive path, and direct writing into the
  pattern's file.
* RollingAppender.RollingFile.constructor: opening at construction and cleaning on start are
  not modelled; the first `Append` opens the file.
* RollingAppender.NextRolloverAfter: times are numbers of nanoseconds; how the next local
  midnight and the next time of a cron schedule are computed is not modelled.
* RollingSlots.RotationShifts: the compressed names of the slots are not covered, as
  compression is not.
* RollingAppender.RollingFile.RotateMinIndexArchives: the same.
* RollingAppender.RollingFile.NextArchivePath: looks for the uncompressed name only.
* RollingAppender.RollingFile.Rollover: in min mode the slots are assumed to be different
  files and none of them the active one, which validation checks only for index 0. A
  pattern without an index in min mode is not covered.
* RollingSlots.KthRotationLoses: the slots have the same names throughout and are free at
  first. With names that depend on the time, `RollingSlots.OnlyTheLastIsLost` still says what
  one rotation loses.
* RollingRuns.Run: between its events nothing else deletes files; what retention removes is
  stated by `RollingAppender.RollingFile.DeleteArchive` and in `ExpiredArchives`.
* `initArchiveIndex` without a pattern; the scan for the next index is a parameter of the
  appender and modelled in `RollingIndex` for patterns.
* RollingPattern.FormatPattern: how a date prints is a parameter.
* RollingSearch.PrintedMatches: dates are not empty, and the wildcard also takes line breaks.
* RollingIndex.IndexRoundTrip: when archives are compressed, dates that end the name in `.gz`
  themselves are excluded, as `RollingPattern.GzAgreesExactlyWhen` describes them; names are
  assumed clean, with `/` as separator.
* RollingIndex.NextNamesAreNew: the same; the step past the largest int is not modelled.
* `PatternGlob`, directory walks and glob matching: which files are candidates is given.
* Sorting stands for the library's sort and returns a new list.
* Deletions are assumed to succeed.

Smaller cores

* Tokens and time are real numbers; the clock does not run backwards.
* FastDispatch: filters are functions of the event; a context says whether it is cancelled
  and what is attached to it; whether a write fails may depend on everything done before.
