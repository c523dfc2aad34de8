# Dashpot verified

A Dafny model of the concurrent protocols and order-sensitive algorithms of Dashpot, a terminal
dashboard over Git and GitHub. `dafny verify dfyconfig.toml` checks all of it.

Each concurrent part is a state machine: one step for every region under a lock, or for every run of
JavaScript between two awaits, and everything outside a lock a step of its own. A lemma shows that
every step keeps an invariant, another that every run does, and the guarantees follow for all runs.
Objects with mutable fields are classes whose methods are proved equal to those steps. Sequential
algorithms are methods with their loops, proved against a specification whose properties are lemmas.

| module | what it models |
|---|---|
| `Wrappers`, `Sequences`, `StableSorting` | options and results, sequences of the same elements, and Python's stable sort with its uniqueness |
| `EventSelection`, `EventLogFiles`, `EventLogMerge`, `EventLogPlaces`, `RecentEvents` | the streaming merge of day files, its order told by places in the files, and the early-stopping newest-first scan |
| `HelperSlots`, `PublicationQueues` | the OpenCode plugin's bounded helpers and per-root queues |
| `RateLimitPause` | the Rate Limit Pause shared by many concurrent requests |
| `FileLocks`, `RecordStore` | lock files deleted under their waiters, and records replaced under them |
| `RunningCommands` | interruptible commands and their registry |
| `ObservationParts`, `ObservationStore`, `ObservationCoordinator`, `ObservationRuns`, `ObservationShown`, `ObservationReports` | keyed observations, the store they are published to, every interleaving of the two, and what publishing shows and reports |
| `AccountSpend` | what the rest of an account spent |
| `ColumnOrder`, `IssuePages` | two-direction ordering with ties, filtering and cursor paging |
| `GitHubPaging`, `GitHubIssues` | budgeted pagination against arbitrary answers |
| `KindIndex`, `KindTable` | the generated documentation indexes and their gate, and what a reader finds in their tables |
| `GitRecords` | Git's NUL-separated output |

Instants, days and durations are integers, and identities are numbers or strings. Clocks, collectors,
GitHub's answers and file contents are arguments or oracles that may be anything. The heap of the
event merge is a set from which a least element is taken. Histories (accepted outcomes, admitted
requests, acquisitions, unlinks) are kept beside the modelled state to state what a run did.

One assumption about the files is named rather than made: that none holds an event stamped after its
own day, on which `src/dashpot/core/event_log_files.py:242-248` and 445-447 rely. `NoneAfterOwnDay`
says it, and results that need it say so.

## Where the code and what is said of it differ

- `src/dashpot/plugins/opencode.js:214-218` says a root's publications and its children's reach the
  helper one at a time. They do for one queue key. A child with an ancestor the registry does not
  know when its event is admitted, or more than `PARENT_DEPTH_LIMIT` links below its root, is queued
  under its own session: `UnknownChildMayOverlapItsRoot` gives a run in which it publishes while its
  root does, and `ChildIsKeptApartIffItsRootIsKnown` the exact condition under which no run does.
  Lines 13-17 promise as much of one session's own publications. They overlap when its parent is
  learned between two of its events, as in `LearnedParentLetsOwnPublicationsOverlap`;
  `OwnPublicationsAreKeptApartIffOneRootIsKnown` is the exact condition.
- `src/dashpot/observation/collect.py:435-439` asks for Agent Runs again when a published fact that
  their binding reads changes. A publish that goes through reports every such change
  (`PublishNamesWhatChanges`). One that is refused raises, and the changes of the Projects already put
  in the store, or of all of them when it is the Agent Runs that are refused, go with it:
  `RefusedPublishChanges` says exactly which, `LostUntilComposedAnew` that no later publish names
  such a Project until it is composed anew, and `RefusedPublishLosesAChange` gives a run.
- `src/dashpot/core/runtime_stats.py:239-241` takes the reading with the most points left to have come
  first. When free requests tie with the first and their answers cross, the first request's own cost is
  taken off what others spent: `CrossedAnswersUnderReport` is a case, and `ExactWhenNoneDearer` the
  exact condition, asked of the recorded readings alone. `SpendIsWhatOthersSpent` asks it of every
  window.
- `src/dashpot/core/git.py:170-172` asks for a first field free of line breaks. `RefsRoundTrip` does not
  need it, since only the one line break Git prints between records is removed.
- `scripts/maintain_docs.py:607-614` asks that every cell holding text be escaped. Lines 855-859 leave the
  filename in a link as it is: `KindTable.RowReadsBack` shows that a row is read back exactly when the
  filename has no bar in it and no `](`.
- `src/dashpot/queries/markdown_queries.py:192-206` replaces the provider's ordering before asking
  whether there is one, so a local result is never left in path order; `Effective` has no such case.
- `src/dashpot/issues/github_issues.py:238-250` refuses an Issue repeated within one page of a listing.
  One repeated on two pages passes `_collect` and is left to the check its caller makes.

## Model

| member | source | states |
|---|---|---|
| StableSorting.SortIsStable | src/dashpot/issues/ordering.py:149-153 | The sort every `sorted` and `list.sort` stands for: ordered, with every class of ties as it stood |
| StableSorting.StableSortUnique | src/dashpot/issues/ordering.py:149-153 | A stable sort has one result: two sequences in order with the same ties are equal |
| StableSorting.SortIgnoresArrangement | scripts/maintain_docs.py:802-804 | Under an order that tells every two elements apart, any arrangement sorts to one result |
| EventSelection.AdmittedPassesRawFields | src/dashpot/core/event_log_files.py:263-317 | The cheap question asked of raw fields never drops a line whose validated event would be admitted |
| EventSelection.RawFieldsAreExact | src/dashpot/core/event_log_files.py:263-317 | And it drops every other, where the strict reader drops no attribute and none hides a value |
| EventSelection.KeptIsAdmitted | src/dashpot/core/event_log_files.py:293-317 | A line is kept exactly for an event whose every field is its own and of which every criterion of the selection is so, an identity being looked for among the attributes first |
| EventSelection.ReadFile | src/dashpot/core/event_log_files.py:337-371 | Reading a file keeps exactly the events of the lines that hold one the selection asks for, each before those of later lines, and says which lines could not be read |
| EventSelection.SelectedAreAdmitted | src/dashpot/core/event_log_files.py:293-317 | Every event read satisfies the selection |
| EventLogFiles.FilesByDay | src/dashpot/core/event_log_files.py:374-390 | Files on or after the first day, grouped by day with each day in directory and file order |
| EventLogFiles.PushFile | src/dashpot/core/event_log_files.py:422-424 | Holding one file's events keeps the stream: nothing yielded comes after anything now held |
| EventLogFiles.PushDay | src/dashpot/core/event_log_files.py:421-426 | Holding one day's files adds exactly their selected events, numbered in read order |
| EventLogFiles.Drain | src/dashpot/core/event_log_files.py:427-434 | What is settled before the next day is yielded in order and nothing else; after the last day nothing stays held |
| EventLogFiles.ReadEventLogs | src/dashpot/core/event_log_files.py:397-434 | What is streamed is the events of the entries read, arranged so that each comes before everything it must |
| EventLogMerge.MergeIsDetermined | src/dashpot/core/event_log_files.py:407-412 | What was read leaves one stream: two arrangements of the same entries are equal |
| EventLogMerge.StreamIsDetermined | src/dashpot/core/event_log_files.py:397-434 | The files and the selection leave one stream |
| EventLogMerge.EqualInstantsKeepReadOrder | src/dashpot/core/event_log_files.py:409-410 | Of equal instants, the one read first is yielded first; `EventLogPlaces` says what is read first |
| EventLogPlaces.StreamIsPlaced | src/dashpot/core/event_log_files.py:397-434 | What is streamed, told by day, directory, file and line alone: every event asked for, once; of two the earlier, and of one instant the one that stands first, except where a file was opened only after the later had been let go |
| EventLogPlaces.EqualInstantsKeepPlaces | src/dashpot/core/event_log_files.py:409-410 | Of one instant the stream keeps the order of days, then directories, files and lines |
| EventLogPlaces.PlacedStreamIsOne | src/dashpot/core/event_log_files.py:397-434 | Those places leave one stream |
| EventLogPlaces.FlattenedInOrder | src/dashpot/core/event_log_files.py:374-390 | Every file of every directory, directories in the order given and each one's files in theirs |
| EventLogMerge.DisorderIsLateStamps | src/dashpot/core/event_log_files.py:403-409 | A later event comes out before an earlier one if and only if the earlier one's file was opened after the later was settled; it is then stamped before its file's carry-over |
| EventLogMerge.StreamIsStableSortIffNoneOvertaken | src/dashpot/core/event_log_files.py:397-434 | The stream is the stable sort by instant of everything read exactly when no such pair exists |
| EventLogMerge.StreamIsSortedIffNoneOvertaken | src/dashpot/core/event_log_files.py:397-434 | What is streamed from any files is in order of instants exactly when nothing read is overtaken, and exactly then it is the stable sort of what is read |
| EventLogMerge.StreamIsEveryEventOpened | src/dashpot/core/event_log_files.py:413-434 | The stream is a permutation of the selected events of every file opened |
| EventLogMerge.SkippedFilesHoldNothing | src/dashpot/core/event_log_files.py:241-248 | Where no file holds an event stamped after its own day, files before the first day, which are never opened, hold nothing the selection admits |
| EventLogMerge.StreamIsEverySelectedEvent | src/dashpot/core/event_log_files.py:397-434 | And where none is, the stream is a permutation of the selected events of every file there is |
| RecentEvents.ScanBack | src/dashpot/core/event_log_files.py:452-458 | Scanning days newest first finds every event but those of the days left unopened; it stops at the first day whose start leaves `limit` events at or after it, and at no later day |
| RecentEvents.RecentEventsOf | src/dashpot/core/event_log_files.py:437-460 | What is returned and what is not make up the selected events of every file from the first day on; where no file holds an event stamped after its own day, no unreturned event is later and the instants are those of the last `limit` of all selected events sorted |
| RecentEvents.UnopenedAreEarlier | src/dashpot/core/event_log_files.py:445-447 | Events of the days left unopened are earlier than the last opened day's start |
| RecentEvents.SortedSameInstants | src/dashpot/core/event_log_files.py:459-460 | Two sorted arrangements of the same events have the same instants in every place |
| RecentEvents.RecentInstantsAreExact | src/dashpot/core/event_log_files.py:459-460 | Of any events split in two, a sorted part of at most `limit` that none of the rest is later than has the instants of the last `limit` of all |
| HelperSlots.EveryRunKeeps | src/dashpot/plugins/opencode.js:79-141 | Under any schedule the helpers counted are the invocations holding a slot, never over the limit, and while anyone waits the slots held and the pending wake-ups fill the limit |
| HelperSlots.NobodyWaitsForNothing | src/dashpot/plugins/opencode.js:81-107 | No wake-up is lost: with no helper running and none woken, nobody is queued |
| HelperSlots.SlotIsReleasedOnce | src/dashpot/plugins/opencode.js:101-142 | Once a helper has ended, no later `error` or `close` of it, after any run, changes a slot again |
| HelperSlots.SlotIsHeldUntilTheEnd | src/dashpot/plugins/opencode.js:99-107 | A slot taken is given back by its helper's end and by nothing else, a deadline included; either of the two answers the invocation |
| HelperSlots.GivesUpOnlyLate | src/dashpot/plugins/opencode.js:81-83 | Nobody answers null without a slot but past its deadline, with every slot taken |
| HelperSlots.NobodyWaitsLate | src/dashpot/plugins/opencode.js:81-83 | And past its deadline nobody is queued |
| HelperSlots.FailedSpawnHoldsNothing | src/dashpot/plugins/opencode.js:109-116 | A helper that cannot be started gives its slot back at once, and null is answered |
| HelperSlots.NobodyIsWokenOutOfTurn | src/dashpot/plugins/opencode.js:84-107 | Over any run in which one waits throughout, whoever is woken stood before it in the queue |
| HelperSlots.HelperRegistry.Release | src/dashpot/plugins/opencode.js:102-107 | A release gives the slot back once and wakes the first waiter |
| HelperSlots.HelperRegistry.Attempt | src/dashpot/plugins/opencode.js:79-116 | One turn of the loop: take a slot, queue, or give up at the deadline; a failed spawn gives the slot back |
| HelperSlots.HelperRegistry.Answer | src/dashpot/plugins/opencode.js:119-142 | An invocation answers at most once, whatever it holds |
| HelperSlots.HelperRegistry.Expire | src/dashpot/plugins/opencode.js:83-96 | A waiter whose timer fires leaves the queue and nobody else does |
| PublicationQueues.RouteKnown | src/dashpot/plugins/opencode.js:187-195 | The root found is the ancestor without a parent, and none is found exactly when the registry knows no way to one |
| PublicationQueues.RootIsUnique | src/dashpot/plugins/opencode.js:187-195 | A session has at most one known root |
| PublicationQueues.EveryRunKeeps | src/dashpot/plugins/opencode.js:219-240 | Every queue with unfinished tasks is the one the map names, and holds exactly what was admitted and not finished |
| PublicationQueues.PublicationsOfAKeyAreSerial | src/dashpot/plugins/opencode.js:214-240 | However queues are dropped and made again, tasks of one key begin in admission order, each after the one before finished, at most the limit unfinished |
| PublicationQueues.MapHoldsOnlyWork | src/dashpot/plugins/opencode.js:219-240 | In every run the map keeps no queue that has run dry |
| PublicationQueues.FullQueueDropsNewcomer | src/dashpot/plugins/opencode.js:225-228 | A full queue changes nothing; otherwise the newcomer is last in its own queue |
| PublicationQueues.QueueKey | src/dashpot/plugins/opencode.js:274-276 | An event is queued under its root if the registry knows one at admission, and else under its own session |
| PublicationQueues.UnknownChildMayOverlapItsRoot | src/dashpot/plugins/opencode.js:214-219 | A child whose parent is not known at admission may publish while its root does, contrary to the comment |
| PublicationQueues.KeptApartIffOneKey | src/dashpot/plugins/opencode.js:214-240 | Publications of two keys never overlap in any run exactly when the keys are one |
| PublicationQueues.ChildIsKeptApartIffItsRootIsKnown | src/dashpot/plugins/opencode.js:274-276 | An event never overlaps its root's publications exactly when the registry knows that root at admission or the session is its own root |
| PublicationQueues.OwnPublicationsAreKeptApartIffOneRootIsKnown | src/dashpot/plugins/opencode.js:274-276 | Two events of one session never overlap exactly when the registry knew the same root for it at both admissions, or none but itself |
| PublicationQueues.LearnedParentLetsOwnPublicationsOverlap | src/dashpot/plugins/opencode.js:13-17 | A session whose parent is learned between two of its events may publish both at once, contrary to the header |
| PublicationQueues.QueueRegistry.Admit | src/dashpot/plugins/opencode.js:219-240 | Enqueue as one step of the state machine |
| PublicationQueues.QueueRegistry.Start | src/dashpot/plugins/opencode.js:229-232 | The first task of a queue starts |
| PublicationQueues.QueueRegistry.Finally | src/dashpot/plugins/opencode.js:233-237 | The last task done takes its queue out of the map only if the map still names it |
| RateLimitPause.CapChangesNoDelay | src/dashpot/github/github.py:59-62 | For every backoff, limit and count, capping the doublings at the quotient's bit length gives the delay of uncapped doubling clipped at the limit |
| RateLimitPause.BackoffIsClippedDoubling | src/dashpot/github/github.py:270-275 | With the constants of the program the delay is that doubling, positive and within the limit |
| RateLimitPause.CapIsFewestDoublings | src/dashpot/github/github.py:59-62 | The cap is the fewest doublings that reach the limit exactly when the limit is not itself such a doubling; here it is not |
| RateLimitPause.PauseEndsInTheFuture | src/dashpot/github/github.py:262-277 | Every pause started ends strictly after it starts |
| RateLimitPause.LatestReadingHasFewestPoints | src/dashpot/github/github.py:189-199 | Readings of a new window arriving in any order leave the one with fewest points left |
| RateLimitPause.LatestRateLimit.Record | src/dashpot/github/github.py:189-199 | A reading of the window held that has more points is ignored |
| RateLimitPause.LatestRateLimit.Admit | src/dashpot/github/github.py:201-226 | A request is admitted outside a pause or by using up its one attempt, under the current ticket |
| RateLimitPause.LatestRateLimit.Answer | src/dashpot/github/github.py:228-243 | A success under the current ticket ends the pause and the count of refusals; another changes nothing |
| RateLimitPause.LatestRateLimit.Refuse | src/dashpot/github/github.py:245-277 | A refusal under the current ticket starts a new generation and a pause; another changes nothing |
| RateLimitPause.LatestRateLimit.Lift | src/dashpot/github/github.py:279-289 | A lift allows one attempt in a pause |
| RateLimitPause.EveryRunKeeps | src/dashpot/github/github.py:145-289 | In every run of any number of requests: no ticket is past the generation, the starts of pauses are numbered one by one, and in a pause the requests under its ticket are attempts which, with the attempt still allowed, are no more than the lifts since it began |
| RateLimitPause.SentSinceRefusalNeverExceedsLifts | src/dashpot/github/github.py:201-226 | In a pause, requests admitted under its ticket plus the attempt still allowed never exceed the lifts since |
| RateLimitPause.NothingIsSentBeforeThePauseEnds | src/dashpot/github/github.py:201-226 | Without a lift nothing is sent and nothing changes the pause before it is due to end |
| RateLimitPause.PrimaryRefusalWaitsForTheReset | src/dashpot/github/github.py:262-270 | After a primary refusal with the latest reading low and its reset ahead, over any later run without a lift, no request is admitted before that reset and any new one is from then on |
| RateLimitPause.OtherRefusalsBackOff | src/dashpot/github/github.py:271-275 | After any other that starts a pause the same holds of the backoff doubled once for each earlier refusal in the row, clipped at the limit |
| RateLimitPause.RefusalsAreInARow | src/dashpot/github/github.py:228-261 | The count is of the refusals under the current ticket since the last such success |
| RateLimitPause.LiftLetsOneThrough | src/dashpot/github/github.py:279-289 | A lift lets one request through and no other; its success ends the pause, and another failure leaves the rest held |
| RateLimitPause.EarlierRequestsLeaveThePause | src/dashpot/github/github.py:228-256 | From the start of a pause on, after any run, a request admitted before it neither ends nor extends it |
| RateLimitPause.EarlyEndIsAnAttemptsSuccess | src/dashpot/github/github.py:228-243 | A pause that ends early ends by the success of an attempt a lift allowed |
| RateLimitPause.OneRefusalPerTicketStarts | src/dashpot/github/github.py:245-276 | Of any number of refusals sharing a ticket exactly one starts a pause and adds one to the refusals in a row; any other leaves the limits as they are |
| FileLocks.EveryRunKeeps | src/dashpot/core/file_locks.py:12-58 | In every run, with unlinks and crashes anywhere: an inode's lock is owned exactly by the process past acquiring it, a process past the check owns the inode at the path, one with an unlinked inode opened it before an unlink, and rounds begun again are no more than the unlinks since entry |
| FileLocks.Exclusion | src/dashpot/core/file_locks.py:13-34 | No two processes are past the link check and before release or unlink of one path |
| FileLocks.UnlinkedWaiterRestarts | src/dashpot/core/file_locks.py:22-31 | A waiter that comes to own an unlinked inode goes round again, whatever others do before it checks |
| FileLocks.DeletingSendsWaitersRound | src/dashpot/core/file_locks.py:22-49 | When a holder deletes the lock file and releases, whoever waited on it owns a dead inode, goes round, and opens a new one |
| FileLocks.WaiterGetsIn | src/dashpot/core/file_locks.py:22-34 | While nobody owns a lock, a waiter whose inode is still at the path acquires it and passes the check, and any other does after going round once |
| FileLocks.RestartsAreUnlinks | src/dashpot/core/file_locks.py:22-34 | A process goes round at most once for every unlink since it entered |
| FileLocks.LockDirectory.Open | src/dashpot/core/file_locks.py:22-24 | Opening creates and links a new inode only when the path has none |
| FileLocks.LockDirectory.TryLock | src/dashpot/core/file_locks.py:25 | An inode's lock is taken only when nobody owns it |
| FileLocks.LockDirectory.StillLinked | src/dashpot/core/file_locks.py:52-58 | The check holds exactly for the inode still at the path; otherwise the lock is given up |
| FileLocks.LockDirectory.Remove | src/dashpot/core/file_locks.py:37-49 | A holder unlinks the path and keeps its inode |
| FileLocks.LockDirectory.Unlock | src/dashpot/core/file_locks.py:28-34 | Release gives up every lock the process owns |
| RecordStore.EveryRunKeeps | src/dashpot/core/record_store.py:97-147 | In every interleaving with pruners, sweeps and crashes: at most one writer is past the link check, what it has loaded is the record, and what it writes is its update of the record, of which the temporary holds a part until it is complete; and the record is the replay of the updates that took effect, in order of acquisition |
| RecordStore.UpdatesSerialise | src/dashpot/core/record_store.py:97-130 | The record is always the updates that took effect applied in lock-acquisition order |
| RecordStore.UpdateSeesWhatItReplaces | src/dashpot/core/record_store.py:31-60 | A rename puts in place the update of the very contents it replaces |
| RecordStore.DeletionSeesWhatItDeletes | src/dashpot/core/record_store.py:97-147 | A deletion takes effect on the very contents it was decided on |
| RecordStore.ReadersSeeWholeRecords | src/dashpot/core/record_store.py:31-60 | At every moment a reader sees contents that a prefix of the updates made whole |
| RecordStore.LockFileOutlivesItsRecord | src/dashpot/core/record_store.py:145-147 | A lock file is unlinked only while its record is absent |
| RecordStore.OnlyTemporariesAreTaken | src/dashpot/core/record_store.py:173-185 | A temporary's name is known for one of the store's keys, and no lock file's or record's name ever is |
| RecordStore.SweepTakesAgedTemporaries | src/dashpot/core/record_store.py:162-190 | Of what a store makes, a sweep takes exactly the temporaries that are regular files last changed at least the age ago |
| RecordStore.StoreDirectory.SweepTemporaries | src/dashpot/core/record_store.py:162-190 | A sweep removes exactly the regular files that are aged and named as temporaries of the store's keys, and counts them |
| RunningCommands.EveryRunKeeps | src/dashpot/core/commands.py:72-186 | In every interleaving: the registry is the runners between entry and exit, each command entered is signalled, found ended, or still to be done by every interruption, a call's count is of those it told, and a mark comes from a call that told its process or from late registration |
| RunningCommands.NoneSlipsPast | src/dashpot/core/commands.py:151-186 | Once an interruption has returned, every command past its entry has been signalled or had ended when examined; one that leads a group is let off only once reaped |
| RunningCommands.LateIsStoppedOnEntry | src/dashpot/core/commands.py:126-138 | In every run, returned or not, a command that registered after closure is on its entry signalled or found ended |
| RunningCommands.ReportedIsTold | src/dashpot/core/commands.py:132-149 | A runner holding its command is told it was interrupted exactly when it registered after closure or an interruption found it running and has told it or is about to |
| RunningCommands.CountIsOfThoseTold | src/dashpot/core/commands.py:169-186 | The count returned is of distinct commands, each found running |
| RunningCommands.NoneStartsOnceClosed | src/dashpot/core/commands.py:390-395 | After closure no command that had not passed its check ever starts |
| RunningCommands.CommandRegistry.Enter | src/dashpot/core/commands.py:121-138 | Registering after closure marks the process and says it is late |
| RunningCommands.CommandRegistry.Exit | src/dashpot/core/commands.py:141-144 | Leaving lets the process go and forgets its mark |
| RunningCommands.CommandRegistry.Close | src/dashpot/core/commands.py:166-168 | Closing is for good and takes the snapshot in the same region |
| RunningCommands.CommandRegistry.MarkTold | src/dashpot/core/commands.py:177-182 | A process is marked only while registered and only if found running |
| ObservationParts.TargetsCarryTheirLatestSuccess | src/dashpot/observation/collect.py:193-303 | Over any accepted outcomes a targets part carries its latest success, is fresh exactly when the last attempt succeeded, unavailable exactly when none did |
| ObservationParts.SourcePartsKeepTheirLastGood | src/dashpot/observation/collect.py:234-303 | An Issue or Pull Request part is what its source last said, or keeps that as stale after a failure if it was ever good, or is empty |
| ObservationParts.NoSnapshotMeansNeverObserved | src/dashpot/observation/collect.py:686-708 | A composition has no snapshot exactly when some part had no collector last and no part was ever good; its own diagnostics are exactly those of the parts whose last attempt had no collector |
| ObservationParts.ComposedShowsOutcomes | src/dashpot/observation/collect.py:306-350 | A composition shows of each part its last answer, or its latest success as stale if that was ever good, or nothing: status, times and entries of all three, the diagnostics of each last attempt, the status of the Issues and the time all three took |
| ObservationStore.LookupFinds | src/dashpot/observation/observation_store.py:318-385 | An index lookup finds an entry if and only if its Project holds it |
| ObservationStore.IndexesFindTheirOwn | src/dashpot/observation/observation_store.py:318-385 | Each of the four indexes finds exactly the Issues, Pull Requests, targets or branches that a snapshot lists |
| ObservationStore.IndexItems | src/dashpot/observation/observation_store.py:325-331 | One Project's entries are added unless it holds an identity twice |
| ObservationStore.BuildIndex | src/dashpot/observation/observation_store.py:318-332 | A full rebuild succeeds exactly when no Project repeats an identity |
| ObservationStore.AgentRunsById | src/dashpot/observation/observation_store.py:399-405 | Agent Runs are refused exactly when they repeat an identity |
| ObservationStore.OnlyItsOwnDuplicatesRefuse | src/dashpot/observation/observation_store.py:129-159 | In a store without duplicates a replacement is refused only for its own |
| ObservationStore.ReplacingReportsOnlyItsOwnChange | src/dashpot/observation/observation_store.py:288-315 | A replacement reports its Project exactly when a fact binding reads changed, and no other |
| ObservationStore.UnreportedFactsAreUnchanged | src/dashpot/observation/observation_store.py:257-315 | Over any run of the store's commits, a Project none reported still shows binding the same facts, and one reported was replaced by a commit |
| ObservationStore.WorkspaceObservationStore.ReplaceProject | src/dashpot/observation/observation_store.py:129-159 | All at once or not at all: the Project replaced, every index rebuilt, the revision one more |
| ObservationStore.WorkspaceObservationStore.ReplaceAgentRuns | src/dashpot/observation/observation_store.py:161-191 | Agent Runs and bindings replaced, Projects untouched, or nothing |
| ObservationCoordinator.LastTicketIsCurrent | src/dashpot/observation/collect.py:441-453 | Tickets of a request are numbered past every earlier one, and a key's last is current |
| ObservationCoordinator.Coordinator.Request | src/dashpot/observation/collect.py:441-449 | Each key's generation grows by one for each time it is asked for |
| ObservationCoordinator.Coordinator.AcceptPart | src/dashpot/observation/collect.py:486-495 | A current result is accepted, composed and left pending; a superseded one changes nothing |
| ObservationCoordinator.Coordinator.AcceptAgentRuns | src/dashpot/observation/collect.py:473-479 | Current Agent Runs are accepted and left pending |
| ObservationCoordinator.Coordinator.Publish | src/dashpot/observation/collect.py:497-542 | Pending Projects go into the store in configured order, then Agent Runs; what stays pending after a refusal, and the changes returned when there is none |
| ObservationCoordinator.NextPublishes | src/dashpot/observation/collect.py:517-527 | One pending Project goes through exactly when it repeats no identity, and nothing else is touched |
| ObservationCoordinator.PublishedUnlessDuplicated | src/dashpot/observation/collect.py:509-528 | Projects go through exactly when no pending one repeats an identity |
| ObservationCoordinator.PublishedHolds | src/dashpot/observation/collect.py:509-528 | However far a publish got, the store holds as now composed exactly the pending Projects configured before the first refused, and every other as before |
| ObservationRuns.EveryRunKeeps | src/dashpot/observation/collect.py:441-542 | Over every interleaving: observations are the fold of what each key accepted, an observer's `previous` is what its key has now, compositions are of the latest parts |
| ObservationRuns.AcceptedNeverDecreases | src/dashpot/observation/collect.py:486-490 | The generation a key accepted last never decreases |
| ObservationRuns.SupersededNeverObserves | src/dashpot/observation/collect.py:462-466 | Over any later run an observer whose ticket was superseded before it was checked waits or returns, and never observes |
| ObservationRuns.LockIsTakenAndGivenBack | src/dashpot/observation/collect.py:462-495 | A waiter takes the lock of its key when free, and gives it back however its observation ends, an exception included |
| ObservationRuns.ShownOnlyOnceWhole | src/dashpot/observation/collect.py:664-684 | The store shows a Project only after all three parts were accepted |
| ObservationRuns.PublishGoesThrough | src/dashpot/observation/collect.py:497-542 | A publish goes through exactly when nothing pending repeats an identity; otherwise every Project stays pending |
| ObservationRuns.PublishedIsTheLatest | src/dashpot/observation/collect.py:497-542 | Right after a publish the store holds every Project with all parts accepted, composed of the fold of what each part accepted in order, and indexes are a full rebuild |
| ObservationShown.PublishedShowsAccepted | src/dashpot/observation/collect.py:497-542 | In every run, right after a publish that goes through, the store shows of a Project exactly what the outcomes accepted of its three parts leave, told without the composition |
| ObservationShown.PublishedShowsAgentRuns | src/dashpot/observation/collect.py:528-541 | And the Agent Runs accepted last, with their bindings and diagnostics, or none |
| ObservationShown.EachChangeIsACommit | src/dashpot/observation/collect.py:507-541 | The revision grows by the number of changes returned, and any leaves the store stamped with the time of the publish |
| ObservationShown.FreshStoreIsInConfiguredOrder | src/dashpot/observation/collect.py:509-515 | A publish to a fresh store lists its Projects in configured order, however their observations completed |
| ObservationRuns.PublishedTargetsAreTheLatestSuccess | src/dashpot/observation/collect.py:455-495 | What the store then shows of targets is their latest success, fresh exactly when the last attempt succeeded |
| ObservationRuns.BindingsAreNeverAhead | src/dashpot/observation/collect.py:503-507 | Agent Runs in the store were never bound against a composition newer than the store shows |
| ObservationReports.PublishNamesWhatChanges | src/dashpot/observation/collect.py:435-439 | In every run a publish that goes through names exactly the Projects of which it changes the configuration, the status, the Issues or their status, or the targets, or which gain or lose a snapshot or stand without one |
| ObservationReports.RefusedPublishChanges | src/dashpot/observation/collect.py:508-528 | In every run one that is refused names none and changes facts of exactly the pending Projects configured before the first refused whose composition differs in one from what the store shows |
| ObservationReports.LostUntilComposedAnew | src/dashpot/observation/collect.py:497-542 | Whatever follows, no publish names a Project that a refused one put in the store until it is composed anew |
| ObservationReports.RefusedPublishLosesAChange | src/dashpot/observation/collect.py:497-542 | A run in which a refused publish shows a Project for the first time and the next one, which goes through, does not name it |
| AccountSpend.Spent | src/dashpot/core/runtime_stats.py:219-248 | The loop computes the sum over windows, in the order first read |
| AccountSpend.ReadingsAreRecorded | src/dashpot/core/runtime_stats.py:222-234 | The readings of a window are the points and costs of the requests that name it, in order, a missing cost being none |
| AccountSpend.FoundInAnyOrder | src/dashpot/core/runtime_stats.py:236-247 | For readings of a true history recorded in any order, the figure is what others spent after the first, less the first request's cost if another reading stood in for it, never below nothing |
| AccountSpend.ExactWhenNoneDearer | src/dashpot/core/runtime_stats.py:239-247 | The figure is never too high, and is exact if and only if, among the recorded readings, none with as many points left cost more than the one taken as first, or own costs account for all the points that went |
| AccountSpend.ExactAsRecorded | src/dashpot/core/runtime_stats.py:239-247 | Recorded in the order spent, the figure is exact |
| AccountSpend.ExactInAnyOrder | src/dashpot/core/runtime_stats.py:239-247 | With every own cost positive it is exact in any order |
| AccountSpend.CrossedAnswersUnderReport | src/dashpot/core/runtime_stats.py:239-247 | A free request recorded first makes the figure too low |
| AccountSpend.NothingUnlessReadTwice | src/dashpot/core/runtime_stats.py:235-238 | The result is absent exactly when no window was read twice |
| AccountSpend.SpendIsWhatOthersSpent | src/dashpot/core/runtime_stats.py:219-248 | Over all windows the figure is never more than what others spent in each, and exactly that if and only if the readings of every window show it so |
| AccountSpend.OrderDoesNotMatter | src/dashpot/core/runtime_stats.py:219-248 | With every own cost positive, any reordering of all readings gives the same figure |
| ColumnOrder.ReverseSortIsStable | src/dashpot/issues/ordering.py:150-153 | `reverse=True` is a stable sort by the reversed order |
| ColumnOrder.TwoPassesAreOne | src/dashpot/issues/ordering.py:137-154 | Sorting by tie-break and then by column is one stable sort by column and then tie-break |
| ColumnOrder.SortedByColumn | src/dashpot/issues/ordering.py:137-189 | Every item once, missing values last either way, ties in tie-break order |
| ColumnOrder.TiesKeepOneOrder | src/dashpot/issues/ordering.py:145-148 | Items of one value are listed in one order both ways |
| ColumnOrder.ArrangementPlaysNoPart | src/dashpot/issues/ordering.py:149 | With a tie-break that tells items apart the input order plays no part |
| IssuePages.FetchPage | src/dashpot/queries/markdown_queries.py:137-247 | A page is a slice of the filtered, ordered result from the continuation, or the refusal of the first check that fails |
| IssuePages.WalkFrom | src/dashpot/queries/markdown_queries.py:207-222 | A walk from any place yields the rest of the result in as few pages as hold it |
| IssuePages.WalkIsTheWholeResult | src/dashpot/queries/markdown_queries.py:186-247 | A walk from page one yields each match exactly once in the fewest pages, at least one; in the order of the search's own sort (created or last action, either way), or else of the column asked for, or else latest action first |
| IssuePages.RefusedForTheFirstReason | src/dashpot/queries/markdown_queries.py:146-211 | What is refused, and for which reason: a changed configuration, then an unanswerable search, then an unknown ordering unless the search sorts, then a continuation past the matches |
| IssuePages.ContinuationIsGoodWhileItFits | src/dashpot/queries/markdown_queries.py:207-211 | A continuation fails exactly when the result no longer reaches past where it left off; one just given is good and not at zero |
| GitHubPaging.RefreshMeter.NextRequest | src/dashpot/github/github.py:402-417 | A request is spent exactly while both bounds allow it, never past the budget |
| GitHubPaging.CursorTrail.Follow | src/dashpot/github/github.py:792-804 | A cursor is followed exactly when present and never followed before |
| GitHubPaging.CompletePages | src/dashpot/issues/github_issues.py:365-391 | Completing a connection ends against any answers, with the concatenation of every page, or for a reason GitHub or the budget gave |
| GitHubPaging.NodesStandInPageOrder | src/dashpot/issues/github_issues.py:365-391 | A completed connection holds every node of every page, in the order of the pages and of each page, and nothing else |
| GitHubPaging.StopsForAReason | src/dashpot/issues/github_issues.py:374-391 | One that stops short was refused, or answered by no page, or promised another by no cursor, an empty one or one followed before, or ran out of budget |
| GitHubPaging.CursorsAreReal | src/dashpot/github/github.py:792-804 | No page is asked for by a missing or an empty cursor |
| GitHubPaging.NoCursorTwice | src/dashpot/issues/github_issues.py:380-382 | No cursor of a connection is followed twice |
| GitHubPaging.OneEnd | src/dashpot/issues/github_issues.py:381-391 | A connection that can be completed is completed one way |
| GitHubIssues.ObserveRecord | src/dashpot/issues/github_issues.py:252-271 | An Issue is observed with each of its connections complete, one after another, or fails for one of them |
| GitHubIssues.CheckInvariants | src/dashpot/issues/issue_sources.py:151-175 | Records pass exactly when no identity and no number repeats |
| GitHubIssues.ObserveRecords | src/dashpot/issues/github_issues.py:238-250 | A listing is observed whole and in order, refused if it repeats an Issue |
| GitHubIssues.Enumerate | src/dashpot/issues/github_issues.py:441-465 | Every Issue of every listing until the last, each cursor new, within the budget; a failure has one of the reasons there are |
| GitHubIssues.NoListingTwice | src/dashpot/issues/github_issues.py:443-463 | No cursor of the Issue listing is followed twice |
| GitHubIssues.DisplayActivity | src/dashpot/issues/github_issues.py:273-296 | Engagement is of the completed Linked Pull Requests, or degraded when they cannot be completed |
| GitHubIssues.DegradedCountsThemAll | src/dashpot/issues/github_issues.py:285-295 | A failed completion lists none and counts every Linked Pull Request known of, keeping the comments |
| GitHubIssues.ShowsTheLowest | src/dashpot/issues/github_issues.py:727-739 | The lowest-numbered twenty, each as often as it is linked and in order, and the rest of the total counted |
| GitHubIssues.DisplayAll | src/dashpot/issues/github_issues.py:467-472 | Engagement of each Issue in turn; a failure is noted for that Issue alone |
| GitHubIssues.MergeColors | src/dashpot/issues/github_issues.py:473-475 | Exactly the labels some Issue carries have a colour, that of a carrier updated no earlier than any other |
| GitHubIssues.NewestColorWins | src/dashpot/issues/github_issues.py:473-475 | A label has the colour of an Issue carrying it that was updated no earlier than any other |
| GitHubIssues.Collect | src/dashpot/issues/github_issues.py:433-484 | A collection ends against any answers within the budget's requests, and what it returns is of the listings asked for |
| GitHubIssues.CollectionHoldsEveryPage | src/dashpot/issues/github_issues.py:460-479 | It holds every record of every page, by number and then as listed, with engagement for each that is its own unless a later Issue repeats its identity, and notes the numbers of those whose engagement could not be completed |
| KindIndex.EntriesAreOfTheDocuments | scripts/maintain_docs.py:784-804 | Entries come newest first and then by filename, whatever order the paths came in |
| KindIndex.ComparedAtFirstDifference | scripts/maintain_docs.py:802-804 | Dates and filenames compare at their first differing character |
| KindIndex.FrontmatterEndsAtItsFence | scripts/maintain_docs.py:836-841 | The frontmatter ends after the first fence past one line of body, if a line break follows it |
| KindIndex.EscapedCellsDoNotEnd | scripts/maintain_docs.py:607-614 | No bar in an escaped cell ends it |
| KindIndex.NewestIsFirst | scripts/maintain_docs.py:836-848 | The frontmatter's date is that of the entry the table lists first |
| KindIndex.RenderedParts | scripts/maintain_docs.py:807-866 | A rendered index is found to have the new frontmatter, the committed introduction, one marked table, and what followed the old one |
| KindTable.RenderedListsEveryDocument | scripts/maintain_docs.py:849-866 | Between the markers of a rendered index, under the heading, a reader finds one row for each document in the order collected, and reads title, filename, status and date back from it exactly when the filename has no bar and no `](` |
| KindTable.RowReadsBack | scripts/maintain_docs.py:607-614 | Splitting a row at its unescaped bars and undoing the escapes recovers the document if and only if its filename is readable |
| KindTable.RenderedFrontmatter | scripts/maintain_docs.py:848-862 | The frontmatter is living and dated as the first document listed, or not at all |
| KindIndex.RenderingIsAFixpoint | scripts/maintain_docs.py:827-866 | Rendering what was rendered changes nothing, with or without committed frontmatter |
| KindIndex.OnlyTheProseIsKept | scripts/maintain_docs.py:830-836 | Rendering over any earlier rendering is as rendering over the original: only the prose is carried |
| KindIndex.CheckKindIndexes | scripts/maintain_docs.py:900-928 | The gate reports exactly the documents without a title, the missing, unmarked and out-of-date indexes there are, directory by directory |
| KindIndex.NothingReportedWhenUpToDate | scripts/maintain_docs.py:900-928 | It reports nothing exactly when every document has a title and every index is its own rendering, or there is none and nothing to list |
| KindIndex.WriteIndexes | scripts/maintain_docs.py:931-957 | After a write the gate reports exactly the problems the write reported: those that still stand, none of them an index out of date; an index with an untitled document is left as it is |
| KindIndex.WrittenIsUpToDate | scripts/maintain_docs.py:869-897 | A written index is what would be written again |
| GitRecords.SplitAfter | src/dashpot/core/git.py:176 | Each NUL ends a part, whatever follows |
| GitRecords.Records | src/dashpot/core/git.py:176-188 | The stepping loop reads what the parts list from the front |
| GitRecords.RefsRoundTrip | src/dashpot/core/git.py:165-188 | Reading undoes printing for every list of records of one width and NUL-free fields, line breaks included |
| GitRecords.ParseWorktreeRecords | src/dashpot/core/git.py:213-226 | The loop reads the dictionaries the lines spell |
| GitRecords.WorktreesRoundTrip | src/dashpot/core/git.py:213-226 | Parsing undoes printing for every list of non-empty records of space-free keys and NUL-free values |
| GitRecords.EveryValueIsKept | src/dashpot/core/git.py:222-223 | With distinct keys the dictionary holds every printed value and no other |

## Left out

- Process, network and file-system effects: `Popen`, `killpg`, `gh`, `git`, `fsync` and temporary-file names are abstract steps or arbitrary answers; a flushed write that a power loss undoes is not modelled.
- Text forms: RFC 3339 instants, JSON documents, Diagnostic wording, descriptions and Unicode decoding.
- Pydantic validation and Issue normalisation: a record is well formed or it is not.
- The window in which a process number is reused between reading an exit state and signalling, which the code accepts: reading and sending are steps of their own, and a reaped process is not signalled.
- Reuse of inode numbers, which an open descriptor prevents.
- RateLimitPause.PauseEndsInTheFuture: does not model the end of the calendar, where adding a delay would fail.
- PublicationQueues: the eviction of the bounded maps (`seen`, `sessions`, `routed`), the asynchronous `route` of unknown sessions and the cleanup barrier are not modelled; a task begins at any time after the one before it.
- HelperSlots: what a helper prints and the choice of its arguments.
- EventLogFiles.ReadEventLogs: runs to the end; a caller that stops taking events early sees a prefix, and what each unreadable file or line is reported as is not modelled.
- ObservationRuns: query-driven mode, the barrier of `refresh`, the construction of collectors and the binding of Agent Runs to Issues; the clock is read once per publish rather than once per Project.
- ObservationStore: seeding a store from a whole snapshot, and the read models queried from it.
- RunningCommands: the timeout path of a runner, whose stop signals its own process.
- RecordStore: creating the store's directory, and choosing which orphaned locks to prune; several keys are as many independent stores.
- `_root` and `last_github_refresh` in `src/dashpot/core/runtime_stats.py`: a walk up parent spans of the same kind as the session walk of `RouteKnown`.
- IssuePages: parsing a search, deriving sort values from an Issue, and the encoding of continuations, which are taken to round-trip; the largest offset a continuation may carry.
- GitHubPaging.CompletePages: a clock may read anything at each check, so no bound on total time is stated.
- GitHubIssues.Collect: does not model which of several failures is reported first in words, or the rate limit diagnostics beside a collection.
- KindIndex: the ADR index, Markdown parsing, and filenames with line breaks in them; a table row is one line.
- GitRecords: `worktree_records` also strips white space from the ends of the output, which begins with a key and ends with a NUL.
