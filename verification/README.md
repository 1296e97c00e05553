# Verified model of cc-remote

cc-remote keeps a phone or terminal attached to coding sessions on a host. Several of its parts guard
state across crashes, renames, retries and reconnects. This project models those parts in Dafny and
proves what they promise, over all inputs and all runs.

- **Account topology** (`ProfileRemaps`, `ProfileRegistry`, `TopologyStore`, `TopologyMigration`): accounts
  are private home directories, but stored state is keyed by an id the user may change. When ids are
  renamed, swapped or dropped, a rename map is computed, and every store applies it exactly once although
  the process may die between any two writes. Both engines share these modules; the differences are
  parameters.
- **Stores** (`WorkMigration`, `ViewerPages`, `ViewerRows`, `StoreMigration`): the Work tables are renamed in
  place through staging names, the viewer pages are moved and merged, and both are followed through whole migration runs.
- **Work scheduler** (`WorkScheduler`, `WorkOutcomes`): schedules, runs, leases, retries and tombstones.
- **Restart barrier** (`RestartBarrier`, `RestartOutcomes`): requests and detached workers around one marker
  file and two locks.
- **Caddyfile merge** (`CaddyText`, `CaddyLexer`, `CaddyGrammar`, `CaddyDirectives`, `CaddyLimits`, `CaddyMerge`,
  `CaddyOutput`, `CaddyExample`): two hand-written scanners, and a merge that must be a fixed point.
- **Streams** (`OutputTails`, `OutputDelivery`, `TranscriptControl`, `TranscriptWatch`, `TranscriptReports`,
  `PermissionCycle`): bounded tails and attachments, three readers of a growing transcript, and cycling a
  permission mode.
- **Terminal client** (`TuiReplay`, `TuiHidden`, `TuiRecency`, `TuiOutbox`, `TuiRecovery`): replay cursors, hidden
  replays, which sessions are forgotten, the
  reliable outbox and its recovery.
- **Release snapshots** (`CheckpointArchive`, `SnapshotRestore`, `SnapshotRules`): a tree archive that must round
  trip, and a restore that may be cut off anywhere.

Where the program works step by step the model is imperative: classes with the program's fields, methods with
its loops, each proved equal to a specification function or predicate. The properties are then proved of those,
over whole runs where the program promises something over time. Concurrency and crashes are steps of a state
machine. What the program takes from outside (answers of a terminal program, random identifiers, the choice
among equal rows, JSON decoding, SQLite's reading of a file, `str.isalnum` beyond ASCII) is a parameter, so
the results hold for every such behaviour.

Some results say where the program does not keep a promise, with the exact condition:

- a reused chain head gives a new account the state of a dropped one (`AttributionExact`, `HeadReuseExample`);
- a stored Codex owner may equal a staging name, and is then renamed wrongly (`StagingNameExact`,
  `CodexStagingMisattributes`);
- reporting an ended run again can make two runs active (`WorkScheduler.OverlapExact`, `LateReportOverlaps`);
- a deleted schedule whose worker dies leaves its row behind (`DeadWorkerLeavesTombstone`, `TombstoneIsReached`);
- a process that dies with its command in flight lets a second command start beside it
  (`RestartBarrier.OverlapExact`, `DeathInFlightOverlaps`, `OverlapIsReached`), and lets another worker of its
  epoch, if there were one, start it again (`StartsAgainAfterDeath`, `DeathStartsAgain`, `SecondStartIsReached`);
- a managed Caddy region that hides an open brace renders once and is then refused (`RenderIdempotent`,
  `OpenRegionBreaks`);
- two attachments with one owner can both hold the keyboard (`DetachExact`, `SharedOwnerMakesTwoHolders`,
  `TwoHoldersReached`); the server draws a new owner for each attachment, which rules it out (`OneKeyboard`);
- rekeying a rebuilt session to itself breaks the replay invariant (`RekeyToItselfExact`, `SelfRekeyBreaksIt`);
- a narrative frame without a generation is printed again when 128 sessions without a cursor fill the table
  (`ForgetsOwnExact`, `PrintedTwice`);
- a checkpoint tree with setuid, setgid or sticky bits, or with foreign owners restored without privilege, is
  not rebuilt identically (`IdenticalExactly`).

`dafny verify dfyconfig.toml` checks the whole project.

## Model

| member | source | states |
|---|---|---|
| `ProfileRemaps.Remaps` | cc_remote/codex_profiles.py:414-446 | the loops that grow the rename dict compute `RemapsOf`, the chain completion of the homes that changed their id |
| `ProfileRemaps.RemapsComplete` | cc_remote/codex_profiles.py:414-446 | every chain of renames gets closed, from its last id back to its head, whatever the order in which chains are visited |
| `ProfileRemaps.RemapsPermute` | cc_remote/codex_profiles.py:414-446 | for any two topologies the map is injective, no id maps to itself, no two previous ids end as one, and every home that stays keeps its state under its new id |
| `ProfileRemaps.CompletedInjective` | cc_remote/claude_profiles.py:425-451 | completing the chains of an injective map keeps it injective on all old ids |
| `ProfileRemaps.AttributionExact` | cc_remote/codex_profiles.py:448-471 | a validated map never gives one account the state of another if and only if no chain head id is reused for a home that was not configured before |
| `ProfileRemaps.HeadReuseExample` | cc_remote/codex_profiles.py:448-471 | two topologies that pass validation and still hand the state of a dropped account to a new one |
| `ProfileRegistry.IdsGrow` | cc_remote/codex_profiles.py:21-25 | which account ids and native session ids are legal, character by character |
| `ProfileRegistry.ValidExactly` | cc_remote/codex_profiles.py:140-220 | a registry is valid if and only if it has 1 to 32 accounts with legal, different ids and different homes, and its default is one of them |
| `ProfileRegistry.ResolveOfWire` | cc_remote/codex_profiles.py:257-295 | resolving an issued session id gives back the account and the native id |
| `ProfileRegistry.WireOfResolve` | cc_remote/codex_profiles.py:271-295 | an id that resolves is exactly the one the registry issues for what it resolves to |
| `ProfileRegistry.IssuedExactly` | cc_remote/codex_profiles.py:257-270 | a registry issues the native id for a lone account and `profile@native` for one of several, of at most 128 characters, and says for every other request what is wrong with it |
| `ProfileRegistry.ResolvedExactly` | cc_remote/codex_profiles.py:271-295 | an id resolves if and only if the registry issues it, and is refused for its length or its form exactly as these say |
| `ProfileRegistry.TranslatePreservesMeaning` | cc_remote/codex_profiles.py:86-110 | a translated routing id is what the new registry issues for the same home and native session, or is rejected as too long exactly when that id is |
| `ProfileRegistry.DormantNeverResolves` | cc_remote/codex_profiles.py:86-110 | without head reuse, the translated id of a dropped account resolves to nobody |
| `ProfileRegistry.DormantSiblingNeverResolves` | cc_remote/claude_profiles.py:71-88 | when only one account remains this needs no hypothesis on reuse |
| `ProfileRegistry.LegacyStateFollowsDefault` | cc_remote/codex_profiles.py:73-110 | an id written before accounts existed is translated to the account that was the default then |
| `ProfileRegistry.MeaningSurvivesHistory` | cc_remote/codex_profiles.py:86-110 | over any sequence of topologies that keeps a home, its session ids end as the ids the last registry issues, or were rejected on the way as too long |
| `TopologyStore.TransitionIsConsistent` | cc_remote/codex_profiles.py:473-500 | every transition a store hands out is consistent: valid registries on both sides, the computed rename map, the next revision, and the stored accounts as its start |
| `TopologyStore.TransitionExactly` | cc_remote/codex_profiles.py:473-500 | there is no transition exactly when the file describes the registry, and one is refused exactly when a first Claude registry lacks the legacy directory or an id stands for another home and its account is not moved away from it |
| `TopologyStore.TransitionRecords` | cc_remote/codex_profiles.py:473-500 | a transition records the stored accounts and their default (of a lone account its id), nothing for a first Codex topology, and for a first Claude one the account with the legacy directory |
| `TopologyStore.UnprofiledStateFollowsOwner` | cc_remote/codex_profiles.py:73-113 | under every transition that the files hand out, a stored id without a profile becomes what the registry issues for the account that has the home of the stored default, of the only stored account or of the legacy directory, and for its own default account when no file says so |
| `TopologyStore.FirstCodexStateIsTheDefaults` | cc_remote/codex_profiles.py:73-113 | a first Codex topology is always handed out and gives every such id to the default account |
| `TopologyStore.UnprofiledStateStaysDormant` | cc_remote/codex_profiles.py:73-113 | when that home is gone and no head is reused, no account answers to the translated id |
| `TopologyStore.FirstRestartOwner` | cc_remote/codex_profiles.py:307-371 | asked for the first time the restart owner is that account, or the default account when nothing is pending |
| `TopologyStore.OwnerRefusedExactly` | cc_remote/codex_profiles.py:307-371 | a recorded restart owner is refused exactly when its revision is neither the present one nor, with a transition pending, the one before |
| `TopologyStore.LegacyOwnerFollowsAccount` | cc_remote/codex_profiles.py:307-371 | the recorded restart owner follows its account through a rename, becomes nobody when the account is gone, and asking twice changes nothing |
| `TopologyStore.TopologyFiles.FindTransition` | cc_remote/claude_profiles.py:367-410 | the difference between the stored topology and a registry, with the initial Claude case of a lone legacy directory |
| `TopologyStore.TopologyFiles.Prepare` | cc_remote/codex_profiles.py:373-401 | writes, keeps, clears or refuses the pending marker |
| `TopologyStore.TopologyFiles.Complete` | cc_remote/codex_profiles.py:403-412 | replaces the topology and removes the marker only when the marker is the one of this transition, and changes nothing otherwise |
| `TopologyStore.TopologyFiles.LegacyRestartProfileId` | cc_remote/codex_profiles.py:307-371 | answers as specified and records its answer with the revision |
| `TopologyMigration.ExactlyOnce` | cc_remote/codex_profiles.py:373-412 | in every run with crashes anywhere, once no marker is left each store has been through every completed transition exactly once and in order, and its content is that replay of its first content |
| `TopologyMigration.NeverTwice` | cc_remote/viewer_pages.py:243-259 | while a transition is unfinished each store is untouched by it or has applied it once |
| `TopologyMigration.PendingPinsTheTarget` | cc_remote/codex_profiles.py:373-401 | with a marker on disk a start is refused exactly when it names another registry, a return to the old one included, or asks for the first Claude transition from a legacy directory other than the recorded one; otherwise the same transition is resumed, or a marker whose topology is in place is removed |
| `TopologyMigration.CanAlwaysFinish` | cc_remote/codex_profiles.py:373-412 | from every crashed state there is a restart with the recorded registry that finishes the transition if the stores accept their rewrites |
| `TopologyMigration.RoutingIdsKeepMeaning` | cc_remote/codex_profiles.py:86-110 | a routing id kept in any store is, after all transitions and crashes, the id of the same home and session in the present registry |
| `WorkMigration.TakeName` | cc_remote/workspaces.py:1657-1660 | the loop that lengthens a staging name until it is free ends and finds the first free one |
| `WorkMigration.WorkRegistry.MigrateProfiles` | cc_remote/workspaces.py:1619-1732 | one transaction per revision: its tables are the staged script applied to the old ones, and any error leaves tables and ledger as they were |
| `WorkMigration.WorkRegistry.StageIn` | cc_remote/workspaces.py:1652-1681 | the first loop runs the renames to the staging names, pair by pair, until one violates uniqueness |
| `WorkMigration.WorkRegistry.StageOutAndFill` | cc_remote/workspaces.py:1682-1727 | the second loop and the fill of missing owners run the rest of the script |
| `WorkMigration.ClashExactly` | cc_remote/workspaces.py:389-396 | the unique index is violated if and only if two session rows have the same engine, owner and session |
| `WorkMigration.StagedIsParallel` | cc_remote/workspaces.py:1652-1727 | old to staging to new is one simultaneous substitution on all owner columns, and the database refuses it exactly when an unowned session clashes with one of the legacy account |
| `WorkMigration.ParallelUniqueExact` | cc_remote/workspaces.py:386-398 | the substituted sessions keep the unique index if and only if there is no such clash |
| `WorkMigration.ParallelLeavesNoGaps` | cc_remote/workspaces.py:1652-1727 | afterwards no owner is missing and none is a staging name |
| `WorkMigration.StagingNameExact` | cc_remote/workspaces.py:1652-1681 | any owner column, of a session, a schedule, its last run or a run, ends with the renamed owner if and only if its owner was no staging name |
| `WorkMigration.ClaudeStagingIsFree` | cc_remote/workspaces.py:1422-1435 | Claude staging names are longer than any legal account id, so no stored owner is one |
| `WorkMigration.CodexStagingMisattributes` | cc_remote/workspaces.py:1652-1727 | a Codex account whose id is the first staging name of revision 2 keeps its id in a transition that the topology file hands out at that revision, and the migration hands its schedule to the account renamed beside it |
| `WorkMigration.PreviousOwnersRenameApart` | cc_remote/codex_profiles.py:414-446 | the rename map of a consistent transition keeps owners of the previous topology apart |
| `WorkMigration.ClaudeWorkFollowsTopology` | cc_remote/workspaces.py:1388-1503 | for a consistent Claude transition the staged script is the substitution of its rename map |
| `StoreMigration.WorkSubstitutedOnce` | cc_remote/workspaces.py:1644-1732 | in every run with crashes each completed transition reaches the Work tables once, in order, and on tables that are ready it is the simultaneous substitution of its rename map |
| `StoreMigration.WorkFollowsHomes` | cc_remote/workspaces.py:1388-1732 | for both engines, after every run with crashes the rows are the same, and an owner column of a session, schedule, last run or run that named a home which every topology keeps names this home under its present id, whatever happens to other accounts; for Codex no id of the home may be a staging name of its revision |
| `StoreMigration.UnownedWorkFollowsOwner` | cc_remote/workspaces.py:1682-1727 | under every transition that the files hand out, sessions, schedules and last runs without an owner go to that same account, a run without one to the owner of its schedule, and rows of the other engine stay |
| `StoreMigration.TablesSubstituted` | cc_remote/workspaces.py:1388-1732 | for both engines the whole tables are then the old ones with every completed transition substituted once, if no transition gives a new account an id that sessions may still name for a dropped one, and for Codex no id that rows may name is a staging name |
| `StoreMigration.PagesMovedOnce` | cc_remote/viewer_pages.py:230-259 | in every run each completed transition moves the pages of its engine to the translated sessions once and leaves the other engine alone |
| `StoreMigration.PagesFollowSessions` | cc_remote/viewer_pages.py:230-259 | a page listed for a session of a home that every topology keeps is after every run listed under the id the present registry issues for that home and session |
| `ViewerPages.PageStore.MergeAll` | cc_remote/viewer_pages.py:212-228 | the merge loop, one row for each page |
| `ViewerPages.PageStore.MigrateProfileSessions` | cc_remote/viewer_pages.py:230-259 | moves the sessions of one engine once per revision; any error leaves the store as it was |
| `ViewerPages.PageStore.Rekey` | cc_remote/viewer_pages.py:261-268 | joins two sessions, or changes nothing on error |
| `ViewerPages.MergeKeeps` | cc_remote/viewer_pages.py:212-228 | merging loses no page and no removal and leaves one row for each page |
| `ViewerPages.MergeDistinct` | cc_remote/viewer_pages.py:212-228 | rows of different pages are kept as they are and in order |
| `ViewerPages.MigrationMovesPages` | cc_remote/viewer_pages.py:230-259 | a page is listed or removed under a new session id exactly when some session that moves there had it listed or removed |
| `ViewerPages.OtherEngineUntouched` | cc_remote/viewer_pages.py:230-259 | sessions of the other engine keep their rows |
| `ViewerPages.SoleSourceKeepsRows` | cc_remote/viewer_pages.py:230-259 | a session that is alone under its new id keeps its rows in order |
| `ViewerPages.RekeyJoins` | cc_remote/viewer_pages.py:261-268 | the new id lists the pages of both, the old one none, and all other sessions are as before |
| `ViewerRows.MergedRow` | cc_remote/viewer_pages.py:212-228 | the merged row of a page has the fields of its last row and, while there are no more than 16, the distinct references and turns of all its rows in order of first appearance |
| `ViewerRows.MergedOrder` | cc_remote/viewer_pages.py:212-228 | merged rows stand in the order in which their pages were first named |
| `ViewerRows.MergeRefusedExactly` | cc_remote/viewer_pages.py:212-228 | a merge is refused exactly beyond 32 pages or when its encoding does not fit |
| `ViewerRows.MoveRefusedExactly` | cc_remote/viewer_pages.py:230-259 | a scope is not moved exactly when its id has no translation, the new id cannot be stored, or the joined rows are refused |
| `WorkScheduler.Registry.CreateSchedule` | cc_remote/workspaces.py:747-778 | adds one enabled schedule row |
| `WorkScheduler.Registry.DeleteSchedule` | cc_remote/workspaces.py:779-816 | removes the schedule, or leaves a tombstone while a run is running |
| `WorkScheduler.Registry.ClaimDueSchedules` | cc_remote/workspaces.py:818-910 | recovers leases, enqueues the due schedules and hands out ready runs, each selection the earliest up to the limit |
| `WorkScheduler.Registry.EnqueueRow` | cc_remote/workspaces.py:853-887 | advances one due schedule and inserts its run unless it has an active one |
| `WorkScheduler.Registry.HandOutEach` | cc_remote/workspaces.py:897-909 | leases the picked runs and counts their attempts |
| `WorkScheduler.SelectFirst` | cc_remote/workspaces.py:848-852 | the earliest rows, in order, up to a limit |
| `WorkScheduler.Registry.MarkRunning` | cc_remote/workspaces.py:912-923 | only a claimed run becomes running |
| `WorkScheduler.Registry.RenewRun` | cc_remote/workspaces.py:925-935 | only a claimed or running run gets a new lease |
| `WorkScheduler.Registry.CompleteSchedule` | cc_remote/workspaces.py:937-1013 | ends or requeues a run, records the outcome, and removes a tombstone with its runs |
| `WorkScheduler.AdvanceSkipsTheBacklog` | cc_remote/workspaces.py:873-886 | however many periods were missed, the next time is in phase and lies in (now, now + period] |
| `WorkScheduler.HistoriesAreSound` | cc_remote/workspaces.py:818-1013 | over every history, late completions included: queued runs have fewer than three attempts, leased ones one to three, leases are set exactly for leased runs, a success has no error and a failure has one, runs of a repeating schedule lie before its next time, and no occurrence has two runs |
| `WorkScheduler.InsertIsNeverIgnored` | cc_remote/workspaces.py:863-872 | the `INSERT OR IGNORE` of a due schedule always inserts |
| `WorkScheduler.NeverTwoActive` | cc_remote/workspaces.py:818-1013 | if completions are reported for runs that have not ended, no schedule ever has two runs in queued, claimed or running |
| `WorkScheduler.OverlapExact` | cc_remote/workspaces.py:966-996 | a completion breaks that rule if and only if it requeues an ended run while another one is active |
| `WorkScheduler.LateReportOverlaps` | cc_remote/workspaces.py:937-1013 | a history from the empty database in which a late report about a run that has succeeded makes two runs active |
| `WorkScheduler.OneShotRunsOnce` | cc_remote/workspaces.py:853-887 | a spent one-shot has exactly one run, at its own time |
| `WorkScheduler.BacklogBecomesOneRun` | cc_remote/workspaces.py:853-887 | a due schedule gains exactly one run, for its due time, and a repeating one moves past now in phase |
| `WorkScheduler.EveryAttemptHandedOnce` | cc_remote/workspaces.py:888-909 | over every history each pair of run and attempt is handed out at most once |
| `WorkScheduler.AtMostThreeHandOuts` | cc_remote/workspaces.py:831-847 | a run is handed out at most three times |
| `WorkScheduler.DeletedIsNeverClaimed` | cc_remote/workspaces.py:779-816 | after a delete the schedule gains no run and none of its runs is claimed again |
| `WorkScheduler.DeleteKills` | cc_remote/workspaces.py:779-816 | a delete cancels what has not started, keeps what runs, and leaves a row only while something runs |
| `WorkScheduler.RemovedExactly` | cc_remote/workspaces.py:1008-1012 | a schedule row disappears exactly on a delete that finds nothing running or on the completion of a run after a delete |
| `WorkScheduler.DeadWorkerLeavesTombstone` | cc_remote/workspaces.py:831-847 | when the worker of a deleted schedule dies, recovery leaves the tombstone and a queued run that is never handed out |
| `WorkScheduler.TombstoneIsReached` | cc_remote/workspaces.py:779-910 | a history from the empty database in which a schedule is deleted while its run runs, the worker dies, and recovery leaves the deleted row with a queued run |
| `WorkOutcomes.CompletionRecords` | cc_remote/workspaces.py:937-1013 | a report on a run of a schedule that is not deleted: succeeded if and only if it has no error, queued again if and only if it has one, may be retried and was not the third attempt, failed otherwise; the retry is due 15 or 30 seconds later, and the report is kept on run and schedule |
| `WorkOutcomes.RequeuedRunWaits` | cc_remote/workspaces.py:888-985 | over every history without another report on it, such a run is not handed out before that time |
| `WorkOutcomes.ReadyIsHandedOut` | cc_remote/workspaces.py:831-909 | a claim that is not full hands out every run that waits for nothing or has lost its lease before the third attempt, as the next attempt and under a new lease |
| `WorkOutcomes.DueIsEnqueued` | cc_remote/workspaces.py:848-887 | and makes a run for every idle schedule that is due |
| `WorkOutcomes.PicksAreEarliest` | cc_remote/workspaces.py:848-909 | the i-th row picked is the i-th earliest, and as many are picked as there are, up to the limit |
| `WorkOutcomes.FirstOccurrence` | cc_remote/workspaces.py:747-887 | a new schedule gets its first run at its own time and for its own account |
| `WorkOutcomes.LeaseHolds` | cc_remote/workspaces.py:831-935 | recovery takes a run from its worker if and only if the lease that was set last has run out |
| `WorkOutcomes.RecoveryRecords` | cc_remote/workspaces.py:831-847 | a run whose lease has run out is queued again for now, or has failed after its third attempt with the error it had or one that says so; every other run stays as it is |
| `WorkOutcomes.RefusedExactly` | cc_remote/workspaces.py:948-974 | in a sound database a report is refused if and only if the run is unknown or belongs to another account |
| `WorkOutcomes.OwnerIsFixed` | cc_remote/workspaces.py:962-985 | over every history a run keeps the account it once has |
| `RestartBarrier.TraceKeepsInv` | cc_remote/codex_daemon_restart.py:219-460 | every interleaving of requests, workers, drains, commands and deaths at any point keeps the lock, log and marker invariants |
| `RestartBarrier.ReadyMeansRestarted` | cc_remote/codex_daemon_restart.py:286-326 | a marker that reads ready comes from a restart started after its request that returned 0 |
| `RestartOutcomes.PublishedIsHonest` | cc_remote/codex_daemon_restart.py:286-395 | in every interleaving a published outcome is ready if and only if the command of the process that publishes it returned 0 before |
| `RestartOutcomes.ReturnIsReported` | cc_remote/codex_daemon_restart.py:219-326 | a command that returns while nobody is at the marker leaves it ready if it returned 0 and failed for 15 seconds otherwise, if it still is for this request, and as it was if not |
| `RestartOutcomes.RaiseIsReported` | cc_remote/codex_daemon_restart.py:316-320 | so does an exception, as a failure |
| `RestartOutcomes.OverdueIsReported` | cc_remote/codex_daemon_restart.py:354-372 | a worker that finds its request overdue reports a failure and starts nothing |
| `RestartOutcomes.UnwantedEnds` | cc_remote/codex_daemon_restart.py:354-372 | a worker that is no longer wanted ends without a word |
| `RestartOutcomes.WorkerCarriesThrough` | cc_remote/codex_daemon_restart.py:339-395 | any other worker that gets the lock carries its request through to the outcome of the command |
| `RestartOutcomes.SyncCarriesThrough` | cc_remote/codex_daemon_restart.py:286-326 | and so does a synchronous request from its announcement on |
| `RestartBarrier.OlderOutcomesNeverWin` | cc_remote/codex_daemon_restart.py:219-240 | the marker always belongs to the newest request, and so did every outcome when it was published |
| `RestartBarrier.OneCommandInFlight` | cc_remote/codex_daemon_restart.py:286-395 | of two restart commands in flight one has lost its process |
| `RestartBarrier.ScheduledEpochStartsOnce` | cc_remote/codex_daemon_restart.py:339-395 | with the one worker that each request detaches, a scheduled epoch is started at most once, whoever dies |
| `RestartBarrier.StartsAgainAfterDeath` | cc_remote/codex_daemon_restart.py:339-395 | however many workers are launched, a scheduled epoch is started again only after the worker that started it died with its command in flight or its outcome unpublished |
| `RestartBarrier.DeathStartsAgain` | cc_remote/codex_daemon_restart.py:339-395 | after such a death a second worker for the epoch does start it again while the marker waits for it |
| `RestartBarrier.SecondStartIsReached` | cc_remote/codex_daemon_restart.py:329-475 | a run from the start, with a second worker launched for a scheduled epoch, in which two workers start that epoch |
| `RestartBarrier.OverlapExact` | cc_remote/codex_daemon_restart.py:261-326 | two commands are ever in flight together if and only if one was started while an orphaned command was still running |
| `RestartOutcomes.FlyingExactly` | cc_remote/codex_daemon_restart.py:261-326 | a command is in flight if and only if its process has started it and it has neither returned nor raised nor run out since, whoever died |
| `RestartBarrier.OneCommandUntilDeath` | cc_remote/codex_daemon_restart.py:286-395 | as long as no process dies with its command in flight, at most one command is |
| `RestartBarrier.WorkerStartsAfterCheck` | cc_remote/codex_daemon_restart.py:339-395 | a worker starts its command only after a second check that saw its epoch as the newest |
| `RestartBarrier.SupersededNeverStarts` | cc_remote/codex_daemon_restart.py:339-395 | an epoch superseded before that check is never started by a worker |
| `RestartBarrier.DeathInFlightOverlaps` | cc_remote/codex_daemon_restart.py:286-326 | after the death of a process with a command in flight a waiting synchronous request starts a second one |
| `RestartBarrier.OverlapIsReached` | cc_remote/codex_daemon_restart.py:286-326 | a run from the start, of two synchronous requests and one death, in which two commands come to be in flight together |
| `RestartBarrier.MarkerFile.Request` | cc_remote/codex_daemon_restart.py:51-75 | a new request writes a marker that is not stale |
| `RestartBarrier.MarkerFile.PublishIfCurrent` | cc_remote/codex_daemon_restart.py:219-240 | publishes exactly when the marker still has this epoch, and keeps a failure readable for the retention time |
| `CaddyLexer.SkipToBlock` | deploy/caddy_managed_block.py:36-50 | the loop that skips blanks and comments stops where the specification says |
| `CaddyLexer.GlobalBlockSpan` | deploy/caddy_managed_block.py:34-90 | the scanning loop finds the span that the lexer automaton gives |
| `CaddyLexer.HasTopLevelServers` | deploy/caddy_managed_block.py:106-163 | the second scanner agrees with the token automaton over the same lexer |
| `CaddyGrammar.BlockExactly` | deploy/caddy_managed_block.py:34-90 | the block scanner answers a block if and only if the text begins with white space and comments, an opening brace, pieces whose braces match outside comments, strings with escapes and raw strings, and the closing brace at the place it names |
| `CaddyGrammar.NoBlockExactly` | deploy/caddy_managed_block.py:43-54 | it answers that there is none if and only if something else, an unfinished comment or nothing follows the white space and comments |
| `CaddyDirectives.ServersExactly` | deploy/caddy_managed_block.py:106-163 | the search answers yes if and only if the pieces of the block hold the word `servers` at the top level, as the first word of its line, ended by white space, a brace, other punctuation or the end of the block; a word cut off by a comment or a string counts for nothing |
| `CaddyLimits.LimitsNeutral` | deploy/caddy_managed_block.py:166-224 | the limits text is invisible to the lexer at the start of any line outside an escape |
| `CaddyLimits.LimitsAreFound` | deploy/caddy_managed_block.py:106-163 | at the top level the directive in the limits is found |
| `CaddyMerge.SpliceSpan` | deploy/caddy_managed_block.py:34-90 | inserting such a text moves the end of the block by exactly its length, for any comments, quotes and escapes before it |
| `CaddyMerge.RenderLimitsAgain` | deploy/caddy_managed_block.py:166-224 | rendering the limits over themselves returns the same text or fails for a reason outside them |
| `CaddyMerge.ManagedServersExact` | deploy/caddy_managed_block.py:106-163 | the block has a top-level `servers` exactly when the managed limits stand at its top level |
| `CaddyMerge.FixedPointServers` | deploy/caddy_managed_block.py:166-224 | in a file that renders to itself the managed directive is the only one |
| `CaddyMerge.RenderIdempotent` | deploy/caddy_managed_block.py:227-292 | rendering the output again returns it unchanged if and only if the global block closes without its managed region and holds no other `servers`, which is always so when there was no region |
| `CaddyMerge.LimitsKeepTheRemainder` | deploy/caddy_managed_block.py:166-224 | outside the managed limits the text is the old one, apart from the separators |
| `CaddyMerge.SiteKeepsTheRemainder` | deploy/caddy_managed_block.py:227-292 | outside the managed site the text is the old one, apart from the separators |
| `CaddyOutput.StandsExactly` | deploy/caddy_managed_block.py:93-103 | a marker is found at a place if and only if the line there is one and no other line is |
| `CaddyOutput.LimitsUnpaired` | deploy/caddy_managed_block.py:175-181 | the limits are refused for their markers if and only if these are neither one pair nor none |
| `CaddyOutput.LimitsReplaced` | deploy/caddy_managed_block.py:182-209 | one pair of markers: refused when out of order, outside a closed leading block, or beside other servers of the block; else the text between its lines is replaced and nothing else |
| `CaddyOutput.LimitsAdded` | deploy/caddy_managed_block.py:211-224 | no marker: refused in an unterminated block or beside other servers; else the limits end the block, on a line of their own, or stand in a new block before the file |
| `CaddyOutput.SiteIsCore` | deploy/caddy_managed_block.py:238-240 | the site is the given text without the line breaks around it, and nothing exactly when it is nothing but line breaks |
| `CaddyOutput.SiteReplaced` | deploy/caddy_managed_block.py:260-273 | one pair of site markers: refused when out of order or when the domain stands outside; else the text around the pair is kept |
| `CaddyOutput.SitePlaced` | deploy/caddy_managed_block.py:275-292 | no site marker: a file that is the site and line breaks takes the markers, a mention of the domain is refused, and anything else is kept and separated from the site by an empty line |
| `CaddyOutput.RenderExactly` | deploy/caddy_managed_block.py:227-292 | the merge is the first refusal, or the limits rendered into the kept text around the marked site |
| `CaddyExample.OpenRegionBreaks` | deploy/caddy_managed_block.py:227-292 | for every accepted site and domain, a file whose old region hides an open brace renders once and is refused the second time |
| `OutputTails.History.Append` | cc_remote/claude_broker/session.py:595-610 | after any output the deque concatenates to the last min(limit, total) bytes of the stream |
| `OutputTails.History.Trim` | cc_remote/claude_broker/session.py:595-610 | the loop drops whole chunks and cuts the last one |
| `OutputTails.ControlTail.Append` | cc_remote/claude_broker/session.py:661-669 | the retained text is the end of the control stream and the cursor its length before |
| `OutputTails.ControlTail.Since` | cc_remote/claude_broker/session.py:671-673 | the stream from the later of the cursor and the retained start |
| `OutputTails.Attachments.Attach` | cc_remote/claude_broker/session.py:569-581 | a client gets the snapshot, and the keyboard if it is free |
| `OutputTails.Attachments.Leave` | cc_remote/claude_broker/session.py:583-593 | detaching frees the keyboard of its owner |
| `OutputTails.Attachments.Send` | cc_remote/claude_broker/session.py:612-618 | the loop over a copy of the attachments is the broadcast of the specification |
| `OutputTails.OutputHasNoGaps` | cc_remote/claude_broker/session.py:569-618 | the snapshot followed by the queued output of a client is a contiguous piece of the stream up to now, or up to where it was cut off |
| `OutputTails.OnlyOverflowDrops` | cc_remote/claude_broker/session.py:612-618 | a client that did not ask to leave and is no longer attached has its overflow flag set |
| `OutputTails.OneKeyboard` | cc_remote/claude_broker/session.py:569-593 | with a fresh owner for each attachment at most one holds the keyboard |
| `OutputTails.EveryRunIsFair` | cc_remote/claude_broker/session.py:569-618 | for a new session, through any reads, ends, attaches and detaches, all three hold |
| `OutputTails.DetachExact` | cc_remote/claude_broker/session.py:583-593 | a detach keeps the keyboard with its holder if and only if the one that leaves is the holder or has another owner |
| `OutputTails.SharedOwnerMakesTwoHolders` | cc_remote/claude_broker/session.py:583-593 | with an owner used twice a detach and an attach make two holders |
| `OutputTails.TwoHoldersReached` | cc_remote/claude_broker/session.py:569-593 | in a new session three attaches, two of them with one owner, and one detach make two holders |
| `OutputDelivery.EventIsDelivered` | cc_remote/claude_broker/session.py:612-618 | in whatever order the attachments are served, exactly those with fewer than 256 waiting frames get the event, as the last one, and the others are dropped and flagged |
| `OutputDelivery.KeyboardKept` | cc_remote/claude_broker/session.py:583-618 | the keyboard stays with its owner if and only if nobody with this owner is dropped |
| `OutputDelivery.QueuesAreBounded` | cc_remote/claude_broker/session.py:612-618 | in every trace at most 256 frames wait, and nobody attached has the overflow flag |
| `OutputDelivery.EndIsTold` | cc_remote/claude_broker/session.py:569-618 | when the program ends everyone with room is told so, and afterwards nobody is attached and no output comes |
| `TranscriptControl.ControlRecordsOutcome` | cc_remote/claude_broker/session.py:971-1014 | the fold over a batch of records continues the judgement of the earlier batches |
| `TranscriptControl.AwaitTranscriptControl` | cc_remote/claude_broker/session.py:1016-1080 | the read loop with its partial line and its match flag |
| `TranscriptControl.CollectRecords` | cc_remote/claude_broker/session.py:1045-1056 | empty, oversized and undecodable lines give no record |
| `TranscriptControl.ReadsDecideWhole` | cc_remote/claude_broker/session.py:1034-1080 | the loop decides what the whole bytes say, wherever the reads cut them |
| `TranscriptControl.ChoppingDoesNotMatter` | cc_remote/claude_broker/session.py:1034-1080 | two ways to read the same bytes give the same answer |
| `TranscriptControl.SuccessIsAdjacent` | cc_remote/claude_broker/session.py:971-1014 | a model or effort change succeeds exactly when the first record of the command is followed at once by its success output |
| `TranscriptControl.FirstModeDecides` | cc_remote/claude_broker/session.py:971-1014 | a permission change is decided by the first record that names a mode |
| `TranscriptReports.LineCounts` | cc_remote/claude_broker/session.py:1045-1056 | one more line counts for exactly the record it decodes to if it is neither empty nor longer than 256 KiB, and for nothing otherwise |
| `TranscriptReports.AwaitExactly` | cc_remote/claude_broker/session.py:971-1080 | the wait confirms or rejects a model or effort change by the record behind the first one of the command, a permission change by the first record that names a mode, and confirms nothing without such a record |
| `TranscriptReports.TooMuchEndsTheWait` | cc_remote/claude_broker/session.py:1016-1080 | a read beyond 512 KiB ends the wait, and what was decided before it stands |
| `TranscriptWatch.Session.AdoptTranscriptRecords` | cc_remote/claude_broker/session.py:1187-1231 | the loop over the records, with the command whose output comes next carried along |
| `TranscriptWatch.Session.WatchTranscriptControls` | cc_remote/claude_broker/session.py:1233-1269 | the watching loop, which starts anew when the file is replaced or grows beyond the bound |
| `TranscriptWatch.Session.RunPermissionStep` | cc_remote/claude_broker/session.py:1170-1185 | a step records the mode that the wait answers, and nothing otherwise |
| `TranscriptWatch.AwaitPermissionStep` | cc_remote/claude_broker/session.py:1117-1168 | the waiting loop over output and transcript |
| `TranscriptWatch.WatchReadsWhole` | cc_remote/claude_broker/session.py:1233-1269 | the watcher records and announces what the bytes between two breaks say, wherever the reads cut them |
| `TranscriptWatch.WatchIgnoresCuts` | cc_remote/claude_broker/session.py:1233-1269 | two ways to read the same stretches between breaks record and announce the same |
| `TranscriptWatch.ChoppingIsInvisible` | cc_remote/claude_broker/session.py:1187-1269 | for every chopping of the same bytes within the bound it records the same controls and announces the same changes |
| `TranscriptWatch.WatchTakesLastMode` | cc_remote/claude_broker/session.py:1187-1231 | the permission mode it ends with is the last one of the cycle that the records name |
| `TranscriptReports.LastReportIsRecorded` | cc_remote/claude_broker/session.py:1187-1231 | after any rows every control is what the last row that reports on it says: a permission record of a mode of the cycle, a context report, or the output directly behind a command that confirms it; and the command whose output is awaited is the last one behind which only context reports came |
| `TranscriptReports.ListenersKnow` | cc_remote/claude_broker/session.py:643-660 | each control is what was announced for it last, or unchanged when nothing was |
| `TranscriptWatch.StepReadsWhole` | cc_remote/claude_broker/session.py:1117-1168 | a step answers with the first mode in the bytes read before its output confirms, and otherwise with its output |
| `TranscriptWatch.StepIgnoresCuts` | cc_remote/claude_broker/session.py:1117-1168 | two ways to read the same bytes before the same output give the same answer |
| `TranscriptReports.StepExactly` | cc_remote/claude_broker/session.py:1117-1168 | a step reads until its output names another mode of the cycle than the one before; the first mode that a permission record in these bytes names is the answer, else what the output names, else none |
| `TranscriptWatch.StepAndWatchAgree` | cc_remote/claude_broker/session.py:1170-1269 | the watcher leaves the mode of the step in place if and only if it is also the last mode the same bytes name |
| `TranscriptWatch.ReadStepsConverge` | cc_remote/claude_broker/session.py:1301-1328 | whatever output and transcript say, a change of the permission mode ends within the length of the cycle |
| `PermissionCycle.Controls.SetPermissionMode` | cc_remote/claude_broker/session.py:1301-1328 | the loop over the replies of the program |
| `PermissionCycle.AlwaysConverges` | cc_remote/claude_broker/session.py:1301-1328 | whatever the program answers inside the cycle, the loop ends within its length and its last error never happens |
| `PermissionCycle.SetModeExactly` | cc_remote/claude_broker/session.py:1301-1328 | an unknown mode is refused, with bypassing known only when it is allowed and manual meaning default; the present one is there at once; otherwise the first answer that is missing, wanted or repeated decides |
| `PermissionCycle.RingExact` | cc_remote/claude_broker/session.py:1301-1328 | a program that goes round a ring of modes is brought to the wanted mode if and only if the ring has it |
| `TuiReplay.Replay.TouchReplay` | cc_remote/tui.py:449-461 | a session becomes the most recent one and the oldest beyond 128 are forgotten |
| `TuiReplay.Replay.Forget` | cc_remote/tui.py:449-461 | the loop over the forgotten sessions clears their replay state |
| `TuiReplay.Replay.HandleFrame` | cc_remote/tui.py:739-823 | the replay part of the frame handler |
| `TuiReplay.Replay.PassCursor` | cc_remote/tui.py:800-811 | the cursor test and its resets |
| `TuiReplay.Replay.NoteFrameGeneration` | cc_remote/tui.py:740-758 | a new generation resets cursor and rebuild state |
| `TuiReplay.Replay.RekeySession` | cc_remote/tui.py:848-882 | moves the replay state of a session to its new id |
| `TuiReplay.ReplayInvariant` | cc_remote/tui.py:731-882 | in every reachable state a rebuilt session is suppressed and has a cursor, and at most 128 sessions are tracked |
| `TuiReplay.RekeyToItselfExact` | cc_remote/tui.py:848-882 | a rekey of a session to itself keeps this exactly when the session is not being rebuilt |
| `TuiReplay.PrintedIncreases` | cc_remote/tui.py:731-821 | the printed narrative of a session falls into segments, one for each reset of its cursor and one for each frame that forgets its own session, and in each segment the sequence numbers strictly increase |
| `TuiReplay.SegmentsAreAllPrinted` | cc_remote/tui.py:731-821 | the segments together are every narrative frame of the session that was printed, in order |
| `TuiReplay.ForgetsOwnExact` | cc_remote/tui.py:449-461 | a narrative frame that is not stale forgets its own session if and only if it names no generation and 128 other sessions, none with a cursor, fill the table; it is then printed |
| `TuiReplay.PrintedTwice` | cc_remote/tui.py:731-821 | a new client that has heard of 128 other sessions prints one frame twice |
| `TuiReplay.EveryRunIsSafe` | cc_remote/tui.py:731-882 | after any frames a new client has received the invariant holds, each segment of what it printed for a session increases, and the segments together are everything it printed |
| `TuiReplay.SelfRekeyBreaksIt` | cc_remote/tui.py:848-882 | one rebuilding replay and a rekey of that session to itself reach a state without the invariant |
| `TuiReplay.EvictionBounds` | cc_remote/tui.py:449-461 | after forgetting, at most 128 sessions are tracked |
| `TuiRecency.OldestAreForgotten` | cc_remote/tui.py:449-461 | of two sessions with a cursor the one touched longer ago is forgotten first, and none with a cursor stays while one without is forgotten |
| `TuiRecency.ForgottenCount` | cc_remote/tui.py:449-461 | exactly as many sessions are forgotten as there are beyond 128 |
| `TuiRecency.RecencyAfterTouch` | cc_remote/tui.py:449-461 | the touched session becomes the most recent one and the order of the others stays |
| `TuiHidden.ShownExactly` | cc_remote/tui.py:755-814 | over any frames from a new client, a narrative frame of a session that is not renamed is shown if and only if it is not too old and its session is not hidden, or it forgets its own session |
| `TuiHidden.SetsSinceStart` | cc_remote/tui.py:755-821 | a session is hidden, or rebuilt, if and only if its last replay was a refreshing, or rebuilding, one and neither a replay end that was not too old nor its eviction came since; a refresh is due until a replay end says how far it goes |
| `TuiHidden.RefreshesExactly` | cc_remote/tui.py:755-766 | a replay is a refreshing one if and only if it rebuilds, is truncated, names another generation than the last one named, or an earlier refresh is due |
| `TuiHidden.TooOldExactly` | cc_remote/tui.py:800-808 | a frame is too old if and only if no rebuild is under way and its number is not positive or not above one acknowledged since the cursor started anew |
| `TuiHidden.RenumbersExactly` | cc_remote/tui.py:743-754 | the cursor starts anew with a generation other than the last one named for the session |
| `TuiHidden.EndShowsAgain` | cc_remote/tui.py:815-821 | after a replay end that is not too old the next narrative frame above the cursor is shown |
| `TuiHidden.OthersAreShown` | cc_remote/tui.py:800-814 | a frame that is not narrative is shown if and only if it is not too old |
| `TuiHidden.RekeySets` | cc_remote/tui.py:848-882 | a rename moves what is known of the old id to the new one, which keeps the larger cursor |
| `TuiHidden.RenameExactly` | cc_remote/tui.py:848-882 | a rename leaves nothing under the old id; the new one is hidden, rebuilt or to be refreshed if either was, and has cursor and generation of the old one exactly when that cursor is not the smaller |
| `TuiHidden.RenameIsHandled` | cc_remote/tui.py:848-882 | every rename frame that is not too old is carried out |
| `TuiOutbox.Outbox.Accept` | cc_remote/tui.py:544-569 | a command is appended within both caps, resent if it is known, refused otherwise |
| `TuiOutbox.Outbox.Acknowledge` | cc_remote/tui.py:733-738 | exactly the acknowledged command leaves, and its bytes with it |
| `TuiOutbox.Outbox.Rekey` | cc_remote/tui.py:521-542 | the rekey loop with its running byte count |
| `TuiOutbox.RekeySound` | cc_remote/tui.py:521-542 | rekeying keeps ids, order, both caps and the byte count, and each command is renamed or left as it is |
| `TuiOutbox.RekeyExactly` | cc_remote/tui.py:521-542 | a command stays as it was if and only if it does not name the old id, or its copy breaks the frame cap, or breaks the byte cap beside what the earlier commands left; every other command becomes its copy, with the new id in exactly the fields that had the old one |
| `TuiOutbox.RekeyRenamesAll` | cc_remote/tui.py:521-542 | with room for the larger of both sizes no command names the old id afterwards |
| `TuiOutbox.Connection.Recover` | cc_remote/tui.py:472-519 | what gets through is a prefix of the plan, up to the first send that fails |
| `TuiOutbox.RecoveryIsPermutation` | cc_remote/tui.py:472-519 | when nothing fails every pending command is sent exactly once |
| `TuiOutbox.RecoveryKeepsOrder` | cc_remote/tui.py:472-519 | the commands of one session keep their order |
| `TuiOutbox.RecoveryPlacesCommands` | cc_remote/tui.py:472-519 | they directly follow the switch to that session, and those of no durable session come last |
| `TuiOutbox.AttachedComesLast` | cc_remote/tui.py:472-519 | the attached session is switched to after every other one |
| `TuiRecovery.SwitchesExactly` | cc_remote/tui.py:472-519 | after hello, the client switches exactly to the sessions that are attached or named by a command, as its session or as the target of a switch without one, and that are no side conversations |
| `TuiRecovery.CommandsArePlaced` | cc_remote/tui.py:472-519 | a command for such a session directly follows the switch to it, and one for none comes behind all those |
| `TuiRecovery.SwitchesFollowQueue` | cc_remote/tui.py:472-519 | the sessions other than the attached one come in the order in which their first commands were queued |
| `CheckpointArchive.Archiver.Add` | deploy/work_registry_snapshot.py:338-373 | the recursive writer with its two counters visits the entries in listing order and stops at the first refusal |
| `CheckpointArchive.BackupCheckpoints` | deploy/work_registry_snapshot.py:323-386 | a backup succeeds if and only if the tree is a directory within the three limits without special files; otherwise it names the first entry that breaks a limit or is special |
| `SnapshotRules.ArchivedExactly` | deploy/work_registry_snapshot.py:323-386 | by its shape alone: a tree is archived if and only if it is a directory of at most 65536 files and directories, 8 GiB of file content and 64 levels |
| `CheckpointArchive.ListingIsLookup` | deploy/work_registry_snapshot.py:338-373 | the archive lists exactly the entries that a lookup by path finds |
| `CheckpointArchive.CheckMembers` | deploy/work_registry_snapshot.py:389-416 | the validation loop accepts exactly the archives with safe, distinct members, each below a directory that came before it, within the limits |
| `SnapshotRules.PlainExactly` | deploy/work_registry_snapshot.py:394-400 | a member name is let through if and only if a file system reads the same parts in the written path and goes through all of them downwards |
| `SnapshotRules.SafeExactly` | deploy/work_registry_snapshot.py:389-416 | a member is safe if and only if a backup could have written it, but for a size it only claims |
| `CheckpointArchive.WrittenIsAccepted` | deploy/work_registry_snapshot.py:389-416 | every archive the backup writes passes the validation |
| `CheckpointArchive.Staging.Extract` | deploy/work_registry_snapshot.py:432-458 | extraction succeeds exactly on acceptable archives and rebuilds their members, leaving nothing behind otherwise |
| `CheckpointArchive.Staging.SealAll` | deploy/work_registry_snapshot.py:456-458 | sealing directories in reverse order only ever touches directories whose ancestors are still open |
| `SnapshotRules.EnterableExactly` | deploy/work_registry_snapshot.py:432-458 | a directory may be entered if and only if it and all directories above it are still open |
| `CheckpointArchive.ArchiveRoundTrip` | deploy/work_registry_snapshot.py:323-472 | every tree within the limits is accepted again and rebuilt with the same paths and, at each path, the restored entry |
| `CheckpointArchive.IdenticalExactly` | deploy/work_registry_snapshot.py:475-478 | the rebuilt tree equals the original if and only if no mode goes beyond 0777 and the restore may give every entry its owner |
| `CheckpointArchive.RebuiltIsKept` | deploy/work_registry_snapshot.py:432-478 | the rebuilt entries are those of one tree, the original with its attributes cut |
| `SnapshotRestore.CreateSnapshot` | deploy/work_registry_snapshot.py:481-591 | a snapshot is taken exactly of a capturable state and records it, files that do not exist included |
| `SnapshotRules.RefusedExactly` | deploy/work_registry_snapshot.py:481-591 | a snapshot is refused if and only if a database is irregular or unreadable, one of the fifteen state files is irregular, too long or accessible to others, or the checkpoints cannot be archived; nothing that does not exist refuses it |
| `SnapshotRestore.Restorer.RestoreDatabase` | deploy/work_registry_snapshot.py:780-824 | log files first, then the database |
| `SnapshotRestore.Restorer.RestoreCheckpoints` | deploy/work_registry_snapshot.py:432-472 | a live tree is set aside before the captured one is moved in |
| `SnapshotRestore.Restorer.RestoreSnapshot` | deploy/work_registry_snapshot.py:827-857 | the whole restore is its list of steps up to the first refusal |
| `SnapshotRestore.RunAt` | deploy/work_registry_snapshot.py:827-857 | after k steps the disk is known exactly, or the restore stopped at the first step that its starting disk blocks |
| `SnapshotRestore.RestoreExact` | deploy/work_registry_snapshot.py:827-857 | a restore finishes if and only if nothing irregular stands at a tracked path, and then leaves the captured image and nothing else changed |
| `SnapshotRestore.RerunCompletes` | deploy/work_registry_snapshot.py:827-857 | however often it was cut off and whatever tracked files changed in between, the next full restore leaves exactly the captured image and loses no checkpoint tree |
| `SnapshotRestore.JournalsLast` | deploy/work_registry_snapshot.py:42-64 | a profile journal changes only when everything else is restored |
| `SnapshotRestore.NoForeignLog` | deploy/work_registry_snapshot.py:810-818 | a replaced database is never seen beside an old log or index |
| `SnapshotRestore.RefusedLeavesTheRest` | deploy/work_registry_snapshot.py:827-857 | a refused restore has changed nothing from the refused step on |
| `SnapshotRestore.RollBack` | deploy/work_registry_snapshot.py:827-857 | capturing and restoring brings back what SQLite reads, every state file, their absence, and the archived checkpoints |

## Left out

- SQLite, JSON, `fsync`, `rename`, `realpath` and file modes are atomic updates of maps and sequences, opaque identities and parameters; times are integers.
- Parsing and size limits of the configuration, the topology, marker and owner files: the model starts from decoded values and proves that what it writes is valid again.
- The other stores that take part in a topology change (pins, aliases, forks, plans, leases, controls) have the same revision guard; they appear in `TopologyMigration` as stores with an arbitrary rewrite.
- Work tables other than sessions, schedules and runs, and columns that no migration or scheduler step reads: they would only add easy members.
- `associate`, `remove` and `drop` of the viewer pages: single list edits; a page identity is the triple that the program hashes, taken to be collision free, and encoded sizes are a parameter.
- The command line, the choice of the binary and the timeouts of the official restart: its return code is any answer.
- CaddyMerge.RenderIdempotent: lines end at the newline character, with a carriage return before it stripped; the other line separators of `str.splitlines` are not modelled. The domain is a single line that does not occur in the limits text, and the global block of the input closes before the site and not right after a bare carriage return.
- PTY reads and writes, window sizes, signals, input queues and the context report of a session: no deep state.
- TranscriptControl.AwaitTranscriptControl: decoding a line, and whether a record is our command or its success, are abstract functions; the key presses that confirm a model change and the deadline are not modelled. Its branch for permission changes adopts records on the way; no caller asks for that kind, so the branch is left out.
- PermissionCycle.Controls.SetPermissionMode: the loop takes each step's answer as given; `TranscriptWatch` models the wait behind it, without key press and deadline.
- TranscriptWatch.Session.WatchTranscriptControls: which content is a command's output and what it reports are abstract tests; the pause while a control change is in progress only delays its reads.
- The rendering of frames in the terminal client: the model says which frames are printed, not how.
- TuiReplay.PrintedIncreases: speaks of one session between two resets of its cursor (generation change, rebuild, rekey, eviction); across a reset a number may be printed again.
- StoreMigration.WorkFollowsHomes: follows the rows that were there at the start; what the running service adds or edits between transitions is not followed.
- SnapshotRestore.Restorer.RestoreSnapshot: the manifest has been validated and the checksums match, as the program checks before its first change; temporary files that a killed restore leaves beside its targets are not modelled.
- CheckpointArchive.Archiver.Add: directories are listed in the order of the sorted names, and no file changes while it is read; the program refuses such a change.
- SnapshotRestore.CreateSnapshot: the roots and the state directory are taken to be safe, absolute and distinct, and the destination empty, as the program checks first; older manifests are restored but not written.
- `verify_profile_migration` and the discovery of configuration files for a snapshot.
- The relay, device and authentication modules, broker framing, push payloads, web files and release builders: single counters, single branches or plumbing.
