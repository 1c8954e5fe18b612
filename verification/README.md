# CliRelay: models and proofs

This project models the coordination layer of CliRelay, the part that lets
several nodes share one PostgreSQL database, and three sequential algorithms
beside it: the comment-preserving YAML merge, the public lookup rate limiter,
and the helpers for stable IDs and client versions.
`dafny verify dfyconfig.toml` checks the whole project.

Concurrent code is modelled as a transition system: one SQL statement, one
critical section or one reload of one unit is one atomic step, and theorems
quantify over every run. Code that updates fields, arrays or linked nodes step
by step is a class or a method with loops, proved against a function whose
properties are then proved as lemmas.

| file | subject |
|---|---|
| `ConfigEvents`, `Dispatcher` | config events, the coalescing queue, fingerprint comparison, the worker |
| `ConfigCluster`, `ConfigClusterRepair`, `ConfigClusterStart`, `ConfigClusterFacts` | the whole cluster: commits, bus, starting nodes, dispatchers, reloads; when it converges, what becomes of a change that is missed, the gaps of a start, and a run in which a Resync does not help |
| `DispatcherLifecycle` | Start, Stop, the wake-up channel and the worker goroutine |
| `CollectionVersions` | compare-and-swap versions and their announcements |
| `Bus` | LISTEN/NOTIFY with disconnects and Resync |
| `SessionLocks`, `LeaderClock` | advisory locks, leadership, the time to notice a lost session |
| `Membership` | the membership row contested by several processes |
| `OAuthSessions`, `SharedRows` | login sessions, job snapshots, warmup policies |
| `YamlMerge`, `YamlReadBack`, `YamlDefaults`, `YamlElements`, `YamlFrame`, `YamlInPlace` | the merge as functions, what a reader finds, which values may be missing, which list element is whose, what is left alone, and the merge on linked nodes |
| `RateLimiter`, `Itoa` | fixed windows, Retry-After, the hand-written integer formatter |
| `StableIds`, `ClientVersions`, `Text` | deterministic IDs, version order, strings and numerals |

## What turned out false, and the exact condition

- A Resync does not always repair a lost announcement. An ordinary batch marks
  the whole snapshot as applied, also units it did not reload
  (`internal/configsync/dispatcher.go:270-272`).
  `ConfigClusterFacts.ResyncCanMissAChange` gives a run. `ConfigCluster.StepKeepsCovered`
  says for every step when it can lose a change, if and only if;
  `ConfigClusterRepair.UnsafeStepStrands` shows that every such step can end in a
  quiet node that is out of date, unless a unit without a handler makes it reload
  everything, `ConfigClusterRepair.LostUntilRescued` which steps bring a lost
  change back, and `ConfigClusterRepair.OneResyncRepairs` exactly which units one
  Resync repairs.
- A starting node can miss changes although nothing fails. It loads, takes its
  baseline and subscribes in separate steps, and subscribing hands over no Resync
  (`internal/configsync/dispatcher.go:116-121`, `internal/cluster/cluster.go:256-273`).
  A commit between load and baseline can be lost for good
  (`ConfigClusterStart.CommitBeforeBaselineIsLost`), one between baseline and
  subscription can stay unseen until the next Resync
  (`ConfigClusterStart.CommitBeforeSubscribeIsMissed`).
  `ConfigClusterStart.StartIsCoveredIff` says exactly when a start misses nothing.
- The comment of `mergeMappingPreserve` says a new key is only added when its
  value is non-zero; a list whose elements are all zero is added
  (`YamlReadBack.ZeroListIsAdded`). `YamlReadBack.NewKeyAddedIff` is the exact rule.
- Merging a tree into its own copy changes it exactly when a list element has a
  blank key, which `pruneMissingMapKeys` never keeps (`YamlFrame.SelfMerge`,
  `YamlFrame.BlankListKeyIsLost`).
- The first request after the Retry-After time may be refused: rounding up
  leaves up to a second in which sixty other requests of the client fit
  (`RateLimiter.RoundingLeavesRoom`, `RateLimiter.AdmittedAgainIff`).
- `strconvItoa` prints the least integer as a bare sign (`Itoa.PrintedReadsBack`).
- A valid, unique stable ID is replaced when an earlier entry without a usable
  ID derives the same one (`StableIds.DerivedIdDisplaces`, `StableIds.Uuids.ValidUniqueIdKept`).
- An older process that inspected the membership row before a newer one
  registered takes the row from it (`Membership.InspectionRace`). The newest
  process keeps the row through every run if and only if no older one is about
  to reclaim it (`Membership.KeepsTheRowIff`). A newer process that has crashed
  holds the row back for twenty seconds (`Membership.DepartedStillCounts`,
  `Membership.RoundSettles`).
- A job snapshot that is older than one already deleted is stored again
  (`SharedRows.OlderSnapshotReturns`); the newest wins among those saved since
  the last deletion (`SharedRows.NewestSnapshotWins`), and among all exactly when
  each earlier save has been made up for since (`SharedRows.NewestOfAllIff`).
- The required client version may fall once, at the first feed answer
  (`ClientVersions.FirstAnswerCanFall`, `ClientVersions.FirstAnswerFallsIff`).
- `Fingerprints.Changed` overlooks a unit that appears with an empty token
  (`Dispatcher.ChangedIsExact`). `SnapshotFingerprints` and `noteLocalWrite`
  write no empty token (`internal/configsync/fingerprint.go:108`, `134`, `165`,
  `208`), so this input does not come from them.

## Model

| member | source | states |
|---|---|---|
| `ConfigCluster.LosslessRunsConverge` | internal/configsync/dispatcher.go:161-286 | in every run in which nothing of a serving node fails, whatever other nodes do, each unit it holds at an old version is on the bus, queued or being reloaded; when quiet it agrees with the database |
| `ConfigCluster.StepKeepsCovered` | internal/configsync/dispatcher.go:108-286 | with broken connections, failing handlers and starting nodes, a step keeps every stale unit announced or discoverable by the next comparison if and only if it is a safe step |
| `ConfigCluster.SafeRunsConverge` | internal/configsync/dispatcher.go:225-286 | after every run of safe steps, a quiet node holds exactly what the database holds |
| `ConfigCluster.StepKeepsOk` | internal/configsync/dispatcher.go:245-313 | no step lets caches, beliefs or notes of a node run ahead of the database |
| `ConfigCluster.AbsorbingHidesNothing` | internal/configsync/dispatcher.go:303-313 | counting the node's own writes as applied never hides a unit that a peer has overwritten since, in whatever order notes arrive |
| `ConfigCluster.FreshIsCovered` | internal/configsync/dispatcher.go:108-124 | a cluster in service that has loaded and applied what the database holds satisfies what the convergence theorems need |
| `ConfigCluster.QuietAgrees` | internal/configsync/dispatcher.go:350-369 | an idle dispatcher with an empty bus and every stale unit covered means agreement with the database |
| `ConfigClusterFacts.ResyncCanMissAChange` | internal/configsync/dispatcher.go:270-272 | for any two units with handlers there is a run from a fresh cluster after which a connected, quiet node still holds an old version, past repair by further Resyncs |
| `ConfigClusterRepair.LostUntilRescued` | internal/configsync/dispatcher.go:245-313 | a change that nothing announces and no comparison finds stays lost through a step if and only if the step is not a commit of the unit, a reload of everything, or a plan without snapshot that absorbs an older own write |
| `ConfigClusterRepair.LostForGood` | internal/configsync/dispatcher.go:245-313 | it stays lost through every run without such a step, however many Resyncs the run has |
| `ConfigClusterRepair.OneResyncRepairs` | internal/configsync/dispatcher.go:249-286 | of the stale units, one undisturbed Resync repairs exactly those in its batch and those whose applied version differs from the database, or all when it reloads everything |
| `ConfigClusterRepair.UnsafeStepStrands` | internal/configsync/dispatcher.go:225-286 | every unsafe step can be followed, by the node's own faultless steps alone, by a connected, quiet node, which holds an old version if and only if none of its plans reloads everything; none does when every unit it can hear of has a handler |
| `ConfigClusterRepair.MissedUntilFullReload` | internal/configsync/dispatcher.go:225-286 | the node's own faultless steps, Resyncs included, bring a missed change back if and only if one of their plans reloads everything |
| `ConfigClusterRepair.BecomeQuiet` | internal/configsync/dispatcher.go:108-243 | from every state, also while starting, a node's own steps can make it quiet |
| `ConfigClusterRepair.EveryNodeCanCatchUp` | internal/configsync/dispatcher.go:206-286 | after every run that is lossless for a node, its own steps reach a quiet state that agrees with the database |
| `ConfigClusterStart.StartIsCoveredIff` | internal/configsync/dispatcher.go:112-123 | a node that subscribes misses nothing if and only if each unit committed since it loaded is still to be delivered, or a Resync is and the baseline lacks the unit; with everything delivered, only if nothing was committed |
| `ConfigClusterStart.BaselineHidesEarlierCommits` | internal/configsync/dispatcher.go:116-118 | a unit committed since the load is lost once the baseline is taken if and only if its announcement is no longer on the bus |
| `ConfigClusterStart.CommitBeforeBaselineIsLost` | internal/configsync/dispatcher.go:116-121 | from every cluster with a node about to load, a faultless run with a commit between load and baseline ends with that node quiet and the change lost |
| `ConfigClusterStart.CommitBeforeSubscribeIsMissed` | internal/cluster/cluster.go:256-273 | likewise, a commit between baseline and subscription leaves the node quiet and out of date until a Resync |
| `ConfigClusterFacts.ProcessIsPlan` | internal/configsync/dispatcher.go:245-286 | the plan of the cluster model is what `Dispatcher.Worker.Process` does: same units, same tokens applied afterwards, everything reloaded in the same cases |
| `ConfigClusterFacts.OwnWriteIsNotReloaded` | internal/configsync/dispatcher.go:300-313 | after a node's own commit and its note, the next undisturbed Resync does not reload that unit |
| `ConfigClusterFacts.JoinAsksForResync` | internal/cluster/pg_listener.go:130-135 | a node that joins makes every other node owe a Resync |
| `ConfigClusterFacts.TokensChangeWithVersions` | internal/configsync/fingerprint.go:31-44 | comparing printed version tokens finds exactly the units whose versions differ |
| `ConfigClusterFacts.TokensAbsorbLikeVersions` | internal/configsync/dispatcher.go:303-313 | absorbing notes by token gives the tokens of absorbing them by version |
| `ConfigClusterFacts.AnnouncementNamesItsUnit` | internal/configsync/dispatcher.go:183-185 | an announced unit is queued under its own name |
| `Dispatcher.BurstIsCoalesced` | internal/configsync/dispatcher.go:161-197 | after any burst of requests, `order` is duplicate-free and equals the keys of `pending`, each with an announced event of the highest version |
| `Dispatcher.BurstOfEventsIsCoalesced` | internal/configsync/dispatcher.go:161-197 | after any burst of bus events, each unit named by a readable event is queued once with the highest version announced for it, nothing else is queued, and a resync is pending exactly when some event was a Resync or unreadable |
| `Dispatcher.RequestedMeans` | internal/configsync/dispatcher.go:165-185 | a readable event stands for its unit with trimmed domain and normalised tenant, every other for a resync |
| `Dispatcher.RequestNamesItsUnit` | internal/configsync/dispatcher.go:172-185 | the canonical event filed under a unit is about that unit |
| `Dispatcher.Worker.Enqueue` | internal/configsync/dispatcher.go:161-197 | `resync` is set exactly by a Resync or an unreadable event, which queue nothing; a readable one queues its unit last, with the higher version; other units stay |
| `Dispatcher.Worker.Drain` | internal/configsync/dispatcher.go:225-236 | the batch is the queue in order, one event per pending unit, and the queue is empty |
| `Dispatcher.Worker.ForgetLocalWrites` | internal/configsync/dispatcher.go:303-313 | only notes that are still current, or all without a snapshot, move `applied` |
| `Dispatcher.Worker.Process` | internal/configsync/dispatcher.go:245-286 | which reloads run for each combination of resync, snapshot, baseline and handlers, and what counts as applied afterwards; on a resync with both maps and no empty token, every unit that differs reaches its handler exactly once or everything is reloaded |
| `Dispatcher.Worker.Dispatch` | internal/configsync/dispatcher.go:273-285 | the two loops call the handlers exactly as the grouping of the batch by domain says |
| `Dispatcher.EachEventOnce` | internal/configsync/dispatcher.go:273-285 | each domain is called once and gets each of its events as often as the batch has it, and no other |
| `Dispatcher.OfDomainInOrder` | internal/configsync/dispatcher.go:275-280 | a handler gets its events in the order of the batch |
| `Dispatcher.DomainsInOrder` | internal/configsync/dispatcher.go:275-285 | domains are called in order of first appearance |
| `Dispatcher.OwnWriteIsNotReloaded` | internal/configsync/dispatcher.go:300-313 | a write of the node itself that is still current is not found changed |
| `Dispatcher.ResyncReachesEveryChange` | internal/configsync/dispatcher.go:251-286 | with non-empty tokens, every unit that differs, appeared or disappeared reaches its own domain's handler exactly once |
| `Dispatcher.Changed` | internal/configsync/fingerprint.go:31-44 | one event for each changed unit, none twice, none else |
| `Dispatcher.ChangedIsExact` | internal/configsync/fingerprint.go:31-44 | the comparison reports exactly the differing units if and only if no unit appeared with an empty token |
| `Dispatcher.MergeEvents` | internal/configsync/dispatcher.go:316-330 | the batch comes first, the units are the union, nothing is named twice |
| `Dispatcher.AbsorbNotes` | internal/configsync/dispatcher.go:308-312 | the loop computes the absorbed map |
| `Dispatcher.NotesHideNothing` | internal/configsync/dispatcher.go:303-313 | a token changes only to this node's own, still current write; an overwritten unit stays changed |
| `DispatcherLifecycle.RunsKeepInv` | internal/configsync/dispatcher.go:108-243 | Start's body runs at most once and is the only spawner, a worker exits only after Stop closed its channel, and waiting events always have a signal stored, under way or just taken |
| `DispatcherLifecycle.ReloadsNeverOverlap` | internal/configsync/dispatcher.go:206-243 | in every run two reloading workers are the same worker |
| `DispatcherLifecycle.NoLostWakeup` | internal/configsync/dispatcher.go:199-223 | in every interleaving, when events wait and no signal is under way, a selecting worker can wake |
| `DispatcherLifecycle.ExitMeansStopped` | internal/configsync/dispatcher.go:206-223 | in every run a worker has exited only if Stop closed its channel |
| `DispatcherLifecycle.WaitingEventsAreDrained` | internal/configsync/dispatcher.go:199-236 | whenever events wait on a started dispatcher that is not stopped, the worker's steps lead to a drain |
| `DispatcherLifecycle.EnqueuedIsDrained` | internal/configsync/dispatcher.go:161-243 | in every run each Enqueue on a started dispatcher can be followed by a drain |
| `DispatcherLifecycle.WorkerComesToRest` | internal/configsync/dispatcher.go:206-243 | without further events the worker comes to rest with an empty queue and wake slot |
| `DispatcherLifecycle.StartLaunches` | internal/configsync/dispatcher.go:108-124 | Start leaves exactly one worker at its select |
| `DispatcherLifecycle.StopCanReturn` | internal/configsync/dispatcher.go:140-157 | Stop, once called, can always return, waiting for the reload in progress at most |
| `DispatcherLifecycle.NothingRunsAfterStop` | internal/configsync/dispatcher.go:140-157 | from a returned Stop on, no worker is spawned and none drains |
| `DispatcherLifecycle.StopIsFinal` | internal/configsync/dispatcher.go:140-157 | after Stop returns no reload starts and none is running, even if Start raced it |
| `CollectionVersions.HistoryIsGapless` | internal/configsync/version.go:78-117 | in every interleaving of writers, committed versions of a collection are 1, 2, 3, …, a write with an expectation commits directly after the version it names, and in cluster mode exactly the commits are announced, in order |
| `CollectionVersions.StepKeepsInv` | internal/configsync/publish.go:48-66 | each begin, bump, publish, commit or rollback keeps that history |
| `CollectionVersions.ExpectedVersionWinsOnce` | internal/configsync/version.go:78-117 | of two writers that expect the same version at most one commits |
| `CollectionVersions.BumpMeans` | internal/configsync/version.go:78-117 | no expectation or the right one gets the next version, every other is told the current one |
| `CollectionVersions.WriterCanCommit` | internal/configsync/version.go:156-182 | on an unlocked row such a write commits the next version, is announced in cluster mode and leaves no lock |
| `CollectionVersions.WriterIsRefused` | internal/configsync/version.go:78-117 | a write with another expectation is refused with the current version and leaves no lock |
| `CollectionVersions.RollbackLeavesNothing` | internal/configsync/publish.go:71-84 | a rolled-back transaction leaves no version, announcement or lock |
| `CollectionVersions.Store.WriteCollection` | internal/configsync/version.go:156-182 | conflict exactly when an expectation differs; a refused or failed write leaves neither version nor announcement |
| `Bus.NothingIsSilentlyLost` | internal/cluster/pg_listener.go:48-80 | in every run with disconnects, each foreign notification is handed over, waiting, or followed by a Resync |
| `Bus.DeliveredInCommitOrder` | internal/cluster/pg_listener.go:86-137 | in every run notifications are handed over in commit order, never twice, and never to their publisher |
| `Bus.StepKeepsInv` | internal/cluster/memory.go:60-78 | publish, disconnect, connect, Resync and delivery each keep that account |
| `Bus.DrainedListenerMissedNothing` | internal/cluster/pgbus.go:223-235 | from unconnected nodes, a live listener with nothing waiting has seen each foreign notification or a later Resync |
| `Bus.PublishedIsDelivered` | internal/cluster/pg_listener.go:86-137 | a notification published while a node's listener is live reaches its subscribers |
| `Bus.ListeningReceives` | internal/cluster/pg_listener.go:23-43 | a session receives every notification from the moment it listens |
| `Bus.ReconnectResyncs` | internal/cluster/pg_listener.go:48-80 | a node that comes back hands its subscribers a Resync that covers all that was committed |
| `SessionLocks.PoolIsClean` | internal/cluster/locks.go:62-113 | in every run, with timeouts, lost replies and failed unlocks, no pooled connection has an advisory lock |
| `SessionLocks.ActingIsExclusive` | internal/cluster/pg_leader.go:55-88 | two flagged leaders, or two bodies under one lock, never both have live sessions |
| `SessionLocks.ActingHasASession` | internal/cluster/pg_leader.go:55-106 | the leader flag, or a running body, implies a checked-out session |
| `SessionLocks.LockOutlivesActing` | internal/cluster/pg_leader.go:101-118 | only the death of the session takes the lock from a client that still acts |
| `SessionLocks.NoReentry` | internal/cluster/locks.go:62-113 | a session never asks for a lock it has, so one unlock frees it |
| `SessionLocks.FreeLockIsWon` | internal/cluster/pg_leader.go:55-88 | a client that asks for a free lock on a live pooled session comes to act and has the lock |
| `SessionLocks.HeldLockIsRefused` | internal/cluster/locks.go:62-113 | a lock another session has is refused and the connection goes back as it came |
| `SessionLocks.LockChangesHands` | internal/cluster/pg_leader.go:101-136 | when one client is done, the next one that asks acts and the first does not |
| `SessionLocks.DoneFreesTheLock` | internal/cluster/pg_leader.go:110-136 | a client that is done clears its flag, frees exactly its lock and drops its connection |
| `SessionLocks.ClientCanLeave` | internal/cluster/locks.go:62-113 | wherever a client is and whatever failed, it can give up without acting or holding a connection |
| `SessionLocks.DeathFreesTheLock` | internal/cluster/pg_leader.go:90-106 | the death of a session frees exactly its own locks |
| `SessionLocks.RunsKeepInv` | internal/cluster/pg_leader.go:55-136 | ownership of locks, sessions and pooled connections stays consistent in every run |
| `LeaderClock.FlagClearsInTime` | internal/cluster/pg_leader.go:26-106 | a leader whose session dies, even while the winning check is in flight, clears its flag within one campaign interval plus two ping timeouts |
| `Membership.Node.Heartbeat` | internal/cluster/pg_membership.go:118-175 | an undisturbed heartbeat ends with the row owned and active, or left to a newer live process |
| `Membership.OneRoundTakesTheRow` | internal/cluster/pg_membership.go:118-175 | one undisturbed round gives a process the row if and only if no newer process is active in it |
| `Membership.RoundSettles` | internal/cluster/pg_membership.go:118-175 | one undisturbed round of the newest process settles the row if and only if no departed newer one still counts as active |
| `Membership.YieldsMeans` | internal/cluster/pg_membership.go:148-175 | a process leaves the row alone exactly when a newer one was seen in it in the last twenty seconds and has not stopped |
| `Membership.OlderTakesOverAfterStop` | internal/cluster/pg_membership.go:208-212 | when the newer process stops, the next heartbeat of an older one takes the row |
| `Membership.StopMeans` | internal/cluster/pg_membership.go:71-73 | stopping makes the process's own row inactive and touches no other |
| `Membership.PruneMeans` | internal/cluster/pg_membership.go:69-69 | pruning deletes exactly the rows not refreshed for seven days |
| `Membership.OlderProcessesLeaveTheRow` | internal/cluster/pg_membership.go:37-73 | while the newest process has an active row, a step of the others changes the row if and only if it is a reclaim |
| `Membership.NewestKeepsTheRow` | internal/cluster/pg_membership.go:118-212 | in every run in which the newest process refreshes in time and no reclaim was due, it keeps the row |
| `Membership.KeepsTheRowIff` | internal/cluster/pg_membership.go:118-212 | it keeps the row through every such run if and only if no older process is about to reclaim it at the outset |
| `Membership.DepartedStillCounts` | internal/cluster/pg_membership.go:148-175 | a newer process that registered and crashed still keeps an older one from the row |
| `Membership.InspectionRace` | internal/cluster/pg_membership.go:148-175 | a run from an empty table in which an older process between inspect and reclaim takes the row from a newer one |
| `OAuthSessions.CallbacksAreConserved` | internal/clusterstate/oauth_sessions.go:29-209 | in every run, since the last Create: deliveries are takes plus overwritten plus dropped plus the one held; `pending` is left at most once; a login that is not pending holds no callback |
| `OAuthSessions.StatementBalances` | internal/clusterstate/oauth_sessions.go:74-177 | each statement keeps that balance |
| `OAuthSessions.SweepIsIdempotent` | internal/clusterstate/oauth_sessions.go:186-209 | sweeping twice at one clock reading is sweeping once |
| `OAuthSessions.Repo.CreateSession` | internal/clusterstate/oauth_sessions.go:29-51 | only this login changes; it holds no callback, and until it expires or a minute passes a callback is accepted and no sweep touches it |
| `OAuthSessions.Repo.DeliverCallback` | internal/clusterstate/oauth_sessions.go:74-93 | a callback is accepted exactly for a live login of this provider whose owner was heard from in the last minute; expiry never shortens; a refusal and other logins change nothing |
| `OAuthSessions.Repo.TakeCallback` | internal/clusterstate/oauth_sessions.go:98-123 | the callback returned is the one cleared |
| `OAuthSessions.Repo.FinishSession` | internal/clusterstate/oauth_sessions.go:125-136 | a login ended with a final status is over: no later delivery, take, finish, cancel or heartbeat changes it; a second call returns false and changes nothing |
| `OAuthSessions.Repo.CancelPending` | internal/clusterstate/oauth_sessions.go:138-165 | exactly the live logins of the provider, and of the tenant if one is named, are cancelled without callback and listed once each; all others stay as they are |
| `OAuthSessions.Repo.Beat` | internal/clusterstate/oauth_sessions.go:167-177 | callback and expiry stay, and for a minute, until expiry, callbacks are accepted and no sweep touches the login; a refusal changes nothing |
| `OAuthSessions.Repo.SweepSessions` | internal/clusterstate/oauth_sessions.go:186-209 | the three statements in sequence act on each row as one sweep |
| `OAuthSessions.SweepMeans` | internal/clusterstate/oauth_sessions.go:186-209 | a sweep ends exactly the pending logins that expired or whose owner is silent for a minute, and deletes rows an hour after expiry |
| `SharedRows.NewestSnapshotWins` | internal/clusterstate/management_jobs.go:28-100 | after any saves, heartbeats and sweeps the replaced columns are those of the highest version of the row's kind saved since the last deletion |
| `SharedRows.NewestOfAllWithoutSweeps` | internal/clusterstate/management_jobs.go:28-56 | without sweeps they are those of the highest version of all saves |
| `SharedRows.NewestOfAllIff` | internal/clusterstate/management_jobs.go:28-100 | with sweeps they are so if and only if each save from before the last deletion has one since then that is at least as new |
| `SharedRows.OlderSnapshotReturns` | internal/clusterstate/management_jobs.go:28-100 | after a deletion an older snapshot is stored again |
| `SharedRows.SaveOrderDoesNotMatter` | internal/clusterstate/management_jobs.go:28-56 | any order and repetition of the same snapshots, since the last deletion, ends with the same replaced columns |
| `SharedRows.ManagementJobs.SaveSnapshot` | internal/clusterstate/management_jobs.go:28-56 | a row's version never falls and its kind, tenant and creation time survive; a snapshot that is not newer, or of another kind, changes nothing; a newer one replaces the content and renews expiry and heartbeat; other rows stay |
| `SharedRows.ManagementJobs.TouchAll` | internal/clusterstate/management_jobs.go:80-90 | the heartbeat loop touches exactly the listed, owned, unfinished jobs |
| `SharedRows.ManagementJobs.SweepExpired` | internal/clusterstate/management_jobs.go:58-100 | a sweep is invisible: a reader is shown the same for every job from then on |
| `SharedRows.LastEditSurvives` | internal/clusterstate/warmup_policies.go:55-90 | in every interleaving the stored policy carries the last operator edit |
| `SharedRows.WarmupPolicies.SavePolicy` | internal/clusterstate/warmup_policies.go:55-90 | an edit is stored under a revision above all earlier ones, no write-back computed from an earlier revision changes it, and every stored policy carries its operator's last choice |
| `SharedRows.WarmupPolicies.SaveRunState` | internal/clusterstate/warmup_policies.go:76-90 | a write-back computed from a copy of any age leaves every operator's last choice in place |
| `YamlReadBack.MergeReadsBack` | internal/config/yaml_merge.go:32-124 | every path of the generated tree reads back from the merged tree; a key is missing only if pruning counts everything below it as default, or it is a blank key of a list element; lists agree in length and order, an empty list over null excepted |
| `YamlDefaults.MergeReadsAs` | internal/config/yaml_merge.go:32-124 | the same, with what may be missing said by its meaning: false, zero, empty text, null, collections of such, or one of four named settings |
| `YamlDefaults.ZeroValueMeansZero` | internal/config/yaml_merge.go:227-265 | what counts as a zero value means nothing but false, zero, empty or null, read by tag and text |
| `YamlDefaults.EncodedZeroIff` | internal/config/yaml_merge.go:227-265 | in a tree as the encoder writes it, exactly what means zero counts as a zero value |
| `YamlDefaults.KnownDefaultIff` | internal/config/yaml_merge.go:154-184 | the known defaults are the zero values and the four named settings at their literal paths and values |
| `YamlDefaults.JoinDotsNames` | internal/config/yaml_merge.go:159-159 | the dotted path of keys without dots names exactly those keys |
| `YamlDefaults.SettingIsWrittenIff` | internal/config/yaml_merge.go:53-62 | a setting the file lacks is written exactly when it does not mean its default, or is a list with elements |
| `YamlDefaults.FlagIsWrittenIff` | internal/config/yaml_merge.go:53-62 | a flag the file lacks is written exactly when it is on |
| `YamlReadBack.DroppedIffDefaultOnly` | internal/config/yaml_merge.go:188-222 | pruning drops a value exactly when every leaf below it is a zero value or a known default |
| `YamlReadBack.NewKeyAddedIff` | internal/config/yaml_merge.go:53-62 | when a new key is added, if and only if |
| `YamlReadBack.ZeroListIsAdded` | internal/config/yaml_merge.go:29-62 | a new list of zeros is added, against the comment |
| `YamlFrame.MergeKeepsLayout` | internal/config/yaml_merge.go:45-64 | where both sides are mappings, existing keys keep place and comments, unnamed keys keep their value, new keys come last |
| `YamlFrame.PicksInjective` | internal/config/yaml_merge.go:301-363 | no old list element is taken over twice |
| `YamlElements.TakesOverFirstFree` | internal/config/yaml_merge.go:323-363 | a generated list element takes over the first free old element of the same identity, else of the same text, else of the same shape, and none if there is none |
| `YamlElements.IdentityIs` | internal/config/yaml_merge.go:365-387 | an element is identified by the most telling of nine fields that has a text, and by that text |
| `YamlElements.IdentityOtherwise` | internal/config/yaml_merge.go:375-386 | without such a field its first scalar with a text identifies it |
| `YamlElements.SameStructureIff` | internal/config/yaml_merge.go:407-445 | structural equality is equality without comments, tags and outer blanks |
| `YamlElements.ElementKeepsItsComments` | internal/config/yaml_merge.go:86-115 | a taken-over element keeps its comments, a new one comes as generated |
| `YamlElements.TakenOverElementLosesRemovedKeys` | internal/config/yaml_merge.go:105-108 | a taken-over element has no key left that is not generated for it |
| `YamlElements.ListOverOther` | internal/config/yaml_merge.go:86-95 | an empty list leaves a null and empties everything else; a list replaces what is no list |
| `YamlElements.MappingOverOther` | internal/config/yaml_merge.go:80-84 | a mapping over something else takes over tag and value and keeps the comments |
| `YamlFrame.SelfMerge` | internal/config/yaml_merge.go:70-124 | merging a tree into its own copy changes nothing if and only if no list element has a blank key |
| `YamlFrame.BlankListKeyIsLost` | internal/config/yaml_merge.go:505-525 | the exception occurs |
| `YamlInPlace.MergeDocument` | internal/config/yaml_save.go:65 | after the in-place merge the file's nodes form a tree without sharing, read like the generated tree up to what means a default, and keep their layout; nothing outside the tree is written |
| `YamlInPlace.MergeNode` | internal/config/yaml_merge.go:70-124 | the linked tree holds the merge of its old value; only its own cells are changed, all others in it are new |
| `YamlInPlace.MergeMapping` | internal/config/yaml_merge.go:32-65 | the loop over the generated keys computes the merged entries in place |
| `YamlInPlace.MergeSequence` | internal/config/yaml_merge.go:86-115 | the list holds taken-over old cells and fresh copies, none shared, in generated order |
| `YamlInPlace.PruneCell` | internal/config/yaml_merge.go:188-222 | the linked tree holds its pruned value, within its own cells |
| `YamlInPlace.PruneMissingCell` | internal/config/yaml_merge.go:499-528 | deleting in place leaves exactly the entries whose trimmed key is generated |
| `YamlInPlace.DeepCopy` | internal/config/yaml_merge.go:268-280 | the copy holds the same value in new cells only |
| `YamlInPlace.CopyShallowInto` | internal/config/yaml_merge.go:284-299 | the node takes the generated kind, value and children and keeps its comments |
| `YamlInPlace.Reorder` | internal/config/yaml_merge.go:301-321 | the loop with its `used` array computes the picks |
| `YamlInPlace.MatchSequenceElement` | internal/config/yaml_merge.go:323-363 | the two scans find the first free strong match, else the first free equal element |
| `YamlInPlace.FindMapKey` | internal/config/yaml_merge.go:128-138 | the scan finds the first entry of that name |
| `RateLimiter.Limiter.Allow` | internal/api/public_lookup_middleware.go:71-106 | decision, end of window and new memory, cleanup pass included |
| `RateLimiter.CleanupIsInvisible` | internal/api/public_lookup_middleware.go:71-106 | for non-decreasing times no decision differs from a limiter that never forgets |
| `RateLimiter.TwoWindowsWorth` | internal/api/public_lookup_middleware.go:71-106 | any span of one window admits at most 2 × 60 requests of a client |
| `RateLimiter.SixtyAMinute` | internal/api/public_lookup_middleware.go:71-106 | of a client's requests within a minute of its first, exactly the first sixty are admitted |
| `RateLimiter.RetrySecondsRoundUp` | internal/api/public_lookup_middleware.go:56-62 | the announced seconds cover the remaining time and exceed it by less than a second |
| `RateLimiter.AdmittedAgainIff` | internal/api/public_lookup_middleware.go:56-106 | in every run of the limiter, a client that was refused is admitted at a later time if and only if the window its requests since then opened is over or holds fewer than sixty of them |
| `RateLimiter.PatientClientAdmitted` | internal/api/public_lookup_middleware.go:56-106 | in every run, a refused client that sends nothing until the Retry-After time (section 10.2.3 of RFC 9110), whenever its remaining time was read, is admitted then, whatever others do |
| `RateLimiter.RoundingLeavesRoom` | internal/api/public_lookup_middleware.go:56-106 | a run from an empty memory in which a request at the Retry-After time is refused |
| `Itoa.FillDigits` | internal/api/public_lookup_middleware.go:117-121 | the digits fill the end of the buffer and leave room for a sign |
| `Itoa.StrconvItoa` | internal/api/public_lookup_middleware.go:108-128 | the text is the numeral with its sign, in 64-bit arithmetic |
| `Itoa.PrintedReadsBack` | internal/api/public_lookup_middleware.go:108-128 | the text reads back as the number if and only if it is not the least integer |
| `StableIds.Uuids.AssignedIsSound` | internal/config/provider_stable_ids_seeded.go:55-91 | whenever the run ends, all IDs are canonical, pairwise distinct and different from those taken before |
| `StableIds.Uuids.VariedIsEnough` | internal/config/provider_stable_ids_seeded.go:79-86 | the run ends when, for each name, as many first attempts differ as there are IDs to avoid |
| `StableIds.Uuids.ListsInSequence` | internal/config/provider_stable_ids_seeded.go:23-43 | going through several lists with one `seen` set is going through their concatenation |
| `StableIds.Uuids.SecondRunChangesNothing` | internal/config/provider_stable_ids_seeded.go:23-43 | after a run that ends, a second one changes no ID, whatever the names are then |
| `StableIds.Uuids.GoodIdsStay` | internal/config/provider_stable_ids_seeded.go:55-91 | canonical, pairwise distinct IDs are all kept, whatever derivation does |
| `StableIds.Uuids.ValidUniqueIdKept` | internal/config/provider_stable_ids_seeded.go:55-91 | a valid ID no earlier entry carries is kept if and only if no earlier entry without a usable ID derives the same one |
| `StableIds.Deriver.FindFree` | internal/config/provider_stable_ids_seeded.go:79-86 | the retry loop ends on the first free ID whenever one is free, and within one attempt more than `seen` has members when that many differ |
| `StableIds.Deriver.EnsureOne` | internal/config/provider_stable_ids_seeded.go:61-89 | one entry gets its normalised or a derived ID; `changed` tells whether it differs |
| `StableIds.Deriver.EnsureList` | internal/config/provider_stable_ids_seeded.go:55-91 | the list ends with the assigned IDs; `changed` is reported exactly when one differs |
| `StableIds.DerivedIdDisplaces` | internal/config/provider_stable_ids_seeded.go:55-91 | the exception occurs for every derivation |
| `ClientVersions.CompareVersions` | internal/codexclientver/version.go:167-184 | the loop computes the lexicographic order of the numeric parts |
| `ClientVersions.CompareFlips` | internal/codexclientver/version.go:167-184 | swapping the arguments flips the sign, so the order is total |
| `ClientVersions.CompareIsTransitive` | internal/codexclientver/version.go:167-184 | the order is transitive on all strings, also on malformed ones |
| `ClientVersions.CompareIsNumeric` | internal/codexclientver/version.go:167-232 | dotted numbers compare as numbers, the first difference from the left deciding and missing parts counting as zero |
| `ClientVersions.ReleaseTagMeansItsNumbers` | internal/codexclientver/version.go:199-221 | a release tag stands for the numbers after its last "v" |
| `ClientVersions.TagMeans` | internal/codexclientver/version.go:199-221 | any tag that is no pre-release stands for what follows its last "v", or for nothing if that is no dotted number |
| `ClientVersions.PreReleaseIsNone` | internal/codexclientver/version.go:199-221 | an alpha, beta or rc tag is no version |
| `ClientVersions.ModelKeyIgnoresCase` | internal/codexclientver/version.go:67-95 | a model is known by its name without case and outer blanks |
| `ClientVersions.NewerIsMaximum` | internal/codexclientver/version.go:186-194 | `newer` picks a maximum of its arguments |
| `ClientVersions.RequiredNeverFalls` | internal/codexclientver/version.go:67-125 | once the feed has answered, no interleaving of notes and answers lowers a required version |
| `ClientVersions.FirstAnswerFallsIff` | internal/codexclientver/version.go:67-125 | when the first answer lowers it, if and only if |
| `ClientVersions.FirstAnswerCanFall` | internal/codexclientver/version.go:67-125 | the first answer "0.1" lowers the version required from an empty cache |
| `ClientVersions.MinimumIsMaximumOfNotes` | internal/codexclientver/version.go:80-95 | each noted minimum is one of the notes for its model and at least all of them |
| `ClientVersions.Memory.NoteMinimum` | internal/codexclientver/version.go:80-95 | no minimum falls, the model's is at least the version noted, every other model's stays |
| `ClientVersions.Memory.AcceptAnswer` | internal/codexclientver/version.go:112-124 | the official version never falls, is at least the answer, and is one of the two |
| `ClientVersions.Memory.Required` | internal/codexclientver/version.go:67-76 | the answer is at least the official version, or the floor, and at least the model's minimum, and is one of them |

## Assumptions

- SQL statements are atomic, a session's locks end with the session, row locks
  last to the end of the transaction. The queries of one fingerprint snapshot
  count as one statement.
- A committed write updates the publisher's own caches together with the commit,
  and a handler reloads exactly the units it is given.
- A node loads its configuration in one step before `Start`.
- UUID parsing and UUIDv5 derivation (section 5.5 of RFC 9562) yield canonical
  forms. That the retry loop ends is a condition of the theorems, met when the
  first attempts for a name differ.
- A YAML tree has no nil nodes and the two merged trees share none; the
  generated tree has unique keys (section 3.2.1.1 of YAML 1.2.2).

## Left out

- HTTP handlers, login flows, the updater, the management panel and the configuration structs: wiring and normalisation that would only add easy members.
- `SanitizeRouting`, the scheduling migration and the model gates: branch by branch, or resting on helpers outside the files modelled.
- `MemoryHub` as a class: its steps are those of `Bus`.
- Read-only servers and a switch to another primary, and databases without advisory locks: not part of `SessionLocks`.
- Row-count fingerprints and deleted units are not in the cluster model, where every unit has a version; `Dispatcher.Changed` does cover units that disappear.
- Extra events of `WriteCollection`, the missing-table path of `BumpAndCommit` and the JSON codecs of callbacks and envelopes.
- `Coordinator` subscription maps, `adoptPrepared` and `backendSlot`: bookkeeping around the bus without a property of their own.
- Logging, warning throttles and reconnect backoff.
- `yaml_save.go` around the merge: legacy keys, `pruneMappingToGeneratedKeys`, styles, comment indentation and file writing.
- YamlInPlace.MergeDocument: the generated tree is a value, since the merge only reads and copies it; the read-only helpers look at a snapshot of the linked nodes.
- Alias targets: an alias is known by its name, not by the node it points to.
- OAuthSessions.Repo.SweepSessions: the three statements use one clock reading.
- ClientVersions.CompareVersions: letter case is folded for ASCII only.
