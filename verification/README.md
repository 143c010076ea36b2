# sbw-server: a verified model of the control plane's core

sbw-server is the global brain of a bandwidth-pool control plane. Stateless replicas run the
same state machines over shared stores: they fail pools over when edges die, keep the pool and
member tables, watch edge liveness and member presence, shard edges over controllers, and render
the state each edge should have. This project models that core in Dafny and proves what every
run and every interleaving keeps.

`dafny verify dfyconfig.toml` checks everything.

How the modules hang together:

- `YbStore` is the two-table store, `MemStore` the one-map store; `StoreRefinement` runs them
  side by side over every legal sequence of operations.
- `Failover` is one reconcile pass on that store. `PivotProtocol` is every interleaving of any
  number of replicas over one pool's row and the per-edge versions; `PivotProgress` counts its
  writes, `PivotSafety` says what its gate guarantees and `PivotReach` what it does not,
  `PivotDebts` keeps book of what each edge was last told, and `PivotOnStore` runs it on the two
  tables. `BulkFailover` is the edge-death fast path.
- `EdgeVer` and `Ledger` are the revision-gated counters and refunds; `Scheduler` is placement.
- `Liveness` has the monitor's per-edge step and, beside it, predicates over event logs that
  mention no record. `LivenessSummary` proves the record says what the log says,
  `LivenessRuns` states windows and alternation over runs, `LivenessRules` states the hold-downs
  and short histories by the configuration alone, `LivenessMonitor` is the class.
- `Presence` is the lease map with its log; `Shard` and `Rehome` are rendezvous hashing and
  what it makes the server tell agents.
- `Cidr`, `Conflicts` and `Admin` go from address blocks and their text to the overlap lookup
  to the request handlers. `Render` is the desired-state renderer, `RenderLaws` its laws and
  `RenderEdge` a whole edge in terms of its pools.
- `Model` and `Sorting` hold shared vocabulary.

Conventions. A protocol is a total function `Exec(state, action)`, a disabled action changing
nothing, and a run is a list of actions, so "for all runs" is an ordinary quantifier. Liveness,
placement, capacity, hash scores, clock readings and what other replicas do meanwhile are
parameters. Times are integers (nanoseconds). Methods with `modifies` say the whole new state;
what the source promises about that state is in the lemmas.

What the proofs found:

- Asking to replace never displaces another pool's member with the *same* prefix: the write is
  refused before the eviction runs, although the 409 body suggests setting `replace=true`
  (`Admin.AcceptedIff`, `Admin.ExactDuplicateRefused`). Strictly containing or contained
  members are displaced as documented.
- `markPresent` reads its deadline before taking the lock. If two marks of one coverer are
  applied out of order a view lease can end before a member lease, and `markAbsent` then keeps
  silent about a real loss (`Presence.RaceExact` has the exact condition,
  `Presence.RaceHidesLoss` a run).
- An `UpdatePool` whose record was read before a promote drops the pending retire or homes new
  members at the old edge (`StoreRefinement.UpdateKeepsRetiringIff` and `UpdateKeepsHomesIff`
  have the exact conditions, `StaleUpdateLosesRetire` an update).
- The versions restart when an id is re-created, so a row read before a delete can win a CAS
  afterwards (`StoreRefinement.CasKeepsIndexIff` and `CasKeepsHomesIff` say exactly which rows
  leave the tables sound, `RecreateLetsStaleRowWin` gives one that does not).
- The key-range scan of a /24 also matches the /24's own row, not only hosts as its comment
  says; the extra row is harmless because rows are re-checked and deduplicated
  (`Cidr.LikeExact`).
- A retiring edge renders nothing, although the comments of the promote and the retire say the
  old primary keeps rendering in full until the new one is live: the render asks only for the
  home and backup columns. The retire gate therefore guards the bump and not the render. A
  promote takes the old primary from full to nothing without telling it, the retire tells it and
  changes no render, and any other bump of that edge in between withdraws it early
  (`Failover.BumpsMatchIff`, `PivotReach.StaysAnnouncedIff`, `PivotReach.EarlyWithdraw`).
- The manual promote bumps the old primary at once (`PivotReach.ManualPromoteGatedIff` says
  exactly when the new primary has applied by then).
- A manual provision that excludes the current backup does not bump that edge itself
  (`Failover.ManualProvisionBumpsIff`, `Failover.ExcludedBackupUntold`); the drain that excludes it bumps it at its end.
- A bulk move writes an empty retiring edge. If a withdraw was pending, the edge that was
  retiring is never told by the pivot again; so it is with a manual promote on top of a pending
  one (`PivotDebts.RecordKeptIff` has the exact conditions, `PivotDebts.BulkForgetsBoth` an
  instance). Such an edge is left to the clean-up on revival, which is not modelled.
- `Advance` can report failure although the last racer already reached its value, because the
  last try is not read again (`EdgeVer.Versions.Advance` has the exact condition,
  `EdgeVer.FailureWithValueReached` the racers).

## Model

| member | source | states |
|---|---|---|
| `YbStore.Store.CreatePool` | internal/ybstore/ybstore.go:204-252 | the insert loop either commits the pool at version 1 with a row per member, or changes nothing: ErrExists if the id is taken, else ErrMemberConflict exactly when a prefix is already a row or named twice |
| `YbStore.Store.UpdatePool` | internal/ybstore/ybstore.go:275-372 | the incremental diff and the affected-row count give exactly the new member set with kept rows untouched, or ErrMemberConflict with nothing changed exactly when a new prefix belongs to another pool |
| `YbStore.Store.RemoveMember` | internal/ybstore/ybstore.go:383-433 | the row goes only if this pool holds it, the body loses the prefix, the version grows |
| `YbStore.WriteThenRead` | internal/ybstore/ybstore.go:550-656 | the row a replica read lets it write, and the next reader gets exactly what was written: placement and retiring edge as given, members and cost as read, the next version |
| `YbStore.Store.UpdateCAS` | internal/ybstore/ybstore.go:612-656 | refused unless the stored version is the expected one; otherwise body, columns and, on a move, every member row's home change together |
| `YbStore.Store.DeleteCAS` | internal/ybstore/ybstore.go:663-684 | refused unless the version is the expected one; otherwise the pool and all its member rows go |
| `YbStore.InsertAll` | internal/ybstore/ybstore.go:349-366 | insert-or-skip: the count is short exactly when some prefix was already a row |
| `YbStore.CreateThenRead` | internal/ybstore/ybstore.go:204-252 | a created pool reads back as given: placement, cost and definition at version 1, nothing retiring; its members are homed at its primary and no other row moves |
| `YbStore.UpdateThenRead` | internal/ybstore/ybstore.go:275-300 | an updated pool reads back with the new definition and the next version, its placement and cost columns as before; exactly the new members have rows, kept rows standing |
| `YbStore.RemoveThenRead` | internal/ybstore/ybstore.go:383-433 | a removal reads back with that one member gone from the definition and from the pool's rows, the next version, all else as before |
| `MemStore.Mem.MemberOwners` | internal/ybstore/mem.go:50-58 | the owner map read off all records |
| `MemStore.Mem.ConflictsForeign` | internal/ybstore/mem.go:60-68 | a conflict exactly when another pool's record lists one of the prefixes |
| `MemStore.Mem.CreatePool` | internal/ybstore/mem.go:77-91 | the simple create, keeping "no prefix in two pools" |
| `MemStore.Mem.UpdatePool` | internal/ybstore/mem.go:93-107 | the simple update, keeping "no prefix in two pools" |
| `MemStore.Mem.RemoveMember` | internal/ybstore/mem.go:109-127 | the simple member removal |
| `MemStore.Mem.UpdateCAS` | internal/ybstore/mem.go:175-192 | the simple gated pivot write |
| `MemStore.Mem.DeleteCAS` | internal/ybstore/mem.go:194-203 | the simple gated delete |
| `StoreRefinement.StepRefines` | internal/ybstore/ybstore.go:204-779 | one legal operation gets the same answer from both stores and keeps refinement, index agreement, member homes and the held-row invariant |
| `StoreRefinement.RunRefines` | internal/ybstore/mem.go:60-203 | from empty stores every legal run gets the same answers from both stores and ends with the same rows, the members table equal to the prefix-to-pool map of the bodies, every member homed with its pool |
| `StoreRefinement.ReadsAgree` | internal/ybstore/mem.go:162-173 | in every such state the reconciler reads the same row from both stores, up to the cost column |
| `StoreRefinement.CasLosesNoMemberChange` | internal/ybstore/ybstore.go:612-656 | a CAS that succeeds was decided from the stored definition and primary, and from the whole stored row if the held row is as it was read; rewriting the body from it loses no concurrent member change |
| `StoreRefinement.HeldIsCurrent` | internal/ybstore/ybstore.go:550-592 | within an incarnation a row as it was read, of the stored version, is the stored row, backup and retiring edge included; a held row that the bulk or manual path changed still has its definition and primary |
| `StoreRefinement.VersionGrows` | internal/ybstore/ybstore.go:288-294 | whatever runs, the version never goes back within one incarnation |
| `StoreRefinement.OneWinnerPerVersion` | internal/ybstore/ybstore.go:544-550 | after one CAS succeeded from a version, every other CAS or delete from that version is refused, whatever ran in between |
| `StoreRefinement.CreateAnswersAgreeIff` | internal/ybstore/mem.go:77-91 | the two stores answer a create alike exactly when its members are distinct or one is claimed anyway |
| `StoreRefinement.UpdateKeepsHomesIff` | internal/ybstore/ybstore.go:257-271 | an in-place update keeps member homes in step exactly when it carries the current home or adds no member |
| `StoreRefinement.UpdateKeepsRetiringIff` | internal/orchestrator/orchestrator.go:828-837 | it keeps the pending retire exactly when none is pending or the record names the same edge |
| `StoreRefinement.StaleUpdateLosesRetire` | internal/orchestrator/orchestrator.go:828-837 | an update read before a promote homes the member it adds at the old edge and forgets the withdraw |
| `StoreRefinement.CasKeepsIndexIff` | internal/ybstore/ybstore.go:612-651 | a CAS from any row, of any incarnation, keeps the member index exactly when it is refused or the row lists the stored members |
| `StoreRefinement.CasKeepsHomesIff` | internal/ybstore/ybstore.go:612-651 | it keeps the members homed with their pool exactly when it is refused, re-homes them, leaves the home as it is, or the pool has none |
| `StoreRefinement.RecreateLetsStaleRowWin` | internal/orchestrator/orchestrator.go:1026-1032 | across delete and re-create a stale row passes the gate and breaks the member index |
| `Failover.ReconcilePool` | internal/orchestrator/reconcile.go:62-147 | one pass, with anything happening between its read and its write, does exactly what the decision on the row it read says: retire, promote, provision, double death, gate, or lose the CAS and bump nothing |
| `Failover.GatedIff` | internal/orchestrator/reconcile.go:80-106 | a pass waits, writing nothing, exactly when a retire is pending and its primary is not both caught up and alive, or the primary is dead and the live backup has not caught up |
| `Failover.LooksForBackupIff` | internal/orchestrator/reconcile.go:95-147 | exactly when a pass looks for a new backup, and what it then does: place it, degrade, or tear down |
| `Failover.TearsDownOnlyIf` | internal/orchestrator/reconcile.go:278-289 | a pass deletes a pool only if it is fail-open, its primary is still dead, no spare was found, no retire is pending and its backup is missing, dead or just died |
| `Failover.MovesIff` | internal/orchestrator/reconcile.go:80-129 | exactly what the retire and the promote write, and exactly when a pool is left as healthy |
| `Failover.BumpsEdges` | internal/orchestrator/reconcile.go:300-347 | a pass never bumps the empty name and bumps no edge twice |
| `Failover.AsyncProvisionBackup` | internal/orchestrator/reconcile.go:262-347 | places a new backup and bumps old and new, or degrades, deleting a fail-open pool whose primary is still dead |
| `Failover.RoleIsRendered` | internal/orchestrator/orchestrator.go:1075-1084 | an edge renders a pool in full iff the home column names it and standby iff the backup column does; a retiring edge renders nothing |
| `Failover.BumpsMatchIff` | internal/orchestrator/reconcile.go:80-129 | for every row, observation and edge: a pass bumps the edge iff its write changes what the edge renders, exactly except for the retiring edge under the guards of the retire and the old primary under the guards of the promote |
| `Failover.ProvisionBumpsMatch` | internal/orchestrator/reconcile.go:300-347 | placing a backup and tearing a pool down bump exactly the edges whose render they change |
| `Failover.PromoteOwesOne` | internal/orchestrator/reconcile.go:98-129 | a promote changes one edge it does not bump, from full to nothing: the old primary, which is the one recorded as retiring |
| `Failover.RetirePaysOne` | internal/orchestrator/reconcile.go:80-94 | a retire bumps exactly that edge and changes nobody's render |
| `Failover.BulkOwesOne` | internal/orchestrator/reconcile.go:203-231 | a bulk move bumps exactly the edges it changes except the dead primary |
| `Failover.ManualPromoteBumpsMatch` | internal/orchestrator/failover.go:82-98 | a manual promote bumps exactly the two edges whose render it changes |
| `Failover.ManualProvisionBumpsIff` | internal/orchestrator/failover.go:134-165 | a manual provision bumps exactly the edges it changes, except an excluded current backup when an edge was placed or the pool is torn down |
| `Failover.ExcludedBackupUntold` | internal/orchestrator/failover.go:155-162 | such a provision: the excluded backup loses its standby and only the new one is told |
| `PivotDebts.UntoldIff` | internal/orchestrator/reconcile.go:112-129 | in every reachable state exactly which actions change what an edge renders without telling it |
| `PivotDebts.BooksKept` | internal/orchestrator/reconcile.go:300-315 | in every run the current primary and backup have been told their role |
| `PivotDebts.DebtsOfRun` | internal/orchestrator/reconcile.go:62-238 | over every run the edges that render something else than they were last told are exactly those a promote, a bulk move or an excluding provision left owing and nobody bumped since |
| `PivotDebts.RecordKeptIff` | internal/ybstore/ybstore.go:102-110 | exactly which actions keep every such edge recorded as retiring: passes always, a successful bulk move never, a manual promote unless a withdraw is pending, a manual provision unless it excludes a backup or tears down with a withdraw pending |
| `PivotDebts.BulkForgets` | internal/orchestrator/reconcile.go:205-221 | after a bulk move the edges owing are exactly the dead primary and, if its withdraw was pending, the edge that was retiring |
| `PivotDebts.CarefulRunsRecord` | internal/orchestrator/reconcile.go:62-147 | so in every run of such careful actions at most one edge owes, and it is the one the retire step will tell |
| `PivotDebts.PendingIsReached` | internal/orchestrator/failover.go:134-165 | a run to a row with a pending withdraw and a new backup |
| `PivotDebts.BulkForgetsBoth` | internal/orchestrator/reconcile.go:213 | there a bulk move leaves both old primaries owing and no retiring edge |
| `PivotProtocol.CreatedShaped` | internal/orchestrator/orchestrator.go:650-666 | the homes selected at create give a row with non-empty primary different from its backup |
| `PivotProtocol.SelectedElsewhere` | internal/orchestrator/reconcile.go:263-285 | a backup selected with both homes excluded is a third edge |
| `PivotProtocol.RowStep` | internal/orchestrator/failover.go:82-161 | reads, passes, bulk moves, manual promote and provision, edits, bumps and advances all keep the row's shape and the held-row invariant |
| `PivotProtocol.ReachableShaped` | internal/orchestrator/reconcile.go:112-120 | in every reachable state primary is non-empty, not the backup and not the retiring edge |
| `PivotSafety.GateStep` | internal/orchestrator/reconcile.go:357-377 | every action keeps the gate invariant: a replica whose two version reads said "ready" knows the gate edge applied what the row's promote or placement minted |
| `PivotSafety.RunsAreSafe` | internal/orchestrator/reconcile.go:80-129 | in every run the old primary's withdraw follows its promote with no move between, after the new primary applied the version that promote minted; a gated promote onto a provisioned backup follows that backup's applying its placement's version |
| `PivotSafety.InitIsSafe` | internal/orchestrator/orchestrator.go:661-666 | a freshly created pool satisfies both invariants |
| `PivotReach.ManualPromoteGatedIff` | internal/orchestrator/failover.go:82-103 | a manual promote bumps the old primary at once, and the new one has applied the version it is given exactly when its applied version was ahead of its desired one |
| `PivotReach.ManualPromoteIsUngated` | internal/orchestrator/failover.go:82-103 | so with agents that echo only what they were given the old primary is bumped too early |
| `PivotReach.StaysAnnouncedIff` | internal/orchestrator/reconcile.go:75-92 | in every stretch of a run from a promote to the next pivot write the old primary renders nothing, and it is told so before the retire exactly if somebody bumps it for another reason |
| `PivotReach.EarlyWithdraw` | internal/orchestrator/orchestrator.go:1075-1084 | such a run: a gated promote, then a bump of the old primary while the new one has not applied |
| `PivotOnStore.RowFollows` | internal/ybstore/ybstore.go:612-684 | every pass, bulk move, manual move, update and eviction leaves the same row in the protocol and in the tables |
| `PivotOnStore.CreatedInTune` | internal/orchestrator/orchestrator.go:661-697 | a created pool starts with protocol and tables in tune |
| `PivotOnStore.ReadIsKnown` | internal/ybstore/ybstore.go:550-592 | a replica that reads the stored row holds a row its pass may act on |
| `PivotOnStore.StoredPoolIsSound` | internal/orchestrator/reconcile.go:62-347 | at every point of every history on the store the stored primary is non-empty, not the backup and not retiring, the member rows are the body's members, all homed at the stored primary, and the withdraw and promote ordering holds |
| `PivotProgress.RankStep` | internal/orchestrator/reconcile.go:62-238 | under a fixed liveness oracle every automatic action that writes the pivot uses up rank |
| `PivotProgress.WritesUseRank` | internal/orchestrator/reconcile.go:62-238 | over every interleaving, writes plus remaining rank never exceed the initial rank |
| `PivotProgress.AtMostFourWrites` | internal/orchestrator/reconcile.go:62-347 | at most four pivot writes succeed on one incarnation |
| `PivotProgress.PassesAreRuns` | internal/orchestrator/reconcile.go:62-147 | sequential passes with every version applied are a run of the protocol with as many pivot writes |
| `PivotProgress.FourIsReached` | internal/orchestrator/reconcile.go:62-147 | in an honest world a created pool has a run with exactly four pivot writes: place, promote, withdraw, place again |
| `PivotProgress.PassMeans` | internal/orchestrator/reconcile.go:62-147 | exactly when a pass with all versions applied reports Healthy, Gated or Degraded |
| `PivotProgress.PassDropsRank` | internal/orchestrator/reconcile.go:62-147 | a pass that acts lowers the rank and does not leave the row stuck |
| `PivotProgress.PassesSettle` | internal/orchestrator/reconcile.go:62-347 | sequential passes reach Healthy or Degraded within the rank, unless the row starts retiring with a dead primary |
| `PivotProgress.StuckStays` | internal/orchestrator/reconcile.go:80-82 | that row stays gated for as long as the oracle does not move |
| `BulkFailover.FailoverEdgeBulk` | internal/orchestrator/reconcile.go:161-238 | for every order of the workers and whatever peers write before each of them, exactly the listed pools of the dead edge with a live backup get a turn; each listed pool is enqueued exactly once; a pool is notified exactly once iff at its turn the re-check passed and its version still stood; a moved pool is on its old backup with no backup and no retiring (and ends there unless a peer touches it later), pools neither moved nor touched by peers are as they were, and each distinct destination is bumped exactly once |
| `BulkFailover.Launch` | internal/orchestrator/reconcile.go:177-202 | the listing loop with its readiness cache gives exactly the listed pools with a live backup a worker and leaves exactly those without one, none twice |
| `BulkFailover.RunWorkers` | internal/orchestrator/reconcile.go:203-222 | every pool with a live backup gets one turn, in any order and after any peer writes; exactly those whose re-check and CAS succeed at their turn are moved |
| `BulkFailover.WonTurnLands` | internal/orchestrator/reconcile.go:209-221 | a won turn lands the pool on its old backup, and it is still there at the end unless a peer touched it later |
| `BulkFailover.TurnsSpare` | internal/orchestrator/reconcile.go:203-222 | a pool no turn moves and no peer touches is as it was |
| `BulkFailover.BumpOnce` | internal/orchestrator/reconcile.go:224-231 | one bump per distinct destination |
| `EdgeVer.Versions.Bump` | internal/edgever/edgever.go:68-88 | fails exactly when all 64 tries are raced; otherwise the first un-raced try succeeds, its value counts every bump of the edge so far, its own included, and no other key moves |
| `EdgeVer.Versions.Advance` | internal/edgever/edgever.go:106-128 | success leaves the applied version at least `v`; it fails exactly when every one of the 64 tries finds less than `v` and is overtaken by a higher advance, leaving the last racer's value; it fails with `v` reached exactly when that value is at least `v`; the value never goes down |
| `EdgeVer.FailureWithValueReached` | internal/edgever/edgever.go:106-128 | racers 1 to 64 against an advance to 64: failure with 64 stored |
| `EdgeVer.RunKeeps` | internal/edgever/edgever.go:68-128 | over every interleaving of reads and compare-and-puts no value ever goes down |
| `EdgeVer.EveryRunCounts` | internal/edgever/edgever.go:68-128 | the n-th successful bump of an edge returned n, no two bumps returned the same value, a successful advance stays in force |
| `Ledger.ReclaimConserves` | internal/ledger/ledger.go:171-232 | over every interleaving of scans, reads and transactions no reservation is refunded twice and every chosen set of shards keeps balance plus outstanding |
| `Ledger.RefundsOnlyReserved` | internal/ledger/ledger.go:171-197 | a refund takes exactly one reservation that is stored and still reserved at that moment and credits its amount to its shard; it was judged at a time past its expiry |
| `Ledger.RefundedIff` | internal/ledger/ledger.go:206-232 | an undisturbed scan, read and transaction refunds a reservation exactly when it is stored, still reserved and past its expiry |
| `Ledger.Reclaim` | internal/ledger/ledger.go:206-232 | an undisturbed sweep returns exactly the reserved reservations past their expiry, leaves all others as they are and counts the returns |
| `Ledger.SplitTokens` | internal/ledger/ledger.go:103-112 | the 64 slices sum to the balance for every balance, also negative; only shard 0 differs from the even share |
| `Ledger.GoDivTruncates` | internal/ledger/ledger.go:103-112 | the quotient and remainder of the split truncate toward zero, as Go does |
| `Ledger.Balances.SetTokens` | internal/ledger/ledger.go:116-145 | after a forced set the agent's balance is the given one and no other agent moves |
| `Ledger.Balances.InitAgent` | internal/ledger/ledger.go:129-138 | seeds the balance only if the agent has none |
| `Ledger.Balances.Remaining` | internal/ledger/ledger.go:150-164 | the summing loop returns the agent's total |
| `Scheduler.SelectHomes` | internal/scheduler/scheduler.go:62-129 | for every shuffle: n distinct qualifiers, most free first, none left out with more free; a failed lookup is reported iff a needed one fails; sessions are named the binding limit exactly when at least n candidates pass bandwidth and fewer than n pass both |
| `Scheduler.DemandMeans` | internal/scheduler/scheduler.go:74-97 | a candidate qualifies exactly when it has the tokens and, if sessions are asked for and counted, the sessions |
| `Scheduler.WorstFitMeans` | internal/scheduler/scheduler.go:53-61 | a selection in terms of the lookups alone: distinct edges with room, by falling tokens, none left out with room and more tokens |
| `Scheduler.Shuffle` | internal/scheduler/scheduler.go:113-115 | any draws permute |
| `Scheduler.Dominates` | internal/scheduler/scheduler.go:53-61 | no other list of distinct qualifiers is better at any position |
| `Scheduler.ByIdIsUnique` | internal/scheduler/scheduler.go:116-123 | with ties broken by id the selection is determined by the candidate set |
| `LivenessSummary.VotesExact` | internal/liveness/monitor.go:343-377 | hardVotes is exactly the set of coverers whose latest vote since the last Alive or Forget is down, the own id only via HardDown |
| `LivenessSummary.QuorumExact` | internal/liveness/monitor.go:108-112 | the record has the quorum exactly when enough distinct coverers stand by a down vote |
| `LivenessSummary.TrackedExact` | internal/liveness/monitor.go:273-280 | an edge has a record exactly when a signal came after the last Forget; ignored votes are no signal |
| `LivenessSummary.CanaryExact` | internal/liveness/monitor.go:379-396 | the canary flag is the latest canary word since Alive or Forget |
| `LivenessSummary.HealthReportExact` | internal/liveness/monitor.go:324-341 | health and fault kind are those of the latest health report since Alive or Forget, sick or not, and healthy without one |
| `LivenessSummary.HealthExact` | internal/liveness/monitor.go:324-341 | the record is sick of a fault exactly when that latest report says so |
| `LivenessSummary.ReportedExact` | internal/liveness/monitor.go:304-322 | everReported means a heartbeat since the last Forget |
| `LivenessSummary.SeenExact` | internal/liveness/monitor.go:285-322 | once reported, lastSeen is the time of the latest Alive or Heartbeat |
| `LivenessSummary.DataDeadExact` | internal/liveness/monitor.go:119-136 | dataDead holds exactly when the latest health report is sick of a typed fault, or of any fault with the canary out |
| `LivenessSummary.RecordAgrees` | internal/liveness/monitor.go:430-526 | after every history: failed, softSince and hardSince are what the log says, the two latter being the earliest still-open window |
| `LivenessSummary.TickExact` | internal/liveness/monitor.go:443-525 | a tick fails an edge over exactly when the log judges it newly dead, and names quorum before soft death before silence |
| `LivenessRuns.SoftFireHeld` | internal/liveness/monitor.go:458-475 | a soft failover implies the data plane was dead after every event since an un-failed tick at least the fault's hold-down ago |
| `LivenessRuns.HardFireHeld` | internal/liveness/monitor.go:487-503 | a hard failover under a hold-down implies every un-failed tick of a window at least that long saw the quorum |
| `LivenessRuns.StaleFireSilent` | internal/liveness/monitor.go:447-485 | a failover for silence implies a report since the last Forget and no Alive or Heartbeat within the grace |
| `LivenessRuns.FailedMeans` | internal/liveness/monitor.go:285-322 | failed means a failover since which nothing revived or forgot the edge |
| `LivenessRuns.FireThenFire` | internal/liveness/monitor.go:421-525 | between two failovers there is a revival or a Forget |
| `LivenessRuns.ReviveNeedsFire` | internal/liveness/monitor.go:298-321 | a revival follows a failover with no Forget and no other revival between |
| `LivenessRuns.ReviveThenRevive` | internal/liveness/monitor.go:298-321 | between two revivals there is a failover |
| `LivenessRules.ImmediateFaults` | internal/liveness/monitor.go:145-148 | a tracked edge sick of a dead uplink or of a confirmed black hole is dead at every tick, without a hold-down |
| `LivenessRules.HeldFaults` | internal/liveness/monitor.go:149-152 | a gone data plane is ripe exactly when its window is as old as the restart grace, an untyped fault exactly when the canary is out and the window as old as the soft debounce |
| `LivenessRules.SilenceRule` | internal/liveness/monitor.go:476-485 | after one report: dead exactly after more than the grace of silence; an edge that never reported is not judged by silence |
| `LivenessRules.OwnVoteRule` | internal/liveness/monitor.go:343-359 | our own vote alone kills exactly with a quorum of one past the startup grace, and not once withdrawn |
| `LivenessRules.TwoVotesRule` | internal/liveness/monitor.go:361-377 | two coverers count as two, one voting twice as one, a vote taken back as none |
| `LivenessRules.HoldDownRule` | internal/liveness/monitor.go:487-503 | with a hold-down the quorum kills exactly that long after the first tick that saw it |
| `LivenessRules.FaultRule` | internal/liveness/monitor.go:130-154 | one sick report kills at the first tick exactly for a dead uplink, a black hole, or a gone data plane without a restart grace |
| `LivenessRules.RestartRule` | internal/liveness/monitor.go:463-475 | a gone data plane kills exactly the restart grace after the first tick that saw it |
| `LivenessRules.CanaryRule` | internal/liveness/monitor.go:114-136 | an untyped sick report kills only with the canary out and after the soft debounce; neither does alone |
| `LivenessRules.ResetRule` | internal/liveness/monitor.go:332-396 | the canary coming back, a healthy report and an Alive each start the hold-down over |
| `LivenessRules.ReviveRule` | internal/liveness/monitor.go:285-322 | an Alive revives; a heartbeat does not while our down vote stands past the startup grace; withdrawing the vote alone does not |
| `LivenessRules.VoteNames` | internal/liveness/monitor.go:265-377 | votes without a name or in our own name change nothing; our tap votes under our id, or under "local" without one |
| `LivenessMonitor.Monitor.constructor` | internal/liveness/monitor.go:235-263 | defaults, field by field: soft debounce from grace or 5s, restart grace 5s, quorum at least 1, ready after the startup grace |
| `LivenessMonitor.Monitor.Alive` | internal/liveness/monitor.go:285-302 | the records replay the longer log; revival is reported iff the log says failed |
| `LivenessMonitor.Monitor.Heartbeat` | internal/liveness/monitor.go:307-322 | likewise; revival iff failed before and not after |
| `LivenessMonitor.Monitor.Health` | internal/liveness/monitor.go:332-341 | the records replay the log with this report |
| `LivenessMonitor.Monitor.HardDown` | internal/liveness/monitor.go:347-351 | the records replay the log with this vote |
| `LivenessMonitor.Monitor.HardUp` | internal/liveness/monitor.go:355-359 | the records replay the log with this withdrawal |
| `LivenessMonitor.Monitor.Vote` | internal/liveness/monitor.go:365-377 | the records replay the log with this vote, ignored if anonymous or in our own name |
| `LivenessMonitor.Monitor.CanaryDown` | internal/liveness/monitor.go:382-386 | the records replay the log with this signal |
| `LivenessMonitor.Monitor.CanaryUp` | internal/liveness/monitor.go:390-396 | the records replay the log with this signal |
| `LivenessMonitor.Monitor.Forget` | internal/liveness/monitor.go:415-419 | the records replay the log with this removal |
| `LivenessMonitor.Monitor.IsDead` | internal/liveness/monitor.go:403-411 | dead iff the log has the quorum (past startup) or says failed |
| `LivenessMonitor.Monitor.Tick` | internal/liveness/monitor.go:430-549 | returns exactly the edges the log judges newly dead, each once, with the rule that fired, and leaves records that replay the log with this tick |
| `Presence.AnyLive` | internal/server/memberedge.go:259-266 | true iff some lease is still running |
| `Presence.MemberPresence.MarkPresent` | internal/server/memberedge.go:108-126 | wasAbsent iff no coverer's latest mark was a running present mark; the maps mean the longer log |
| `Presence.MemberPresence.MarkAbsent` | internal/server/memberedge.go:133-152 | nowAbsent iff the member was live, is not any more, and the family's view is trusted |
| `Presence.MemberPresence.ShouldWithdraw` | internal/server/memberedge.go:174-185 | exactly: a host nobody asserts under a trusted view |
| `Presence.MemberPresence.HostsByFamily` | internal/server/memberedge.go:191-204 | ok iff the view is trusted; then exactly the live members of the family, each once: on hosts the complement of ShouldWithdraw |
| `Presence.MemberPresence.SweepExpired` | internal/server/memberedge.go:210-250 | keeps exactly the running leases and reports exactly the members that had a lease, have none running, and whose view is trusted |
| `Presence.OneMark` | internal/server/memberedge.go:103-126 | one mark makes exactly its member live and exactly its own address family trusted, until the deadline |
| `Presence.ViewOutlivesLease` | internal/server/memberedge.go:154-163 | with deadlines applied in order no member lease outlives its coverer's view lease |
| `Presence.OrderedCovers` | internal/server/memberedge.go:154-163 | so with deadlines applied in order the views cover the leases |
| `Presence.ViewCheckPasses` | internal/server/memberedge.go:141-151 | while views cover leases markAbsent's final view check always passes when reached |
| `Presence.RaceExact` | internal/server/memberedge.go:108-124 | a mark keeps views covering leases exactly when it was not overtaken by a later deadline of the same coverer, edge and family |
| `Presence.RaceHidesLoss` | internal/server/memberedge.go:108-124 | a race in which a real loss is not reported |
| `Presence.SweepsInvisible` | internal/server/memberedge.go:206-250 | histories that differ only in their sweeps agree on liveness and trust, now and later |
| `Shard.Coverers` | internal/shard/shard.go:54-80 | whatever the sort routine, the result is the top-k list |
| `Shard.Covers` | internal/shard/shard.go:84-91 | true iff the controller is in that list |
| `Shard.CoveredEdges` | internal/shard/shard.go:95-103 | exactly the covered edges, in input order |
| `Shard.Coverage` | internal/shard/shard.go:107-113 | every edge mapped to its top-k list |
| `Shard.TopUnique` | internal/shard/shard.go:50-80 | a list is the result iff it has min(k, n) controllers in strict preference order, each preferred to every one left out |
| `Shard.HighestScores` | internal/shard/shard.go:50-80 | the list has min(k, n) controllers, by falling score, none left out with a higher score |
| `Shard.OrderDoesNotMatter` | internal/shard/shard.go:10-15 | every replica computes the same list, however its view is ordered |
| `Shard.NonCovererLeaves` | internal/shard/shard.go:13-15 | removing a non-coverer leaves the list identical |
| `Shard.CovererLeaves` | internal/shard/shard.go:13-15 | removing a coverer cuts it out, keeps the others' order and appends one newcomer exactly if somebody was left |
| `Shard.EveryEdgeCovered` | internal/shard/shard.go:93-103 | every edge is in the covered edges of exactly min(k, n) controllers |
| `Rehome.TargetIsBest` | internal/server/desiredfan.go:274-289 | routing has a target iff k is positive and somebody is connected, and it is the best connected coverer |
| `Rehome.DesiredFan.ConnectedIds` | internal/server/desiredfan.go:124-131 | the connected ids, each once, sorted |
| `Rehome.DesiredFan.StreamFor` | internal/server/desiredfan.go:274-289 | the routing target, whichever order the ids were listed in |
| `Rehome.DesiredFan.AssignmentFor` | internal/server/desiredfan.go:298-321 | exists iff the edge has a target; lists the covering coverers with their endpoints, the first being the routing target and the only primary |
| `Rehome.DesiredFan.IsSubscribed` | internal/server/desiredfan.go:328-332 | true iff there is a routing target, hence iff AssignmentFor succeeds |
| `Rehome.NoteKeepsStepIff` | internal/server/desiredfan.go:111-119 | noting a primary keeps the baseline in step exactly when the edge is not a known one or the primary is its current target |
| `Rehome.RegisterInStep` | internal/server/desiredfan.go:111-119 | registering an edge adds it to the edges in step exactly when it is told its current target |
| `Rehome.FanStarts` | internal/server/desiredfan.go:111-119 | once somebody is connected and every edge was told its target, the invariant of the histories holds |
| `Rehome.DesiredFan.RehomeChangedPrimaries` | internal/server/desiredfan.go:212-231 | the loop's new baseline and the edges it tells, tied to the routing target of the connected set |
| `Rehome.MovedAt` | internal/server/desiredfan.go:212-231 | an edge is told once iff it was known and its target differs from the baseline |
| `Rehome.LeaveIsExact` | internal/server/desiredfan.go:205-231 | one coverer leaving rehomes exactly the edges it was primary for, each once, and the baseline is in step again |
| `Rehome.JoinIsExact` | internal/server/desiredfan.go:205-231 | one coverer joining rehomes exactly the edges it now wins, each once, and the baseline is in step again |
| `Rehome.ChangeIsExact` | internal/server/desiredfan.go:205-231 | any connect or disconnect tells exactly the edges whose target over the latest non-empty connected set changes |
| `Rehome.BaselineFollows` | internal/server/desiredfan.go:65-71 | after every history of connects and disconnects the baseline is the routing target whenever anyone is connected |
| `Rehome.ConnectedAfter` | internal/server/servercoverer.go:122-161 | after every history exactly those are connected whose latest change is a connect, or who were and changed nothing |
| `Rehome.DesiredFan.RehomeMisHome` | internal/server/desiredfan.go:246-267 | corrects a report relayed by a wrong coverer unless corrected less than 15s ago |
| `Rehome.CorrectionsSpaced` | internal/server/desiredfan.go:18-22 | over every sequence of reports two corrections of one edge are at least 15s apart |
| `Rehome.CorrectedIff` | internal/server/desiredfan.go:246-267 | a report is corrected exactly when the edge has a target other than the relaying coverer and was not corrected within 15s |
| `Cidr.OverlapsMeans` | internal/ybstore/ybstore.go:859-867 | overlap means sharing an address, and then one block lies within the other (section 3.1 of RFC 4632) |
| `Cidr.LikeExact` | internal/ybstore/ybstore.go:887-899 | the text scan of a /24 matches exactly the stored prefixes inside it |
| `Cidr.TextInjective` | internal/ybstore/ybstore.go:846-855 | different prefixes have different texts, so the text is a key |
| `Cidr.TextExamples` | internal/ybstore/ybstore.go:846-899 | the texts and the scan key of a host, a /24 and an IPv6 host |
| `Conflicts.MemberConflicts` | internal/ybstore/ybstore.go:828-903 | candidate keys plus key-range scans return exactly the overlapping members of other pools, each once, in text order |
| `Conflicts.FullScan` | internal/ybstore/mem.go:259-279 | the full containment scan returns the same |
| `Conflicts.ScansAgree` | internal/ybstore/ybstore.go:817-828 | there is only one such list, so both lookups agree |
| `Conflicts.ScanMeans` | internal/ybstore/ybstore.go:859-901 | the list read out: exactly the stored members of other pools that share an address with a requested one, each once |
| `Admin.LookupsAgree` | internal/ybstore/mem.go:259-279 | wherever a legal run takes the two stores, their overlap lookups return the same list |
| `Admin.IngestValidate` | internal/server/admin.go:530-562 | accepts exactly non-empty, pairwise non-overlapping members with a supported action (a blackhole with an expiry) |
| `Admin.ResolveOverlaps` | internal/server/admin.go:132-146 | the conflicts, and "handled" exactly when there are some and replace is off |
| `Admin.Evict` | internal/server/admin.go:156-164 | removes each conflicting member in order |
| `Admin.HandlePool` | internal/server/admin.go:181-305 | the handlers' order of validate, resolve, write, evict, as a relation on the tables |
| `Admin.AcceptedSettles` | internal/server/admin.go:218-242 | after acceptance the pool holds exactly the request's members and other pools keep exactly theirs that do not overlap; `replaced` lists exactly the rest |
| `Admin.AcceptedIff` | internal/server/admin.go:218-238 | exactly when a request is accepted; a member another pool holds under the same prefix is refused even with replace |
| `Admin.CreateStores` | internal/orchestrator/orchestrator.go:661-688 | an accepted create is stored as placed: primary, backup, cost, version 1, nothing retiring, the requested definition and its members homed at the primary |
| `Admin.UpdateStores` | internal/orchestrator/orchestrator.go:828-845 | an accepted update stores the requested definition at the next version; placement, cost and retiring edge are as before and members are homed at the stored primary |
| `Admin.RefusedIff` | internal/server/admin.go:181-242 | exactly which refusal a request gets, in the order validation, overlaps, placement, store |
| `Admin.ExactDuplicateRefused` | internal/server/admin.go:127-146 | two pools and one prefix: the second create with replace is refused and changes nothing |
| `Admin.RequestKeepsDisjoint` | internal/server/admin.go:132-164 | every request, however answered, keeps all stored members pairwise disjoint |
| `Admin.NeverOverlapping` | internal/server/admin.go:287-301 | at every point of every history of requests, removals, destroys and pivot writes no two stored members overlap |
| `Render.Builder.AddPolicersClassify` | internal/render/desired.go:196-216 | appends two policers and two sessions per member, or fails iff a member is invalid or has no mask |
| `Render.Builder.RenderRateLimit` | internal/render/desired.go:228-281 | appends machinery, anchors and redirects and sets next hops, or fails iff a member or a needed next hop is bad |
| `Render.Builder.RenderBlackhole` | internal/render/desired.go:283-299 | appends one tagged anchor per member that is not suppressed |
| `Render.Builder.RenderStandby` | internal/render/desired.go:221-226 | appends the machinery of a rate-limited pool and nothing else |
| `Render.ForPool` | internal/render/desired.go:160-191 | the pool's contribution, read back off a scratch state |
| `Render.ForEdge` | internal/render/desired.go:109-145 | the in-order concatenation of the per-pool contributions, primaries full then backups standby; fails iff one of them fails |
| `Render.DesiredStates` | internal/render/desired.go:55-96 | one state per home edge, each from the pools homed there; fails iff a pool has no home or does not render |
| `RenderLaws.PathsAgree` | internal/render/desired.go:98-108 | for an edge without backups the all-edges render equals the one-edge render of the pools homed there |
| `RenderLaws.PartLike` | internal/render/desired.go:160-191 | a pool's contribution does not depend on the order of its members |
| `RenderLaws.EdgeOrderFree` | internal/render/desired.go:109-145 | the one-edge render is unchanged under any rearrangement of pools and of members within them |
| `RenderLaws.StatesOrderFree` | internal/render/desired.go:51-96 | the all-edges render, too: rearranged pools fail alike and give the same edges the same states |
| `RenderLaws.HomedBothWays` | internal/render/desired.go:240-258 | anchors and redirects carry the same prefixes, exactly the members not suppressed, each with a next hop of its family |
| `RenderLaws.BlackholeOnlyAdvertises` | internal/render/desired.go:283-299 | a blackholed pool contributes an anchor exactly for each member that is not suppressed, tagged with its communities, one per prefix if the prefixes differ, and nothing else |
| `RenderLaws.SessionsExact` | internal/render/desired.go:201-214 | the sessions are exactly those of the members, in both directions, each with its member's mask |
| `RenderLaws.SessionsOnce` | internal/render/desired.go:201-214 | none twice if the prefixes differ: exactly one per member and direction |
| `RenderLaws.EdgeAnnounces` | internal/render/desired.go:98-145 | a whole edge announces exactly the unsuppressed members of its primaries; backups announce nothing |
| `RenderLaws.EdgePolicersMean` | internal/render/desired.go:301-329 | every policer on an edge belongs to a rate-limited primary or backup and limits its direction at that pool's rate, a zero rate being line rate that only counts; every such pool has one per direction |
| `RenderLaws.EdgeContents` | internal/render/desired.go:98-145 | a whole edge redirects exactly the unsuppressed members of its rate-limited primaries, backups being silent, and polices with exactly the two policers of each rate-limited primary or backup |
| `RenderLaws.LimitsStand` | internal/render/desired.go:193-216 | two policers and two sessions per member whatever the options, the edge or the role |
| `RenderLaws.EdgeLimitsStand` | internal/render/desired.go:40-48 | a whole edge's policers and sessions do not depend on suppression, generation or any other option |
| `RenderEdge.PartFailsIff` | internal/render/desired.go:196-281 | a pool fails to render exactly if it is rate-limited with a bad member or, as primary, a member to advertise without a next hop of its family, or is a primary with an unsupported action |
| `RenderEdge.StatesRenderIff` | internal/render/desired.go:55-96 | the all-edges render fails exactly if a pool has no home or does not render there; its edges are exactly the homes |
| `RenderEdge.InOrder` | internal/render/desired.go:109-145 | the state carries its own edge id and the generation, and its lists are the contributions one after the other |
| `RenderEdge.Ascending` | internal/render/desired.go:112-117 | pools come by rising id and members in dictionary order of their texts |
| `RenderEdge.EdgeSessions` | internal/render/desired.go:193-216 | an edge classifies exactly the members of its rate-limited primaries and backups, each with its mask and direction |
| `RenderEdge.EdgeHops` | internal/render/desired.go:264-280 | redirects of a family point at the edge's own address of that family; without such redirects there is no next hop |

## Left out

- gRPC, HTTP, Kafka, SQL and etcd clients, configuration, metrics, logging, events and JSON: plumbing.
- BGP FlowSpec and redirect encoding: the repository only carries prefixes and next hops.
- What an agent holds at an applied version: the render reads pools before the version and bulk reads may be stale, so versions are plain numbers.
- `CleanupRevived` and other renders that no bump of the pivot asks for (direct pushes to locally connected edges, per-pool deltas, the drift sweep): in `PivotProtocol` an edge is told to render by a bump.
- Interleavings between a pivot write and the bump that follows it in the same pass, and lost bumps.
- Runs with updates that race a promote or rows held across delete and re-create: for these there are the exact one-step conditions and the examples above, not run invariants.
- Token cost after an in-place update: the body changes and the cost column does not.
- The order of generations delivered to agents, channel back-pressure, scheduling fairness, load balance of the hash, randomness of the tie-break.
- The score function and its bit mixer: any score is allowed; nothing about its balance is claimed.
- Reads for listing and capacity (`List`, `PoolsForHome`, `UsedByEdge` and similar), retries of restarted reads, and `drainEdgeGen`'s loop over the pools of an edge (its promotes and provisions are modelled one at a time).
- Each monitor call reads the clock once here; the source reads it again inside the lock for the startup grace and for new records.
- The liveness notifications for metering and their callbacks; the death method is modelled.
- Presence calls read the clock once under the lock, which is non-decreasing; the deadline's earlier reading is separate and arbitrary.
- Exactly-once member-down across `markAbsent` and the sweep together: an unreaped lease of another coverer can make the sweep report again.
- IPv6 member addresses are represented by their text, with a colon before any dot; the store modules key members by prefix, which `Cidr.TextInjective` justifies.
- The request's timestamp window, token derivation and failing evictions; requests are served one at a time.
- `Scheduler.Arrange`: does not state that equally free candidates keep the shuffled order, because that is the randomness of the tie-break.
- `sort.Slice` in the renderer is one fixed routine, here a stable insertion sort; results that depend on the routine are excluded by the distinctness conditions of the laws.
