# Aurium: protocols, modelled and proved in Dafny

Aurium runs coding agents in containers, each on its own branch and worktree, stacked on one another.
This project models the protocols that its promises rest on and proves those promises for every run.
`dafny verify dfyconfig.toml` checks all of it.

Each protocol is a state machine on values: a `State` (or `World`, `System`, `Ledger`, `Session`), one
function per atomic step, and lemmas by induction over arbitrary runs. The operations themselves are
classes and methods with the source's loops and branches, each proved to make exactly the specified
step. What git, a database statement, a clock, a hook, a driver or the network answers is a parameter,
so every theorem holds for whatever they answer.

| module | source | subject |
|---|---|---|
| `Commits`, `StackSync`, `Containers`, `RecordedBase` | `internal/stack/sync.go` | the append-only commit store, the sync of one container onto its parent, and what each event does to the recorded base |
| `ConcurrentSyncs` | `internal/cli/sync.go` | the recorded base over whole runs of several processes, each reading the row before and storing the base after its lease |
| `Lineage`, `Forest`, `Cascade` | `internal/stack/forest.go`, `internal/cli/sync.go` | parent chains with possible cycles, the container forest, and the cascade |
| `EventBus`, `Sse`, `Delivery` | `internal/events`, `internal/api/sse.go` | the event log, live fan-out, the tailer, a client that reconnects, and what such a client gets of other processes' events |
| `ConcurrentEmits` | `internal/events` | overlapping emits and polls, taken apart into their statements |
| `ContextStore`, `Proposals`, `ContextGrants` | `internal/contextengine` | compare-and-set items, proposals decided by several processes, permissions |
| `Ids`, `GoStrings` | `internal/ids` | the ULID generator and codec (ULID specification, sections "Monotonicity" and "Sorting"; Crockford base32) |
| `Leases` | `internal/store/leases.go` | timed claims on a worktree |
| `McpClient` | `internal/mcp/client.go` | concurrent calls over one pipe (JSON-RPC 2.0 specification, section 5) |
| `Create` | `internal/runtime/manager.go`, `internal/gitx/worktree.go` | a create that compensates on failure |
| `Retention` | `internal/runtime/snapshot`, `internal/store/snapshots.go` | snapshot collection and sequence numbers |
| `Gateway`, `Approvals` | `internal/gateway` | capability grants, the tool list, held calls |
| `Inbox` | `internal/ipc/ipc.go` | at-least-once messages |

## Where a promise has a condition

Several promises hold exactly under a condition that the source does not check. Each is stated as an
if-and-only-if over all runs or inputs, most of them with a further lemma that gives inputs or runs that
fail it.

- A sync reads the container's row before it takes the lease and stores the new base after giving it back
  (`internal/cli/sync.go:33-104`). Work is kept exactly while every rebase uses a base that is still current
  (`ConcurrentSyncs.KeptThroughoutIff`); two syncs that overlap around it both succeed, and the parent's
  commits become the container's (`ConcurrentSyncs.OverlappingSyncsSwallow`).
- A container whose rebase succeeded but whose new base was never stored stands on its old base only if
  the parent still contains it, and then counts the parent's commits as its own
  (`RecordedBase.UnrecordedSync`, `RecordedBase.TurnKeepsWork`). Over whole runs the row is right exactly
  when the last base stored is that of the last rebase (`ConcurrentSyncs.RecordedBaseIff`).
- A stream resumed after a disconnect is lossless while the backlog past the 1000-row limit of the
  replay holds nothing the client wants (`Sse.ReplayLosesNothingIff`). The limit is applied before the
  type filter. A replay query that fails is passed over in silence.
- `sse.go:20-23` says a client may name its last id in the URL or in the header. The URL wins, so a
  client that reconnects with its original URL is sent again what it wanted in between
  (`Sse.ResumeIsExactIff`). `sse.go:22` also speaks of replay-then-subscribe; the code subscribes first,
  which is what makes the stream lossless.
- `bus.go:131-132` says the tailer cannot deliver an event a second time. It can, between the insert and
  the mark (`ConcurrentEmits.FannedExactly`, `ConcurrentEmits.PolledEmitIsFannedTwice`); connections skip
  the second. An emit overtaken by a later one is not sent by connections that had the later one
  (`ConcurrentEmits.SentUnlessOvertaken`, `ConcurrentEmits.OvertakenEmitIsLost`).
- The tailer delivers another process's event at most once, and not at all if this process emits
  before polling far enough (`EventBus.ExternalDeliveredIff`). A resumed stream does not make up for it
  once the client has seen a later event (`Delivery.LostForGoodIff`).
- A lease excludes others only inside its window. `WithLease` does not renew, so a sync longer than
  five minutes may be joined (`Leases.AloneExactlyInTheWindow`). Exclusion holds exactly for holders
  with distinct ids (`Leases.ExclusiveIffDistinct`).
- `snapshots.go:18` calls sequence numbers dense. They are exactly until a collection deletes a snapshot
  (`Retention.DenseIffNeverThinned`, `Retention.DensityIsLost`). They are never reused by takes that run
  alone; a take that is overtaken may reuse one
  (`Retention.AcceptedIsFreshIff`, `Retention.OvertakenTakeReusesANumber`).
- `gateway/grants.go:72` says the first matching glob of a level wins; the code takes the most
  restrictive (`Gateway.MatchAtLevel`), so the rule holds exactly when no later match of the deciding level
  is stricter (`Gateway.FirstGlobWinsIff`, `Gateway.LaterDenyWins`). Revoking an integration for a container does not reach callers
  with agent-level or role-level grants (`Gateway.RevokedUnlessMoreSpecific`).
- A listed tool can be called by its name only if its integration's name has no underscore
  (`Gateway.ListedToolIsCallableIff`). A removed capability is not listed but is still forwarded or
  held when a grant matches its name (`Gateway.UnknownIffDenied`).
- Deciding a held call does not look at its expiry, and nothing outside the tests calls the sweep that
  would expire it (`Approvals.ApprovableUntilSwept`). A call is executed at most once exactly if the decisions
  that execute it do not overlap (`Approvals.AtMostOnceIff`), and a rejection or sweep that read it as
  pending may still overwrite the row of an executed call (`Approvals.ApprovedIsLostIff`,
  `Approvals.RejectionOverwritesExecuted`, `Approvals.SweepOverwritesExecuted`).
- An applied proposal may show as rejected or stale, exactly when that was written to its row last
  (`Proposals.AcceptedIffWrittenLast`, `Proposals.RejectedThoughApplied`, `Proposals.OutdatedThoughApplied`).
- `contextengine/grants.go:96` says a container always owns its own context; any row that speaks at one of
  its levels decides first (`ContextGrants.OwnerWritesIff`).
- `ids.go:60-63` promises strictly increasing ids. The clock is read before the lock, so a call overtaken
  there by one that read a later millisecond makes an id that sorts before it
  (`Ids.ConcurrentIdsIncreaseIff`, `Ids.OvertakenIdSortsBefore`).
- `ids.go:117` says the first character carries two bits; it carries three, and its digit is at most 7
  (`Ids.BodyIsTheValue`). A prefix with an underscore gives ids that are never well formed
  (`Ids.IdRoundTrip`). `Valid(id, "")` holds exactly for strings that are no id (`Ids.ValidIff`).
- `git worktree add -b` makes the branch before it looks at the path. A create whose slug is taken, as by a
  branch that differs only in an unsafe character, fails with the new branch left behind, and as long as
  only creates run every later one of that branch fails too (`Create.Manager.Create`, `Create.OneSlugTwoBranches`, `Create.LeftBranchBlocks`).
- A failed create leaves the network and the home directory it had made by then, and, when the agent is what
  failed, the announcement event of a container that no longer exists (`Create.Leftovers` says at which
  stages). Agent rows do go, with the container row they refer to.

## Model

| member | source | states |
|---|---|---|
| `Commits.RangeIsExact` | internal/stack/sync.go:141-144 | `base..tip` is exactly the commits reachable from the tip and not from the base, both directions |
| `Commits.WorkIsRange` | internal/stack/sync.go:177-179 | the patches of `base..tip` are those of its commits, one each, in order |
| `Commits.ReplayLands` | internal/stack/sync.go:187-208 | after a replay the new tip reaches the commit it started on, and between the two stand exactly the picked patches in order |
| `StackSync.Git.Rebase` | internal/stack/sync.go:181-201 | `git rebase --onto`: a success puts the branch on the replayed range and nothing else moves; a conflict leaves the branch and marks the rebase as stopped |
| `StackSync.CheckEligibility` | internal/stack/sync.go:92-146 | the first condition that holds decides: rebase in progress, missing parent, drift, up to date, dirty, eligible; the parent's tip, the base and the number of new parent commits are filled in where promised, and nothing changes |
| `StackSync.Sync` | internal/stack/sync.go:153-210 | refuses, stops at a dry run, conflicts or rebases as specified, and in the repository's and the options' own terms: it rebases exactly if nothing is stopped, the parent is there and elsewhere, the branch is on its base, the worktree is clean or has leave, and it is no dry run; a dirty worktree without leave changes nothing; a conflict stays in progress exactly if it is not to be aborted; a success moves this branch alone onto the parent's tip with the same own patches |
| `RecordedBase.SyncKeepsBranches` | internal/stack/sync.go:153-210 | one sync never moves another branch; a success keeps the replayed branch's own work, counted from the new base, equal to what it was from the old one |
| `RecordedBase.TurnKeepsWork` | internal/cli/sync.go:71-125 | one container's uninterrupted turn in the loop, whatever it meets, keeps every container on its base with the same own work, except exactly one whose rebase succeeded and whose new base could not be stored |
| `RecordedBase.SyncedThenUpToDate` | internal/stack/sync.go:204-209 | after a success the stored base is the parent's tip and an ancestor of the branch, and the next check says up to date |
| `RecordedBase.RefusedSyncMovesNothing` | internal/stack/sync.go:159-202 | a sync that does not end in Synced, or finds the lease held, moves no branch, stores no commit and keeps every base |
| `RecordedBase.NaiveRangeReplaysInherited` | internal/stack/sync.go:171-185 | a plain rebase of parent..branch would replay the inherited base commit exactly when the parent no longer contains it; base..branch never does |
| `RecordedBase.UnrecordedSync` | internal/cli/sync.go:100-103 | if the rebase succeeds but the new base is not stored, the container stands on its old base exactly when the parent's tip contains it, and its range has then swallowed what the parent gained |
| `Commits.WorkDeterminesBase` | internal/stack/sync.go:177-179 | two ancestors of a tip have the same patches above them exactly when they are one commit |
| `ConcurrentSyncs.TurnIsItsParts` | internal/cli/sync.go:33-125 | a turn without interruption is the row read, the sync under the lease and the store after it, one after another |
| `ConcurrentSyncs.RebaseKeepsWorkIff` | internal/cli/sync.go:76-104 | a rebase of any process keeps the container's work if and only if the base it read before taking the lease is still the commit the branch stands on |
| `ConcurrentSyncs.StaleBaseEffect` | internal/cli/sync.go:76-104 | from an older base the work becomes the parent's commits in between followed by the container's own; from a newer one it loses its first part |
| `ConcurrentSyncs.KeptThroughoutIff` | internal/cli/sync.go:33-125 | over every interleaving of row reads, syncs, stores, deaths, commits and parent moves, the branch holds at every point what it held plus what the container committed if and only if every rebase of it used a base still current |
| `ConcurrentSyncs.PromptIsCurrent` | internal/cli/sync.go:33-104 | if each rebase starts from the row as recorded with no new base on its way to the store, and none is lost, every base used is current and the row follows the branch |
| `ConcurrentSyncs.RecordedBaseTheorem` | internal/stack/sync.go:92-210 | over every such run, of any number of processes, whenever no new base is on its way to the store the recorded base is an ancestor of the branch and base..branch is what it was plus exactly what the container committed, in order |
| `ConcurrentSyncs.OwnWorkIsWhatWasAuthored` | internal/stack/sync.go:204-208 | from stacking on, base..branch is exactly the container's own commits: nothing lost, doubled or inherited |
| `ConcurrentSyncs.NeverDrifts` | internal/stack/sync.go:109-119 | after such a run a sync does not report drift; only rewriting the branch itself, a stale base or a lost one can cause it |
| `ConcurrentSyncs.UninterruptedIsPrompt` | internal/cli/sync.go:68-125 | syncs of one process that store what they rebase are such a run |
| `ConcurrentSyncs.RecordedBaseIff` | internal/cli/sync.go:100-104 | over every run, stored promptly or not, the range from the recorded base is the container's work on its branch if and only if the last base stored is the commit of the last rebase |
| `ConcurrentSyncs.OverlappingSyncsSwallow` | internal/cli/sync.go:33-104 | two syncs that read the row before either stores, on a parent that only advanced, both succeed, and the container then owns what the parent gained |
| `Cascade.SyncTarget` | internal/cli/sync.go:76-124 | one uninterrupted target of the loop changes repository and row as specified, from the row read before, and reports the outcome and exit code; a held lease, a git error or a base that cannot be stored ends the loop |
| `Cascade.SyncTargets` | internal/cli/sync.go:68-129 | the loop equals the specified pass: every target in order, the last remembered exit code, early end |
| `Cascade.SyncCascade` | internal/cli/sync.go:49-129 | the cascade takes each grounded container once, and everything that reported Synced or UpToDate has converged on its parent's final tip |
| `Cascade.TurnReports` | internal/cli/sync.go:76-129 | the outcome, the rows and the exit code of one turn, written out: a held lease, a git error and a base that cannot be stored end the loop with their codes; conflict and drift set the row's status and their codes |
| `Cascade.PassExit` | internal/cli/sync.go:68-135 | a whole pass exits with the code of the last conflict or drift it met, or the code that ended it early, and otherwise with zero |
| `Cascade.CascadeConverges` | internal/cli/sync.go:59-125 | after one pass parents first, every container whose own sync succeeded stands on its parent's final tip, whatever became of the others and wherever the loop stopped |
| `Cascade.CascadeKeepsWork` | internal/cli/sync.go:71-125 | a whole pass keeps every container of the project on its base with exactly its own work, except exactly the one at which it stopped because a new base could not be stored |
| `Cascade.ConvergedPassIsIdle` | internal/cli/sync.go:71-125 | on a converged project a pass reports UpToDate throughout and changes nothing |
| `Cascade.DryPassChangesNothing` | internal/cli/sync.go:96-98 | a dry run changes neither repository nor rows, whatever git would answer |
| `Cascade.ForestOrderIsParentsFirst` | internal/cli/sync.go:58-65 | the forest order never moves a container's parent branch at or after the container's own turn |
| `Lineage.GroundedUnlessCyclic` | internal/stack/forest.go:63-74 | a parent chain ends if and only if no row is met twice on the way up |
| `Lineage.ChainLengthUnique` | internal/stack/forest.go:65-74 | a parent chain has one length, so a depth is well defined |
| `Forest.SiblingOrderIsUnique` | internal/stack/forest.go:48-53 | siblings with different branches have exactly one sorted order, so the tree does not reshuffle |
| `Forest.SortNodes` | internal/stack/forest.go:59-61 | sorted by branch, a permutation of the input |
| `Forest.AssignDepth` | internal/stack/forest.go:63-74 | every node under the given ones gets its distance below them, nothing else changes, and the walk ends on cyclic data |
| `Forest.BuildForest` | internal/stack/forest.go:25-57 | one node per row; roots are exactly the rows that name no parent or one without a row, the latter flagged as orphans; every other row is a child of exactly the row it names, siblings sorted; depth is chain length |
| `Forest.TopoOrder` | internal/stack/forest.go:81-100 | lists exactly the nodes under the roots, each once, parents before children, on any wired graph, cyclic or not |
| `Forest.Descendants` | internal/stack/forest.go:104-110 | exactly the other nodes under the node, each once, parents first |
| `Forest.Flatten` | internal/stack/forest.go:25-100 | conservation: every row whose chain ends is listed once, parents first; the only rows absent are on or below a cycle |
| `EventBus.Bus.EmitReturning` | internal/events/bus.go:99-135 | an event without type or actor, or one the database refuses, changes nothing; otherwise it is logged under the next id, marked and fanned out, in that order |
| `EventBus.Bus.Fanout` | internal/events/bus.go:139-160 | every live subscriber whose filter asks for the event, in its listed types and in each column it fills in, is offered it once; those that held 256 are dropped and closed; nobody else is touched, in whatever order the set is visited |
| `EventBus.Bus.Subscribe` | internal/events/bus.go:164-172 | a new subscription starts empty, and hears from the next fan-out on |
| `EventBus.Bus.Cancel` | internal/events/bus.go:174-183 | removing a subscription closes its channel once; removing it again does nothing |
| `EventBus.Bus.Replay` | internal/events/bus.go:189-245 | the rows past the id that the columns admit, oldest first, cut at the limit, and only then filtered by type |
| `EventBus.ReplayHoldsIff` | internal/events/bus.go:189-245 | row by row: an event past the id is replayed if and only if it agrees with the filter in type and in every column filled in, and fewer than the limit of the rows between agree in the columns |
| `EventBus.Bus.DrainExternal` | internal/events/tail.go:49-65 | one poll publishes what is past the mark, at most 500, each once |
| `EventBus.DrainDelivers` | internal/events/tail.go:49-76 | a poll fans out exactly the next 500 logged events past the mark, in order, and raises the mark past them |
| `EventBus.Bus.MarkPublished` | internal/events/tail.go:68-76 | the mark only rises, and the answer says whether the id was new |
| `EventBus.NoSilentGap` | internal/events/bus.go:137-183 | after any run a live subscriber's consumed and buffered events are exactly the matching fan-outs since it subscribed; a dropped one holds a prefix; its channel was closed exactly once; no buffer exceeds 256 |
| `EventBus.HeardAsAsked` | internal/events/bus.go:44-62 | over every run, what a subscriber is given carries each column its filter fills in and a listed type, and was fanned out since it subscribed; a live one holds every such event that agrees in all of them |
| `EventBus.DeliveredInOrderOnce` | internal/events/bus.go:139-160 | no subscriber is given an event twice or out of order |
| `EventBus.ExternalDeliveredIff` | internal/events/tail.go:13-65 | an event another process logged reaches the subscribers if and only if enough polls run before this process next emits (or starts tailing); otherwise the raised mark passes it over |
| `EventBus.LocalEventsAreFanned` | internal/events/bus.go:130-134 | an event this process emits is fanned out by the same step |
| `EventBus.LostStaysLost` | internal/events/tail.go:68-76 | an event behind the mark that was not delivered never is |
| `EventBus.FannedStays` | internal/events/tail.go:68-76 | a delivered event stays delivered |
| `EventBus.ReplayWithinLimit` | internal/events/bus.go:185-188 | with no more rows than the limit, a replay is exactly the matching log suffix |
| `ConcurrentEmits.EmitIsItsParts` | internal/events/bus.go:99-135 | an emit without interruption is its insert, its mark and its fan-out |
| `ConcurrentEmits.FannedExactly` | internal/events/bus.go:118-134 | over every interleaving of emits and polls, an event of this process is fanned out twice if the tailer marked it first and otherwise once; one of another process once if the tailer took it and otherwise never |
| `ConcurrentEmits.SentUnlessOvertaken` | internal/api/sse.go:59-80 | a connection given every wanted fan-out sends ids in increasing order, each once, and sends a fanned-out event if and only if no later wanted one was fanned out before it |
| `ConcurrentEmits.OvertakenEmitIsLost` | internal/events/bus.go:118-134 | two emits at once: the later row goes out first, and the earlier event is never sent |
| `ConcurrentEmits.PolledEmitIsFannedTwice` | internal/events/tail.go:57-64 | a poll between an emit's insert and its mark: the event is fanned out twice and sent once |
| `Sse.StreamIsLossless` | internal/api/sse.go:18-23 | over every run of connects, drops and reconnects at the last id seen, with events emitted between any two steps, the client's output is an initial part of the matching log suffix, and all of it once a standing connection has drained; event by event, each one read is the log's own and agrees with the filter in every column it fills in and its types, ids ascend, and none that agrees is left out |
| `Sse.ReplayLosesNothingIff` | internal/api/sse.go:82-91 | every matching event logged so far is sent or waiting after a replay if and only if the backlog rows beyond the limit hold nothing wanted (limit 1000; zero when the query failed or no id was given) |
| `Sse.Handler.Connect` | internal/api/sse.go:40-50 | subscribes before anything is replayed; the id in the URL counts unless it is absent or negative, then the one in the header |
| `Sse.ResumeIsExactIff` | internal/api/sse.go:40-91 | whatever id a client comes back with, in the URL or the header, its output is the matching log suffix without gap or repetition if and only if nothing was sent twice and nothing skipped; within the replay limit, if and only if no wanted event lies between that id and the last one it saw |
| `Delivery.SentIff` | internal/api/sse.go:45-110 | with events of other processes in the log, a drained connection has sent a wanted event if and only if it was logged when the replay ran or was fanned out since |
| `Delivery.LostForGoodIff` | internal/events/tail.go:13-76 | an event of another process is neither sent nor replayed to a client that comes back at its last id if and only if the tailer does not poll far enough before this process next emits and the client has seen a later event |
| `Sse.ReplayKeepsOk` | internal/api/sse.go:45-91 | replaying after subscribing leaves in the channel exactly what comes after the replay, once skipping is counted |
| `Sse.SendNextKeepsOk` | internal/api/sse.go:59-80 | the next event not skipped is the next matching event of the log |
| `Sse.Handler.SendOne` | internal/api/sse.go:60-80 | an event is written exactly when its id is past the last one sent |
| `Sse.Handler.Replay` | internal/api/sse.go:82-91 | the replay loop sends what the query returned, and passes over a failed query |
| `Sse.Handler.Forward` | internal/api/sse.go:96-110 | one turn of the live loop: skip or send the head of the channel, end on a closed and empty one |
| `ContextStore.Engine.Write` | internal/contextengine/engine.go:170-249 | succeeds exactly when the named base is the current version, adding one version row; otherwise reports the current version and content and changes nothing |
| `ContextStore.Engine.Append` | internal/contextengine/engine.go:251-320 | adds the block after the content, with a separating newline only when needed, as the next version |
| `ContextStore.HistoryOnlyGrows` | internal/contextengine/engine.go:170-320 | in every interleaving an item's later history extends its earlier one |
| `ContextStore.WritersReplaceWhatTheyNamed` | internal/contextengine/engine.go:170-249 | no lost update: of two successful writes the later named a newer version; each stands in the history right after the version it named |
| `ContextStore.WriteLands` | internal/contextengine/engine.go:170-249 | a successful write's row stays at its place for good |
| `ContextStore.AppendsAccumulate` | internal/contextengine/engine.go:251-320 | content since the last write is that write followed by every appended block in commit order |
| `ContextStore.JoinAllKeepsBlocks` | internal/contextengine/engine.go:251-320 | no appended block is altered or dropped by later ones, and they stand in order |
| `Proposals.AcceptedWasApplied` | internal/contextengine/proposals.go:169-219 | over every interleaving of decisions, writes, staleness checks and crashes, a proposal marked accepted has its content at version base+1 of its item |
| `Proposals.AcceptedIsWhatWasProposed` | internal/contextengine/proposals.go:44-219 | over every interleaving, an accepted proposal stems from a call that proposed it, and the version after the one that call named holds the content and author it gave |
| `Proposals.AppliedAtMostOnce` | internal/contextengine/proposals.go:169-219 | however many processes decide a proposal, all histories together hold its acceptance once |
| `Proposals.RivalsAreNotBothApplied` | internal/contextengine/proposals.go:140-219 | of two proposals on one item and base version at most one is ever applied |
| `Proposals.OutdatedNeverApplies` | internal/contextengine/proposals.go:140-164 | a proposal marked stale lies behind its item's version for good |
| `Proposals.LastWriteStands` | internal/contextengine/proposals.go:140-206 | over every run a proposal's row shows the last status written to it |
| `Proposals.AcceptedIffWrittenLast` | internal/contextengine/proposals.go:169-206 | a proposal shows as accepted exactly when the last status any decision or read wrote is the acceptance, and then it was applied |
| `Proposals.StaysAcceptedIff` | internal/contextengine/proposals.go:202-206 | an accepted proposal goes on showing as accepted if and only if no rejection that was past its checks writes its status |
| `Proposals.RejectedThoughApplied` | internal/contextengine/proposals.go:169-206 | any decidable proposal is, in some run of two decisions, applied and shown as rejected |
| `Proposals.OutdatedThoughApplied` | internal/contextengine/proposals.go:140-206 | and, in a run where the acceptance dies after its write, applied and shown as stale |
| `Proposals.Desk.Propose` | internal/contextengine/proposals.go:43-78 | a proposal is recorded exactly when the item exists at the named version, open, with the item, version, content and author it was given, and nothing else changes |
| `Proposals.Desk.RefreshStale` | internal/contextengine/proposals.go:140-164 | an open proposal whose item has moved is marked stale, in the row and in the copy; any other is left alone |
| `Proposals.Desk.Decide` | internal/contextengine/proposals.go:169-219 | run without interruption, the decision is the specified run of its statements; in the tables' own terms, a decision in time sets status and decider, accepting also makes the proposed content the next version by its author, and one that is late marks an open row stale or changes nothing |
| `Proposals.UninterruptedRun` | internal/contextengine/proposals.go:169-219 | and that run either finds nothing to do, marks the proposal stale, or decides it, writing exactly one version when accepting |
| `ContextGrants.IsAncestorContainer` | internal/contextengine/grants.go:149-173 | the capped, cycle-guarded walk says yes exactly when the ancestor is 1 to 64 hops above; no early end costs an answer |
| `ContextGrants.CapIsEnough` | internal/contextengine/grants.go:151-173 | with at most 64 containers, cycles or not, the walk equals full reachability |
| `ContextGrants.BestGrant` | internal/contextengine/grants.go:106-133 | the strongest of a level's matching grants, in any row order |
| `ContextGrants.StrongestCounts` | internal/contextengine/grants.go:106-133 | a row counts if it is for this subject, in the item's scope, for its owner or every owner, and fits the key; a level gives the strongest permission that counts |
| `ContextGrants.KeyFits` | internal/contextengine/grants.go:135-147 | which keys a pattern fits, shape by shape |
| `ContextGrants.ResolvePerm` | internal/contextengine/grants.go:51-104 | human, then the first level that says anything, then descent, then ownership, then nothing |
| `ContextGrants.ResolvedUnfolds` | internal/contextengine/grants.go:51-104 | agent, then role, then container, then project; failing these read on what is 1 to 64 hops above and write on one's own; a permission includes the weaker ones |
| `ContextGrants.RowOrderDoesNotMatter` | internal/contextengine/grants.go:106-133 | the decision depends on which rows there are, not on their order |
| `ContextGrants.AllowedIff` | internal/contextengine/grants.go:51-104 | an agent has a permission exactly when a row that speaks at the first of its levels where any does gives it, or when none speaks and descent or ownership gives it |
| `ContextGrants.OwnerWritesIff` | internal/contextengine/grants.go:96-102 | a container may write its own context exactly when no row speaks at any of its levels, or some row that speaks at the first such level has write |
| `ContextGrants.DescendantsReadIff` | internal/contextengine/grants.go:59-94 | another container's context is readable exactly when some row speaks at one of the subject's levels or that container is 1 to 64 hops above; anything more takes a row that gives it at the first level that speaks |
| `ContextGrants.DefaultsDecide` | internal/contextengine/grants.go:175-202 | what the seeded rows come to for every role and every key of a project |
| `Ids.Encode` | internal/ids/ids.go:116-130 | the two-word shift loop yields the 26 base-32 digits of the 128-bit big-endian value |
| `Ids.BodyIsTheValue` | internal/ids/ids.go:116-130 | 26 characters, worth exactly the value, the first digit at most 7 |
| `Ids.Alphabet` | internal/ids/ids.go:42-44 | the alphabet is the digits and the capital letters without I, L, O and U, in ascending order |
| `Ids.LexicographicIsNumeric` | internal/ids/ids.go:118-130 | digit strings of one length compare as the numbers they stand for |
| `Ids.EncodingKeepsOrder` | internal/ids/ids.go:118-130 | encodings sort as the 128-bit values do, and different values encode differently |
| `Ids.IncrementInPlace` | internal/ids/ids.go:76-85 | the carry loop leaves in the array the incremented counter |
| `Ids.IncrementIsPlusOne` | internal/ids/ids.go:76-85 | which is exactly +1 on the 80-bit big-endian counter, wrapping exactly from all ones |
| `Ids.TimeBytesAreTheTime` | internal/ids/ids.go:98-106 | the six leading bytes are the millisecond modulo 2^48, big-endian |
| `Ids.Generator.New` | internal/ids/ids.go:71-114 | prefix, underscore and the encoding of time and counter; within a millisecond the counter goes up by one modulo 80 bits, in a new one it starts from the drawn bytes, or from the time when randomness fails |
| `Ids.NextIsGreater` | internal/ids/ids.go:69-96 | the next id is greater if and only if the clock moved on, or stood still and the counter had room |
| `Ids.IdsStrictlyIncrease` | internal/ids/ids.go:71-96 | over any run of locked sections in which the milliseconds never go down and no counter wraps, every later id of a prefix sorts strictly after every earlier one |
| `Ids.ConcurrentIdsIncreaseIff` | internal/ids/ids.go:66-96 | under a clock that never goes back, any number of overlapping calls make ids in increasing order if and only if no call enters the lock after one that read a later millisecond, and no counter wraps |
| `Ids.OvertakenIdSortsBefore` | internal/ids/ids.go:69-71 | whenever the clock ticks between two calls' reads and the later reader takes the lock first, the ids come out in the wrong order |
| `Ids.Time` | internal/ids/ids.go:163-178 | a well-formed id gives the leading 50 bits as milliseconds, a malformed one nothing |
| `Ids.IdRoundTrip` | internal/ids/ids.go:132-178 | prefix and time are recovered for every millisecond below 2^48 if and only if the prefix has no underscore |
| `Ids.PrefixRoundTrip` | internal/ids/ids.go:132-142 | the prefix is recovered exactly, and nothing is when it contains an underscore |
| `Ids.TimeRoundTrip` | internal/ids/ids.go:163-178 | the millisecond an id was made in is recovered exactly |
| `Ids.ValidIff` | internal/ids/ids.go:132-149 | for a real prefix it accepts exactly the well-formed ids that carry it; for the empty prefix exactly the strings that are no id |
| `GoStrings.BeforeIsStrictOrder` | internal/stack/forest.go:59-61 | string comparison is a strict total order |
| `Leases.MutualExclusion` | internal/store/leases.go:49-109 | over any run of acquires, renewals, releases, crashes and ticks, with clocks read before their transactions, at most one holder is inside its granted window, and the row is its own |
| `Leases.NobodyOustsTheHolder` | internal/store/leases.go:71-139 | nothing another process does, late or not, changes the row of a holder inside its window |
| `Leases.TakeoverIff` | internal/store/leases.go:82-97 | after any wait an attempt gets the container exactly when there is no row, the row is corrupt, or the clock has reached its expiry |
| `Leases.AloneExactlyInTheWindow` | internal/store/leases.go:152-168 | a body run under a lease is joined by another exactly when it has outlived its window |
| `Leases.ExclusiveIffDistinct` | internal/store/leases.go:41-109 | processes about to start exclude each other in every run if and only if no two share a holder id |
| `Leases.ReleasesAreSafeIffDistinct` | internal/store/leases.go:111-119 | and exactly then no release, however late, drops the lease of another inside its window |
| `Leases.LeaseTable.AcquireLease` | internal/store/leases.go:53-109 | refused exactly while an unexpired readable row stands, with its holder; otherwise the row becomes the caller's; a zero duration means five minutes, a negative one is already over |
| `Leases.LeaseTable.ReleaseLease` | internal/store/leases.go:115-119 | deletes the row exactly if it is the holder's, and no other row |
| `Leases.LeaseTable.RenewLease` | internal/store/leases.go:122-137 | extends the row exactly if it is the holder's, and says so |
| `McpClient.DecimalInjective` | internal/mcp/client.go:115-118 | different counters have different id texts |
| `McpClient.DecimalReadsBack` | internal/mcp/client.go:114-119 | the text of an id reads back as its number, in digits without a leading zero |
| `McpClient.OwnResponseOnly` | internal/mcp/client.go:92-160 | over every interleaving, a call that returns an answer returns one with its own id, and no two calls return the same response |
| `McpClient.ReaderNeverBlocks` | internal/mcp/client.go:92-100 | the channel the reader is about to send on is always empty; each sees at most one send |
| `McpClient.NothingPendingAfterReturn` | internal/mcp/client.go:121-125 | once every call has returned, nothing is registered |
| `McpClient.AnswersExactlyItsCall` | internal/mcp/client.go:84-160 | reading a line, sending it and receiving answers a waiting call if and only if the line carries that call's id |
| `McpClient.StdioClient.Enter` | internal/mcp/client.go:114-119 | a fresh id and an empty registered channel |
| `McpClient.StdioClient.Leave` | internal/mcp/client.go:121-125 | unregisters, then returns what the call had in hand |
| `McpClient.StdioClient.HandleLine` | internal/mcp/client.go:79-101 | one turn of the read loop, which always comes back to reading: a frame whose id is registered is sent to that call alone and unregistered, any other line is passed over |
| `McpClient.RingBuffer.Add` | internal/mcp/client.go:258-274 | the buffer holds exactly the last n lines added |
| `Create.Manager.Create` | internal/runtime/manager.go:150-346 | succeeds exactly when no stage breaks and nothing needed is taken, and then the world is as promised, with both its events; the row's base is the tip of the start ref, or of the parent where none is given, and a missing one fails the create with nothing changed; a failure at any stage compensates in reverse and restores branches, worktrees, rows, agents and runtime objects if and only if no cleanup it relied on fails and the worktree command has not left the new branch, and otherwise leaves exactly what could not be cleaned up, besides the network and home made by then and the announcement |
| `Create.SuccessInFull` | internal/runtime/manager.go:150-346 | what a success needs and makes, field by field in the caller's terms: branch, worktree, row, agent, runtime object, network, home and events |
| `Create.FailureInFull` | internal/runtime/manager.go:150-346 | why a create fails at its stage, in the caller's terms, and which compensations then run in which order |
| `Create.FailsAtTheFirst` | internal/runtime/manager.go:150-346 | a create fails at the first stage that cannot be: no stage before it was broken and nothing those stages need was taken |
| `Create.FailureLeaves` | internal/runtime/manager.go:184-341 | what a failure leaves of branch, worktree, row, agents and runtime object: each made by then is there exactly if its own cleanup failed, and everything else is as it was |
| `Create.FailureKeeps` | internal/runtime/manager.go:150-346 | at which stages network, home directory and announcement are left |
| `Create.UnwindRestoresIff` | internal/runtime/manager.go:184-191 | unwinding whatever a create has acquired gives back the original exactly when none of the cleanups fails |
| `Create.UnwindRemains` | internal/runtime/manager.go:184-191 | of what a create had acquired, each thing is still there exactly if its own cleanup failed |
| `Create.Manager.Rollback` | internal/runtime/manager.go:186-191 | runs the compensations from the last to the first, each once |
| `Create.Manager.Abort` | internal/runtime/manager.go:233-262 | the rollback after a failed stage restores or not as stated, and leaves networks, homes and events alone |
| `Create.Manager.AddWorktree` | internal/gitx/worktree.go:31-45 | makes branch and worktree if both are free; if the branch exists nothing changes; if only the path is taken it fails and the new branch stays |
| `Create.Manager.StartAgent` | internal/runtime/manager.go:596-648 | row, session, status and event of the agent, in that order; a failure leaves at most the row, which goes with the container's |
| `Create.Slugify` | internal/runtime/manager.go:134-148 | a slug has 1 to 60 safe characters, begins with neither a dash nor a dot, and ends with neither unless it was cut at 60 |
| `Create.SafeNamesAreSlugs` | internal/runtime/manager.go:134-148 | a name of at most 60 characters without a dash or dot at its ends is its own slug exactly when all its characters are safe |
| `Create.SlugsCollide` | internal/runtime/manager.go:134-148 | a run of unsafe characters, however long, and one dash give one slug |
| `Create.NothingToKeep` | internal/runtime/manager.go:134-148 | a name of dashes, dots and unsafe characters only is called container |
| `Create.OneSlugTwoBranches` | internal/gitx/worktree.go:31-45 | after a create of `x-y`, a create of `x/y` fails at its worktree and leaves its branch behind |
| `Create.CreatesKeepBranches` | internal/runtime/manager.go:150-346 | no create, whatever becomes of it, removes or moves a branch that was there |
| `Create.TakenBranchFails` | internal/runtime/manager.go:150-211 | a create of a branch that is there fails at its worktree at the latest and changes nothing |
| `Create.LeftBranchBlocks` | internal/gitx/worktree.go:31-45 | over every run of creates, a branch left behind makes each later create of it fail at its worktree at the latest, under whatever slug |
| `Retention.SnapshotStore.GC` | internal/runtime/snapshot/retention.go:47-90 | equals the specified collection, stopping with a partial report at the first deletion that fails |
| `Retention.SnapshotStore.SweepOne` | internal/runtime/snapshot/retention.go:62-88 | one container's snapshots visited newest first, each kept with its reason or deleted and counted |
| `Retention.CollectSpares` | internal/runtime/snapshot/retention.go:41-46 | no collection, dry or stopped half way, loses a labelled, referenced or newest-N snapshot; the newest stays newest |
| `Retention.CollectKeepsExactly` | internal/runtime/snapshot/retention.go:67-87 | when no deletion fails, what stays is exactly what is protected, in order |
| `Retention.StaysIff` | internal/runtime/snapshot/retention.go:41-90 | snapshot by snapshot in the policy's own terms: what is among the newest 10 or keep_last, labelled or referenced stays whatever fails; of the covered rest nothing stays unless the run only looks or is stopped |
| `Retention.ReportSays` | internal/runtime/snapshot/retention.go:62-88 | a run that is not stopped reports every snapshot of its containers once, deleted, or kept for the first of the three reasons that applies |
| `Retention.BytesAddUp` | internal/runtime/snapshot/retention.go:62-88 | stopped or not, the bytes reported as freed and the bytes left add up to what was there |
| `Retention.DryRunForetells` | internal/runtime/snapshot/retention.go:76-80 | a dry run deletes nothing and reports the same ids, reasons and bytes as the real run |
| `Retention.SecondRunDeletesNothing` | internal/runtime/snapshot/retention.go:47-90 | a second run with the same policy deletes nothing and frees nothing |
| `Retention.SnapshotStore.NextSnapshotSeq` | internal/store/snapshots.go:20-28 | one more than the largest number in use, or one |
| `Retention.TakeIsFresh` | internal/store/snapshots.go:16-48 | after any run of takes and collections, a take that runs alone is given a number never used before |
| `Retention.AcceptedIsFreshIff` | internal/store/snapshots.go:30-48 | a take whose row is accepted has a fresh number if and only if the number is still the next one when the row is written |
| `Retention.OvertakenTakeReusesANumber` | internal/runtime/snapshot/engine.go:76-79 | a take overtaken by two others and a collection writes a row under a deleted snapshot's number |
| `Retention.SweepDenseIff` | internal/runtime/snapshot/retention.go:62-88 | after a collection over one container, dry, complete or stopped, its numbers are dense if and only if they were and nothing was deleted: it was a dry run, or the first unprotected snapshot, if any, could not be deleted |
| `Retention.CollectOkIff` | internal/runtime/snapshot/retention.go:60-90 | a collection meets no failing deletion exactly when no container it covers has an unprotected snapshot whose deletion would fail |
| `Retention.CollectDenseIff` | internal/runtime/snapshot/retention.go:47-90 | a whole collection leaves a container's numbers dense if and only if they were and it does not come to that container and delete from it |
| `Retention.DenseIffNeverThinned` | internal/store/snapshots.go:18-28 | over every run of takes, overlapping or not, and collections, numbers are dense throughout if and only if no collection deletes a snapshot of the container; in the end they are dense if and only if every number given out is on the shelf |
| `Retention.OneCollectionThins` | internal/store/snapshots.go:18-19 | any reachable container with an older snapshot without a label loses density to one more collection |
| `Retention.DensityIsLost` | internal/store/snapshots.go:18-19 | two takes and a collection that keeps one leave only number two |
| `Gateway.MatchAtLevel` | internal/gateway/grants.go:100-142 | the strictest of the matching rows, a deny at once, naming the first pattern that says so; a row matches if its glob is a star or the pattern matcher takes the glob for the name; there is no match exactly if no row does |
| `Gateway.Resolve` | internal/gateway/grants.go:77-98 | the most restrictive match at the most specific level that matches, otherwise deny; by default exactly when no row for the caller's agent, role, container or project has a glob that is a star or fits the name |
| `Gateway.LevelSays` | internal/gateway/grants.go:100-151 | row by row: a level denies if a fitting row denies, allows if all fitting ones allow, says nothing if none fits, and asks for approval otherwise |
| `Gateway.FirstMatchDecidesIff` | internal/gateway/grants.go:100-142 | at one level the decision is the first match's if and only if no later match is stricter |
| `Gateway.FirstGlobWinsIff` | internal/gateway/grants.go:67-98 | the decision is the documented one, the first match at the first level that has one, if and only if no later match of that level is stricter |
| `Gateway.LaterDenyWins` | internal/gateway/grants.go:72 | two project rows, allow and then deny: documented as allow, decided as deny |
| `Gateway.DecisionIgnoresRowOrder` | internal/gateway/grants.go:104-142 | the decision depends on which rows there are, not on their order |
| `Gateway.DecisionUnfolds` | internal/gateway/grants.go:78-97 | agent before role before container before project, and deny when none speaks |
| `Gateway.RevokedUnlessMoreSpecific` | internal/gateway/grants.go:196-205 | revoking an integration for a container denies its callers unless an agent-level or role-level grant speaks first |
| `Gateway.SeedGrants` | internal/gateway/grants.go:153-194 | the rows written are exactly the project rows and the worker rows for medium and high risk |
| `Gateway.SeededDecision` | internal/gateway/grants.go:153-160 | what those rows come to for every caller, role and risk |
| `Gateway.ToolsFor` | internal/gateway/gateway.go:248-294 | sorted by name, the native tools and once each exactly the registered, not removed tools the caller is not denied |
| `Gateway.Cut` | internal/gateway/approvals.go:382-389 | splits at the first separator, and says when there is none |
| `Gateway.CallTool` | internal/gateway/gateway.go:323-369 | native, unknown, held or forwarded, by the integration before the first underscore and the grants |
| `Gateway.AnswerIsUnique` | internal/gateway/gateway.go:323-369 | a call has one answer |
| `Gateway.ListedToolIsCallableIff` | internal/gateway/gateway.go:284-368 | calling a listed tool reaches the same integration and capability in the same mode if and only if the integration's name has no underscore and is not `aurium` |
| `Gateway.UnknownIffDenied` | internal/gateway/gateway.go:346-350 | a call on a well-named integration is answered as unknown exactly when it is denied, registered or not |
| `Approvals.ExecutedAsAsked` | internal/gateway/approvals.go:50-62 | however decisions overlap, an executed call has the integration, capability and arguments it was asked for |
| `Approvals.ExecutedWasRequestedAndApproved` | internal/gateway/approvals.go:51-257 | over every run, whatever overlaps, an executed call was requested with that integration, capability and arguments, and a decision approved its id |
| `Approvals.DecideIsItsParts` | internal/gateway/approvals.go:153-197 | a decision without interruption is its row read, its update and its execution |
| `Approvals.AtMostOnceIff` | internal/gateway/approvals.go:148-197 | over every run of decisions, sweeps and deaths a held call is executed at most once if and only if no decision that comes to execute it reads it as pending while another that comes to execute it is still in hand |
| `Approvals.AtMostOnce` | internal/gateway/approvals.go:148-197 | with decisions and sweeps one at a time, a held call executes at most once, and only if its row then says approved |
| `Approvals.LastWriteStands` | internal/gateway/approvals.go:153-282 | over every run a call's row shows in the end the last status written, whoever wrote it |
| `Approvals.ApprovedIsLostIff` | internal/gateway/approvals.go:153-282 | over every run an approved call, executed or not, goes on showing as approved if and only if no rejection that had read it as pending makes its update and no sweep that had selected it makes its own |
| `Approvals.RejectionOverwritesExecuted` | internal/gateway/approvals.go:154-171 | any pending call of a connected integration is, in some run, executed and then shown as rejected |
| `Approvals.SweepOverwritesExecuted` | internal/gateway/approvals.go:258-282 | any overdue one is, in some run, executed and then shown as expired |
| `Approvals.OverlappingDecisionsExecuteTwice` | internal/gateway/approvals.go:154-171 | any pending call of a connected integration meets such an overlap in some run, and is then executed twice |
| `Approvals.ApprovableUntilSwept` | internal/gateway/approvals.go:153-197 | an undecided call can be approved and executed, however overdue, if and only if no sweep ran after its expiry |
| `Approvals.Desk.RequestApproval` | internal/gateway/approvals.go:51-64 | holds the call as it was made, pending, for thirty minutes |
| `Approvals.Desk.RequestManualApproval` | internal/gateway/approvals.go:97-114 | holds an action that is no tool call; an empty one is refused |
| `Approvals.Desk.Decide` | internal/gateway/approvals.go:153-214 | decides exactly a pending call with a known decision, setting its status and decider, and executes it, as stored, exactly on approval while its integration is connected |
| `Approvals.Desk.ExpireStale` | internal/gateway/approvals.go:258-306 | run without interruption, marks exactly the pending calls whose expiry lies before now, and counts them |
| `Inbox.StatusMovesForward` | internal/ipc/ipc.go:248-397 | over every run no message is lost or altered and its status only moves queued, delivered, acked |
| `Inbox.AckedIff` | internal/ipc/ipc.go:373-397 | over every run a message becomes acknowledged if and only if some acknowledgement names it |
| `Inbox.UnackedComesBack` | internal/ipc/ipc.go:243-322 | over every run of sends, reads and acknowledgements an outstanding message stays in the queue of everybody it is for if and only if no acknowledgement names it, and the next read hands it over if and only if fewer than the limit stand before it |
| `Inbox.RereadHandsOverTheSame` | internal/ipc/ipc.go:243-247 | read again at once, an inbox hands over the same messages in the same order |
| `Inbox.DrainsExactly` | internal/ipc/ipc.go:248-397 | with no new sends, k rounds of reading and acknowledging empty the inbox if and only if k times the limit reaches the number outstanding; by then each was handed over once, high priority first, older first |
| `Inbox.MessageBus.Inbox` | internal/ipc/ipc.go:248-322 | hands over the first of the queue, twenty by default, and marks exactly those delivered; each names the asking agent or container, or a human where a human asks, and with fewer than the limit nothing that does is left |
| `Inbox.HandsOverInTurn` | internal/ipc/ipc.go:252-286 | a read hands over only what awaits this recipient, at most the limit and all of it if it is less, nothing before what comes sooner by priority and age |
| `Inbox.MessageBus.Ack` | internal/ipc/ipc.go:373-397 | acknowledges exactly the named messages and counts those that were outstanding |
| `Inbox.MessageBus.Send` | internal/ipc/ipc.go:132-178 | accepts exactly well-formed messages with something but white space in them; approval requests and blocked reports also go to a human |
| `Inbox.TrimSpace` | internal/ipc/ipc.go:136-138 | trimming leaves nothing exactly of what is all Unicode white space, and otherwise no space at either end |
| `Inbox.MessageBus.History` | internal/ipc/ipc.go:331-371 | the newest part of an agent's conversation, oldest first, delivering nothing |
| `Inbox.RecentInFull` | internal/ipc/ipc.go:331-371 | exactly the newest of what the agent sent and was sent, in the order written |
| `Inbox.ReverseInPlace` | internal/ipc/ipc.go:367-369 | the array reversed |

## Left out

- ConcurrentSyncs.RecordedBaseTheorem: does not cover a rebase continued by hand after a conflict, because nothing then updates the recorded base; merge commits, autostash contents and commits that become empty are outside the linear history.
- ConcurrentSyncs.KeptThroughoutIff: takes the leased part of a sync as one step, because no other sync runs git in that worktree while the lease lasts (how long it does is `Leases.AloneExactlyInTheWindow`); an agent's own commit takes no lease, and one that falls between the check and the rebase is outside the statement.
- StackSync.CheckEligibility: does not model the plan, the reason and the conflicted files of a result, because they are text for people.
- StackSync.Git.Rebase: does not model which patches conflict, because that is git's answer; it is a parameter, as is any other git failure.
- Cascade.SyncTargets: does not interleave with other processes, because `ConcurrentSyncs` does that for one container at a time; a status update that fails is not modelled, because the loop ignores it.
- EventBus.NoSilentGap: does not interleave inside one emit or one drained event, because the order of ids fails there; what holds then is `ConcurrentEmits.FannedExactly` and `ConcurrentEmits.SentUnlessOvertaken`. A fan-out itself is one step: a cancel during it, which can send on a closed channel, is not modelled.
- Sse.StreamIsLossless: does not cover events of another process that the tailer passes over, because such events are fanned out late or never; what becomes of them is `Delivery.SentIff` and `Delivery.LostForGoodIff`. Emits are one step each; what overlapping ones cost a live stream is `ConcurrentEmits.SentUnlessOvertaken`.
- ContextStore.Engine.Write: does not model deleting and recreating an item under the same reference, because items are identified by their reference; permission checks and change notifications are left to `ContextGrants` and left out.
- Proposals.Desk.Decide: does not exclude a rejection overtaking an acceptance in progress, because the status updates are unguarded; when that shows is `Proposals.StaysAcceptedIff`.
- Ids.ConcurrentIdsIncreaseIff: does not cover a clock that goes back or one past 48 bits, because order fails there exactly as `Ids.NextIsGreater` says.
- Leases.MutualExclusion: does not model several containers at once, because a claim touches only its own container's row (`Leases.LeaseTable` states that); time is an integer, not text.
- McpClient.OwnResponseOnly: does not model the exit explanation (`internal/mcp/client.go:169-186`) or wrap-around of the 64-bit counter, because neither affects which answer a call gets.
- Create.Manager.Create: does not model what is inside a stage that fails half way, but for the branch of `git worktree add -b`, the role default, or what a hook does outside the new branch, because each driver or git call is taken to happen or not; ids handed out by the generator and the driver are parameters.
- Retention.SnapshotStore.GC: does not model the git refs and archives of a snapshot, because a deletion is one action that succeeds or fails; the set of referenced snapshots is a parameter and is read once, so a fork made during a collection is not seen.
- Gateway.SeededDecision: does not cover names with pattern characters, because such a name as a pattern matches other names too; `path.Match` is a parameter throughout.
- Approvals.AtMostOnce: does not cover decisions of one approval that overlap, because it is false for them; the exact condition is `Approvals.AtMostOnceIff`.
- Inbox.DrainsExactly: does not model equal creation times, because the query leaves their order open; messages are kept in creation order.
- Running git, docker, tmux and the agent programs, HTTP and CLI surfaces, the dashboard: input and output only.
- SQL text, migrations and cascade rules beyond the deletion of a container's agents: tables are maps and sequences.
- Comparison of RFC 3339 timestamps as text, where trimmed zeros break time order: times are integers.
- Full-text search, pricing, credentials, configuration, descriptors and argument building: no protocol in them.
- Message side effects, nudges and dependency notices: they would add only small independent cases.
- `Restore`, fork and stack lineage, worktree trees of snapshots: file and git effects around the protocols modelled here.
