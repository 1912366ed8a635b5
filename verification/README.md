# novaque in Dafny

novaque is an at-least-once topic-to-channel queue kept in SQL tables. A publish
stores one message and one delivery row for every channel that its topic has at
that moment. Consumers claim due rows under a lease, and ack or requeue them
with the lease token. Background passes return expired leases, purge expired
rows and flush counters.

This project models that machinery and proves what it promises. The main
results hold for every interleaving of any number of processes, or for every
input of an operation.

## How the model is built

- `Tables`, `Statements`: the rows, and what each SQL statement or single
  transaction does to them, as total functions. A guard that matches no row, or
  a violated foreign key, leaves the database as it was.
- `Protocol`: the whole cluster as a state machine. Every commit of any process
  is one event, and `Run` folds any finite sequence of events. Operations that
  are not one transaction are split: a purge's orphan SELECT and its DELETE are
  two events, and recording, draining, landing (with or without a reply),
  dropping and discarding counters are events of their own.
- `Invariants`, `RowLife`, `Identity`, `LeaseSafety`, `NoLoss`, `Ledger`,
  `Flow`, `FlowRuns`: what every reachable state and every run keeps.
- `Sorting`, `Polling`, `ClaimAssembly`, `Clusters`, `SqliteClaim`: the SQLite
  claim as code, a retry loop over a shared mutable `Cluster` in which other
  processes commit between its statements. `SetLease` has the MySQL and
  Postgres claims.
- `Finishing`, `Maintenance`: ack, requeue and purge as code over the same
  cluster, with lost replies and interleaved commits.
- `FlushSink`, `FlushStats`, `StatsUpkeep`: the counter buffer, its batched
  flush, the write order and the batched prune. `ClusterFlush` runs the same
  flush inside the cluster, as protocol events.
- `Discards`, `EarlySweeps`: topic and channel deletes as code, with the
  unguarded sweep of the buffer after the cascade, and when that sweep is safe.
- `EnsureCache`, `SelfHeal`: the caching store and the publish that heals a
  stale cache.
- `ConsumerPipeline`: poller, handlers and bounded channel under every schedule.
- `Witnesses`: runs that reach the states in which a hoped-for property fails.
- `DeadPaging`, `BacklogCounts`, `Delay`: dead-letter paging, backlog counts,
  delay and TTL arithmetic.

## Assumptions

- Row ids are never reused (AUTOINCREMENT) and lease tokens never repeat; the
  database remembers every issued token in `issued`.
- Each SQL statement is atomic, and so is each transaction. The database clock
  is arbitrary but never goes back.
- Foreign keys are those of `driver/sqlite/schema.sql`: deleting a message
  deletes its deliveries; deleting a channel or topic that is still referenced
  fails.
- Counter equalities count a mutation's deltas from its commit on, also while
  they are on their way to `recordStat`; a process that dies in between loses
  them, as in the source.
- Integers are unbounded, except in the dead-letter lookup, where 64-bit
  wrap-around is what matters.

## Where the code differs from its documentation

- A claim polls and leases on two clock readings. A polled row that expires in
  between is not leased, so the batch can be shorter than a one-clock claim's:
  `ExpiryMidClaimShortensBatch` has the input, `LateLeaseIsAtomicIff` the
  exact condition, and `LateLeaseIsPrefix` shows that a claim never skips ahead
  in the queue.
- `CachingStore.EnsureChannel` ensures the topic before the inner store looks at
  the channel name. With a bad channel name it leaves a new topic behind, or
  reports the topic name instead of the channel name. `AgreeIff` and `InStepIff`
  state exactly when it agrees with the uncached store.
- `loadDeadDelivery` says that its cursor wraps into "no bound" at the largest
  64-bit id. The SQL treats only zero as no bound, so that row is not found
  (`LookupFindsExactlyTheDead`).
- A publish without TTL, with an absolute expiry in the past and less than a
  second of delay passes validation although no claim can ever see its row
  (`ValidationIsTheClaimWindow`, `AcceptedWithoutWindow`).
- The requeue counter also counts revived dead rows, so the flow equations
  carry the number of revivals separately.
- DeleteTopic and DeleteChannel accept ids that do not exist, and sweep the
  buffer after the cascade without looking again. If another goroutine creates
  that very id in between, the sweep takes counters of something alive.
  `TopicSweepIsSafeIff` and `ChannelSweepIsSafeIff` state that a delete is safe
  exactly if the id had been handed out when its cascade ran; `EarlyTopicDelete`
  and `EarlyChannelDelete` build the failing run for every other id.
- An upsert that commits and loses its reply is merged back and lands again.
  `FlushConserves`, `CountersAreConserved` and `RowsAreWhatTheCountersSay` carry
  exactly that surplus; `TidyRowsAreTheCounters` has the plain equations for
  runs without such upserts and without early sweeps.

## Model

| member | source | states |
|---|---|---|
| Delay.ValidationIsTheClaimWindow | store/delay.go:45-71 | Validation accepts exactly the delays in range whose stored row has available_at before expires_at, plus the already expired publishes it never looks at |
| Delay.AcceptedWithoutWindow | store/delay.go:45-71 | A concrete accepted publish without a claim window |
| Delay.VerdictIgnoresClock | store/delay.go:45-71 | Unless an absolute expiry decides, the verdict is the same on every clock |
| Delay.ClientPublishHasClaimWindow | client.go:619-633 | With the TTL and attempt limit filled from the client's options, its host-clock check agrees with the driver's check, and what it lets through has a claim window on the database clock |
| Delay.DurationSec | store/delay.go:26-32 | At least one second, otherwise the whole seconds of the duration |
| Delay.DelaySec | store/delay.go:36-41 | Whole seconds, never negative |
| Statements.Fanout | driver/sqlite/publish.go:110-118 | One row per channel of the fan-out under consecutive new ids, with exactly the contents a new delivery has |
| Invariants.TopicCascade | driver/sqlite/admin.go:401-423 | Under referential integrity the child-first cascade never hits a foreign key, because a topic's messages own every delivery of its channels; the result is exact table by table |
| Invariants.ChannelCascade | driver/sqlite/admin.go:429-446 | A channel cascade never aborts and changes only that channel's deliveries, statistics and row |
| Invariants.MessageNeverRegainsDelivery | driver/sqlite/maintenance.go:127-168 | No event of any process gives a delivery to a message that has none |
| Invariants.InvStep | driver/sqlite/claim.go:186-279 | Every event keeps referential integrity, row shapes, token uniqueness, name uniqueness and the safety of orphan selections |
| Invariants.EveryReachableStateIsSound | driver/sqlite/schema.sql:3-45 | Every state of every run from a migrated database is sound: attempts and lease columns fit the status, message and channel of a delivery share a topic, tokens are unique |
| RowLife.RowStep | driver/sqlite/claim.go:341-392 | For every event and row, exactly what the row becomes; rows appear only by publish, under ids never used before |
| RowLife.OrphanDeleteSparesDeliveries | driver/sqlite/maintenance.go:157-168 | The unguarded orphan delete cascades no delivery away, whatever ran since its SELECT |
| LeaseSafety.HoldersShrink | driver/sqlite/claim.go:186-197 | Over any run no other row ever gets an issued token |
| LeaseSafety.TokenIsSpentAtMostOnce | driver/sqlite/claim.go:341-392 | In any run a token authorises at most one ack or requeue |
| LeaseSafety.StaleTokenIsInert | driver/sqlite/claim.go:341-392 | Once a row has left its lease in any way, its old token never changes any row again |
| LeaseSafety.HeldLeaseIsUnchanged | driver/sqlite/claim.go:186-197 | As long as a row is under the same token it is unchanged, over any run |
| LeaseSafety.ValidLeaseIsExclusive | driver/sqlite/maintenance.go:22-33 | While the clock has not passed lease_until, an event changes the row if and only if it finishes it with its own token or deletes its topic or channel |
| LeaseSafety.LeasedRowIsUntouchable | driver/sqlite/maintenance.go:91-98 | The same over whole runs: the row stays exactly as it was, whatever reaps, purges and claims interleave |
| LeaseSafety.ReturnedAtMostMaxAttempts | driver/sqlite/claim.go:260-279 | Without a revival, a delivery is returned at most as often as its attempt limit still allows, over any run; `SqliteClaim.HandedOutIffReturned` ties "returned" to what Claim hands out |
| LeaseSafety.ReturnedAgainAfterLeaseEnd | driver/sqlite/claim.go:186-197 | One delivery is returned by two claims of a run only if in between its holder requeued it under the first token, or it was reaped after that lease had run out |
| LeaseSafety.ClaimsNeverShareTokens | driver/sqlite/claim.go:186-197 | No two claims of a run return the same token, so no pair of delivery and token comes twice |
| NoLoss.RowGoesOnlyForAReason | driver/sqlite/maintenance.go:88-98 | A row disappears if and only if it is acked under its token, purged after its expiry, deleted while dead, or its topic or channel is deleted |
| NoLoss.EveryLossHasAReason | driver/sqlite/maintenance.go:51-126 | For every row missing after a run, the step of that run that removed it for such a reason |
| NoLoss.RowLivesUntilExpiry | driver/sqlite/maintenance.go:51-126 | A row nobody asks to remove, and its message, stay until the row's expiry, whatever purges are running |
| NoLoss.RevivedRowGetsItsFreshTTL | driver/sqlite/admin.go:309-359 | A revived row and its message live for the whole fresh TTL, even if a purge had selected the row before |
| NoLoss.HandedBackIsClaimable | driver/sqlite/claim.go:363-392 | A requeued, reaped or revived row can be polled exactly from the requeue time (or now) to its expiry; only a revival resets expiry and attempts |
| NoLoss.PublishedIsClaimable | driver/sqlite/publish.go:69-118 | A new row is claimable exactly from the end of its delay to its expiry, in a channel of its topic |
| NoLoss.TopicDeleteIsComplete | driver/sqlite/admin.go:401-423 | Nothing refers to a deleted topic, no other topic's row moves, integrity is kept |
| NoLoss.ChannelDeleteSparesSiblings | driver/sqlite/admin.go:429-446 | A channel delete touches no message and no sibling delivery |
| DailyStats.LandedUpsert | driver/sqlite/stats.go:234-266 | An upsert adds exactly the given coordinates' deltas to what the SUM over days reads |
| Ledger.CountersAreConserved | driver/sqlite/stats_foundation.go:30-46 | For a live, unpruned channel every event moves a counter (table plus all buffers) by exactly what it records; buffering, draining, merging back and landing change nothing; a discard sweep loses exactly what it finds, and an upsert without a reply adds exactly what it landed |
| Flow.StepFlow | driver/sqlite/claim.go:96-104 | Every event moves a channel's pending, in_flight and dead counts exactly as its counters and the uncounted moves say |
| FlowRuns.RowsAreWhatTheCountersSay | driver/sqlite/publish.go:139-149 | After any run of any number of processes: rows = publish - ack - purge, and the flow equation of each status, with every counter corrected by what sweeps took from it while the channel lived and what lost replies added |
| Identity.IdsOverRun | driver/sqlite/sqlite.go:140-151 | Over any run a topic id keeps its name, is never reused, and goes only when the topic of that name is deleted; a channel id keeps its topic and name |
| Identity.CascadeBuries | driver/sqlite/admin.go:401-446 | After a cascade its coordinates are dead |
| Identity.DeletedStaysDeleted | driver/sqlite/admin.go:401-446 | A coordinate that a cascade made dead stays dead in every run |
| Discards.DiscardTopicStats | driver/sqlite/stats.go:47-55 | The range-and-delete loop drops exactly the topic's keys, alive or not, for every map order |
| Discards.DiscardChannelStats | driver/sqlite/stats.go:59-67 | The same for a channel's keys |
| Discards.DeletedTopicIsDead | driver/sqlite/admin.go:401-423 | Every coordinate of a topic id that had been handed out when its cascade ran is dead after any run that follows |
| Discards.DeletedChannelIsDead | driver/sqlite/admin.go:429-446 | The same for a channel id |
| Discards.Admin.DeleteTopic | driver/sqlite/admin.go:401-423 | Cascade, foreign commits, sweep, in that order in the log; if the id had been handed out when the cascade ran, every delta the sweep deletes is of something that no longer exists |
| Discards.Admin.DeleteChannel | driver/sqlite/admin.go:429-446 | The same for a channel |
| Discards.TidyRunHasNoDrift | driver/sqlite/stats.go:47-67 | In every run whose sweeps follow a cascade of an id handed out by then, and whose upserts got their replies, no live counter is ever corrected |
| Discards.TidyRowsAreTheCounters | driver/sqlite/publish.go:139-149 | In every such run the plain equations hold: rows = publish - ack - purge, and those of each status |
| Discards.PlainEquationIff | driver/sqlite/publish.go:139-149 | In any run at all rows = publish - ack - purge if and only if the corrections of the three counters cancel out |
| EarlySweeps.EarlyTopicDelete | driver/sqlite/admin.go:401-423 | From every reachable state and for every topic id not yet handed out: a run between cascade and sweep after which the buffer holds a publish of a live channel of that topic |
| EarlySweeps.EarlyChannelDelete | driver/sqlite/admin.go:429-446 | The same for every channel id not yet handed out |
| EarlySweeps.EarlySweepLosesOne | driver/sqlite/stats.go:47-67 | The sweep then leaves the live counter one short |
| EarlySweeps.TopicSweepIsSafeIff | driver/sqlite/admin.go:401-423 | Whatever runs in between, the sweep of a topic delete takes nothing from anything alive, if and only if the id had been handed out when the cascade ran |
| EarlySweeps.ChannelSweepIsSafeIff | driver/sqlite/admin.go:429-446 | The same for a channel delete |
| Sorting.SortIsUnique | driver/sqlite/claim.go:133-142 | ORDER BY over two columns has one result |
| Polling.PollLists | driver/sqlite/claim.go:133-142 | A poll returns ready rows of the channel, each once, within the limit |
| Polling.LateLeaseIsPrefix | driver/sqlite/claim.go:171-197 | However far the clock moves between poll and lease, the leased rows are a prefix of what a poll at the lease clock returns |
| Polling.LateLeaseIsAtomicIff | driver/sqlite/claim.go:171-197 | They equal that poll if and only if the polled rows still ready fill the limit, or every row ready at the lease had been polled |
| Polling.FullBatchIsAtomic | driver/sqlite/claim.go:171-197 | A full batch none of whose rows expires in between is the one-clock claim |
| Witnesses.ExpiryMidClaimShortensBatch | driver/sqlite/claim.go:171-197 | A run from a migrated database to a state in which an expiry between poll and lease makes a claim come back empty although a row is ready |
| ClaimAssembly.KeepPollOrder | driver/sqlite/claim.go:201-220 | For every RETURNING order, the leased ids in poll order |
| ClaimAssembly.SortOut | driver/sqlite/claim.go:244-268 | For every order of the body rows: exactly the poisoned ids, and exactly the deliverable rows |
| ClaimAssembly.Assemble | driver/sqlite/claim.go:201-286 | For every RETURNING and body order the result is the poll order minus unleased and poisoned rows |
| Clusters.VersionPinsRows | driver/sqlite/claim.go:127-132 | While the file version has not moved, every row is as the snapshot showed it |
| Clusters.Cluster.Sound | driver/sqlite/schema.sql:3-45 | The shared database object is always in a sound state |
| Clusters.TraceIsRun | driver/sqlite/claim.go:127-132 | The n-th state of the trace is what the first n events of the log lead to |
| SqliteClaim.TwoUpdatesAreOneClaim | driver/sqlite/claim.go:186-279 | The lease update and the bury update of one transaction make one atomic claim |
| SqliteClaim.LeaseAndAssemble | driver/sqlite/claim.go:166-292 | The body of the transaction: fresh distinct tokens, exact counts, the atomic claim's tables and its batch in order |
| SqliteClaim.Store.RunClaimTx | driver/sqlite/claim.go:118-292 | One attempt returns exactly the result its environment and its two states call for: busy if and only if begin or poll met a locked file, or something was polled and the file has moved or is locked; broken if and only if begin, poll or lease fails otherwise; a success, empty or not, is one atomic claim; only a lease commits anything |
| SqliteClaim.Store.Claim | driver/sqlite/claim.go:66-113 | At most ten attempts, each as its environment and the states it met call for, all but the last busy; a success is one atomic claim in the state the last attempt met, an empty answer an atomic claim that finds nothing; a failing begin, poll or lease (a context cancelled from the start among them) ends the call; giving up takes exactly ten busy attempts; the log holds the foreign commits and that one claim with its recording; never more rows than the limit |
| SqliteClaim.ClaimFits | driver/sqlite/claim.go:70-72 | A claim never returns more than its limit |
| SqliteClaim.ClaimIsQueuePrefix | driver/sqlite/claim.go:133-220 | What a claim leases is, in order, a prefix of the queue at the lease clock |
| SqliteClaim.HandedOutIsSound | driver/sqlite/claim.go:186-286 | Every handed out delivery was pending, due and unexpired at the lease clock, is under its attempt limit and carries a token no row ever had |
| SqliteClaim.HandedOutIffReturned | driver/sqlite/claim.go:244-286 | An id is in the answer of a claim if and only if its event returns that delivery |
| SqliteClaim.HandedOutTwiceOnlyAfterLeaseEnd | driver/sqlite/claim.go:66-113 | One delivery is in the answers of two claims of a run only if its first lease was requeued or reaped in between, and the second answer carries another token |
| SetLease.LeasePerId | driver/mysql/claim.go:68-90 | The guarded update per id, each with its own clock reading, leaves exactly what one joined update with those entries means, and claims the pending ids in poll order |
| SetLease.SetUpdateIsUnique | driver/postgres/claim.go:82-121 | The joined UPDATE has one outcome whatever order the engine visits rows in |
| SetLease.LeaseAtOnce | driver/postgres/claim.go:82-135 | The VALUES-table update leases every polled row still pending under its own token and returns exactly those |
| SetLease.ClaimMySql | driver/mysql/claim.go:68-159 | The MySQL transaction meets the common claim specification |
| SetLease.ClaimPostgres | driver/postgres/claim.go:82-210 | The Postgres transaction meets the same specification, for every RETURNING and body order |
| SetLease.ClaimsAgree | driver/postgres/claim.go:82-89 | With the same tokens and clock readings both leave the same rows and hand out the same deliveries in the same order |
| SetLease.ClocksMatterIff | driver/mysql/claim.go:70-80 | Leases with different clock readings agree if and only if the readings of the ids still pending agree |
| Finishing.FinishStep | driver/sqlite/claim.go:341-392 | A held lease is finished and its token spent; any other finish changes no table |
| Finishing.SpentForever | driver/sqlite/claim.go:341-392 | A spent token holds no lease after any run |
| Finishing.Worker.Finish | driver/sqlite/claim.go:341-392 | One call: it changes its row if and only if it arrives while the lease is held, and succeeds if and only if the reply also returns |
| Finishing.Worker.FinishWithRetry | client.go:920-934 | Up to three tries, stopping exactly at the first success or after a try whose deadline has passed; the tries that changed the row are those that reached the database while the lease was held, at most one; a reported success is that one; the log holds just these statements and one recording |
| Maintenance.CountPurged | driver/sqlite/maintenance.go:104-125 | The RETURNING loop yields the number of deleted rows and per channel exactly the deleted rows |
| Maintenance.Maintainer.PurgeExpired | driver/sqlite/maintenance.go:51-170 | The four statements with interference in between: each SELECT takes a full batch of what is eligible then, oldest first; the DELETE removes, counts and records exactly the rows still purgeable; the orphan delete removes exactly the selected messages and no delivery |
| Maintenance.RowKeepsChannel | driver/postgres/maintenance.go:66-78 | Over any run a row id keeps its channel |
| Maintenance.SelectAttributionOvercounts | driver/postgres/maintenance.go:60-127 | Attribution from the SELECT records the deleted rows plus exactly the selected rows that escaped the DELETE |
| Maintenance.ReapRecheckSparesNewLeases | driver/postgres/maintenance.go:26-49 | A row the reaper selected and that is under a valid lease at the update is under another lease, and stays as it is; one still under the selected lease goes back to pending |
| Maintenance.RecheckMattersIff | driver/postgres/maintenance.go:26-49 | An update by id alone would agree with the rechecking one if and only if every selected row left is still expired or already looks reaped |
| Witnesses.UncheckedReapTakesAValidLease | driver/postgres/maintenance.go:28-33 | A run in which a selected row is requeued and claimed again, the recheck leaves the new lease alone, and an update by id alone would take it |
| FlushSink.WriteOrderLists | driver/sqlite/stats.go:106-111 | The write order lists every coordinate once, ascending by topic and channel |
| FlushSink.Coalesce | driver/sqlite/stats.go:95-105 | For every map order: one row per coordinate holding exactly its buffered deltas |
| FlushStats.ReadPage | driver/sqlite/stats.go:181-224 | A page finds exactly the coordinates whose channel row, or topic row for the sentinel, exists |
| FlushStats.Compact | driver/sqlite/stats.go:125-133 | The in-place filter keeps exactly the live coordinates in order and deletes the others' counts |
| FlushStats.StatsStore.RecordStat | driver/sqlite/stats_foundation.go:36-46 | A valid key gains the delta, every other key keeps its value, and no key appears but that one |
| FlushStats.StatsStore.LiveStatsCoords | driver/sqlite/stats.go:177-228 | Each coordinate is live exactly if the tables had its row when its page was read |
| FlushStats.StatsStore.SendBatches | driver/sqlite/stats.go:139-171 | Exactly the batches before the first failing statement land, and the batch of the failing one exactly if it reached the database |
| FlushStats.StatsStore.FlushStats | driver/sqlite/stats.go:78-172 | For every failing statement, with or without effect, and every concurrent recordStat: each coordinate lands, comes back, or is dropped; two of these (landed and came back) exactly for the batch of an upsert that reached the database and lost its reply; dropped are exactly the dead ones; what comes back sorts after what landed for good |
| FlushStats.FlushConserves | driver/mysql/stats.go:91-156 | Landed + buffered + dropped per key is unchanged by a flush, apart from what others recorded or landed meanwhile, and grows once more by the deltas of exactly the batch that landed without a reply |
| StatsUpkeep.EveryBatchAscends | driver/mysql/stats.go:119-128 | Whatever was filtered out, every batch a flush sends is ascending in the one write order |
| StatsUpkeep.NoWaitCycle | driver/mysql/stats.go:101-124 | Flushes that lock rows in one order never wait in a circle |
| StatsUpkeep.SomeWriterProceeds | driver/mysql/stats.go:101-124 | Among any overlapping flushes one can always go on |
| StatsUpkeep.UnorderedWritersCanDeadlock | driver/mysql/stats.go:101-106 | Two flushes without the common order that block each other |
| StatsUpkeep.FlushAfterCascadeSendsNothing | driver/sqlite/stats.go:113-133 | A flush whose liveness pages see states after the cascade sends nothing of the coordinate and drops it, and its sums grow by nothing of this flush |
| StatsUpkeep.StatsPruner.PruneStats | driver/sqlite/stats.go:353-380 | Whatever other flushes write between its statements, the batched delete is one unbounded delete at the day boundary of its last statement, with the same total and the exact number of statements |
| ClusterFlush.EveryKeyIsKnown | driver/sqlite/stats_foundation.go:36-39 | In every reachable state every buffered key passes the guard of recordStat |
| ClusterFlush.LandStep | driver/sqlite/stats.go:139-157 | The multi-row upsert of a batch is the protocol event that lands its coordinates |
| ClusterFlush.EchoStep | driver/sqlite/stats.go:139-171 | An upsert that commits and loses its reply adds the batch to the table and leaves it in the map of the flush |
| ClusterFlush.Flusher.LandBatches | driver/sqlite/stats.go:139-171 | Inside the cluster, with foreign commits in between: exactly the batches before the first failing statement land for good, one event each; the failing one lands without leaving the map exactly if it reached the database |
| ClusterFlush.DeadNow | driver/sqlite/stats.go:117-133 | A coordinate found dead by its page is still dead when the read is over |
| ClusterFlush.Flusher.FlushStats | driver/sqlite/stats.go:78-172 | A whole flush is a sequence of protocol events: swap, drop of what was found dead, one landing per batch, with or without a reply, and the way back after a failure; its map is empty at the end |
| ClusterFlush.FlushSkipsDeleted | driver/sqlite/stats.go:69-77 | A flush that starts after a resource was deleted lands none of its deltas, whatever happens while it runs |
| EnsureCache.After | driver/sqlite/sqlite.go:140-171 | Every operation of the uncached store keeps the database invariant |
| EnsureCache.SweepHitsOneTopic | store/cached.go:40-47 | A prefix sweep for any name hits exactly the channel keys of that topic |
| EnsureCache.KeyNamesOnePair | store/cached.go:45-47 | No other pair of names shares the key of two valid names |
| EnsureCache.Sweep | store/cached.go:228-238 | The range-and-delete loop drops exactly the keys under one of the prefixes |
| EnsureCache.DropTopicId | store/cached.go:219-226 | Drops exactly the names of the id and remembers their prefixes |
| EnsureCache.DropChannelId | store/cached.go:280-287 | Drops exactly the keys of the id |
| EnsureCache.CachingStore.EnsureTopicId | store/cached.go:57-67 | Answers and changes the tables as the uncached store would |
| EnsureCache.CachingStore.EnsureChannelId | store/cached.go:73-88 | Agrees with the uncached store if and only if the channel name is valid or the topic exists; what it does otherwise |
| EnsureCache.CachingStore.RemoveTopicById | store/cached.go:218-240 | Agrees with the uncached delete and leaves no stale entry |
| EnsureCache.CachingStore.RemoveChannelById | store/cached.go:244-247 | Agrees with the uncached delete and leaves no stale entry |
| EnsureCache.CachingStore.Evict | store/cached.go:267-276 | No entry for the name or any channel under it is left |
| EnsureCache.CachingStore.ExecuteAll | store/cached.go:53-88 | Any sequence of operations gives answers and tables that depend on the tables alone, never on what is memoized |
| EnsureCache.AgreeIff | store/cached.go:73-88 | One operation of the cached and the uncached store agrees if and only if it does not ensure a bad channel name under a missing or bad topic |
| EnsureCache.InStepIff | store/cached.go:53-88 | Over a whole sequence the two stores give the same answers and hold the same tables after every operation if and only if that holds of every operation |
| EnsureCache.BadChannelNameCreatesTopic | store/cached.go:73-88 | The concrete call on which cached and uncached store differ |
| SelfHeal.Client.EnsureTopic | store/cached.go:57-67 | A hit asks nobody; a miss returns the live id; it finds no row only if the name is not in the table, because the topic of this very name was deleted between its insert and its read |
| SelfHeal.Client.Send | driver/sqlite/publish.go:41-151 | The publish transaction refuses, aborts with no change if and only if the topic is gone, or stores the message with one delivery per channel; the log shows the transaction and the recording of its counters |
| SelfHeal.Client.Publish | client.go:614-659 | The log of the whole call: the inserts of its cache misses, the pauses, at most two publish transactions, and one recording; the first uses the memoized id, the second the id live after healing; only the last can land, in a state where its id is the live topic of the given name, and the others met a state without their topic; the live id is then cached and after a heal no channel entry of the name is left; a valid publish succeeds unless the topic of this name is deleted inside an EnsureTopic or between re-Ensure and retry |
| ConsumerPipeline.InvHolds | client.go:741-874 | The pipeline invariant holds under every schedule |
| ConsumerPipeline.PollerNeverBlocks | client.go:811-864 | The poller never waits for a full channel, and held + queued + handled never exceeds twice the handlers |
| ConsumerPipeline.WaitEndsDrained | client.go:785-808 | The wait group reaches zero only when the queue is drained; then every sent delivery was dispatched once, in order, and finished |
| ConsumerPipeline.NothingDispatchedTwice | client.go:867-874 | What is claimed once is dispatched at most once; a claimed delivery is a pair of row and token, and `ClaimsNeverShareTokens` has no pair come twice |
| ConsumerPipeline.CancelledRunShrinks | client.go:811-874 | After cancel every move of any goroutine brings the end nearer |
| ConsumerPipeline.CancelledRunMoves | client.go:811-874 | After cancel some goroutine can always move until all have returned |
| ConsumerPipeline.ShutdownTerminates | client.go:785-874 | After a cancel any schedule of moves is at most as long as the remaining work, and one that cannot go on has brought the wait group to zero with everything sent finished |
| DeadPaging.ListDeadIsPage | driver/sqlite/admin.go:243-275 | A page lists the newest eligible dead rows, newest first, up to the limit or its default; an invalid channel is refused |
| DeadPaging.LoadDeadList | admin/dead.go:169-198 | Older is offered exactly when an eligible row is not on the page; then the page is full and the cursor is the last row shown |
| DeadPaging.WalkOlder | admin/dead.go:169-198 | Following Older ends, whatever the table does meanwhile; ids strictly descend; every row dead throughout is shown |
| DeadPaging.LookupFindsExactlyTheDead | admin/dead.go:200-221 | The lookup finds a row if and only if it is dead in the channel and not the largest 64-bit id |
| DeadPaging.LookupMissesTheLargestId | admin/dead.go:200-221 | A sound database with a dead row that the lookup misses |
| BacklogCounts.ChannelBacklog | driver/sqlite/stats.go:309-337 | The four counts of one channel are the sizes of the sets of rows they name |
| BacklogCounts.GroupByChannel | driver/sqlite/admin.go:72-78 | The grouped pass has a bucket for exactly the channels with rows, each with that channel's counts |
| BacklogCounts.Backlogs | driver/sqlite/admin.go:72-95 | Exactly one row for each channel with deliveries, in channel order, with the counts ChannelBacklog reports |
| BacklogCounts.BacklogsForTopic | driver/sqlite/admin.go:101-126 | Exactly the rows of Backlogs whose channel belongs to the topic |
| BacklogCounts.ReadyIsWhatAClaimLeases | driver/sqlite/stats.go:303-313 | Ready is the number of rows an unlimited claim leases at that clock; a smaller limit is filled |

## Left out

- HTTP handlers, templates, JSON shapes, authentication and heat maps: display and plumbing.
- SQL text, placeholders, Migrate, version and pragma checks, error codes: statements are modelled by their effect, errors as abstract outcomes.
- Logging, tickers, jitter, back-off times and option defaults: they appear as arbitrary schedules or parameters.
- Row locks of MySQL and Postgres: SKIP LOCKED is not modelled; their claims start from any distinct list of polled ids.
- MySQL and Postgres lease guards in the protocol: `ClaimRows` uses SQLite's guard, which also rechecks the time window; the other drivers recheck only the status.
- MySQL and Postgres Ack and Requeue, whose attribution is read before the update: only the SQLite form with RETURNING is modelled.
- A flush whose upsert races a cascade after the liveness read: the source does not promise it; only flushes that begin after the delete are covered.
- InvalidateTopicID: unused by the client, and it does not keep the cache's invariant.
- Concurrent Ensure and Delete calls on one cache: the source leaves these races open.
- Start and Shutdown bookkeeping of Client and Consumer (mutex, duplicate Start, wait deadline).
- Names are compared as strings of characters; the length limit counts characters, which for valid names is the same as bytes.
- ConsumerPipeline.PollerNeverBlocks: takes it from `SqliteClaim.ClaimFits` that Claim returns no more rows than its limit.
- StatsUpkeep.StatsPruner.PruneStats: an endless stream of day changes during one call is excluded by a bound on the cutoffs, because the loop then need not end.
