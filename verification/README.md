# GeoQuerry backend: a verified model

This project models the stateful core of the GeoQuerry backend in Dafny and proves what it keeps over whole runs.
`dafny verify dfyconfig.toml` checks all of it.

* **Offline sync** (`SyncTypes`, `Conflict`, `Validation`, `Lww`, `SyncStore`, `SyncPush`, `LwwJoin`, `SyncIntegrity`,
  `RoundTrip`, `PullView`, `PullRun`, `PullBound`, `PullProgress`). Devices push batches; each entity is upserted under
  last-write-wins with the constraints of the schema (primary keys, UNIQUE natural keys, foreign keys); a borehole and
  its lithology log are one transaction. Clients pull deltas by cursor. `Lww` gives one write as a function on values, `SyncStore` and
  `SyncPush` are the mutable store and service proved against it, and `PullRun` is the protocol as a step system in
  which anybody's commits land between any two of a pull's seven statements.
* **Telemetry hub** (`HubModel`, `Hub`, `HubRun`, `Streams`). Members, bounded subscriber queues that refuse the newest
  snapshot when full, and the two-stage reaper that edits its maps while ranging over them. `Hub` is the class with its
  history in ghost fields, `HubModel` its specification on values, `HubRun` the invariants, `Streams` the connected
  handlers around it.
* **Migrations** (`Migration`, `MigrationRun`). One instance's loop, and any number of instances that start together,
  fail and crash anywhere, under a session advisory lock.
* **Ownership** (`Tenancy`). Creation and transfer of organizations; the role read and the transaction of a transfer are
  separate steps.

What the environment decides is a parameter: clock readings, the point at which a statement fails, the order of map
iteration, the answer of a query among those its SQL allows, freshly minted ids. A `Fault` is a statement that fails for
a reason outside the schema (a lost connection, a text too long for its column). An id is a `Ref`: the raw text and what
UUID parsing makes of it.

## Where the code and its documentation differ

* `backend/internal/sync/service.go:4-11` says the cursor is the previous pull's timestamp, lines 90-92 of the same file
  that the client stores the push timestamp for its next pull. Such a cursor is as good as the last pull's if and only
  if it is the same or still inside the overlap after the epoch (`PullBound.CursorIsSafeIff`); otherwise rows are lost
  (`PullBound.PushTimestampAsCursorLosesRows`).
* `backend/internal/sync/store.go:190-196` promises that a borehole never appears with half its log. That holds of the
  stored tables (`LwwJoin.StoredIsCarried`), not of a pull, whose two statements are not one snapshot
  (`PullBound.PullTearsABorehole`); the condition and the repair are `PullRun.TornCopiesAreSentAgain`.
* `backend/internal/sync/service.go:238` reads any early cursor as "give me everything". A cursor within the overlap of
  the 64-bit minimum wraps around and returns nothing instead (`PullBound.ReturnsEverythingWhen`).
* `backend/internal/db/db.go:148-186` works on pool connections while the lock connection stays checked out, and the
  configuration admits a pool of one: such an instance takes the lock and never proceeds
  (`MigrationRun.CompletesIffTwoConnections`).
* `backend/internal/telemetry/hub.go:115-118` speaks of a lagging client catching up on the latest snapshot; a full
  queue drops the latest one (`HubRun.FullQueueMissesTheTeam`). A stream is up to date exactly when its queue had room
  for the latest broadcast, or an older snapshot happens to look the same (`HubRun.StreamIsCurrentIff`).
* `backend/internal/db/db.go:112-114` only logs a failed unlock and returns its connection to the pool with the lock. An
  instance that has returned still holds the lock exactly when its unlock failed (`MigrationRun.HoldsAfterReturnIff`);
  the others then wait until that session ends (`MigrationRun.FailedUnlockIsReached`, `FailedUnlockBlocks`).
* `backend/internal/db/tenant_tx.go:32` gives SET LOCAL a bind parameter, which PostgreSQL does not accept in a statement
  of that kind. Where it is refused, every transfer ends in the failure `AtSetLocal` of `Tenancy.Service.FinishTransfer`
  and changes nothing; what is proved of successful transfers holds wherever the setting is accepted.
* `backend/internal/tenant/service.go:36`, 140, 202 and 211 use a table organization_members, at 140 with a column
  joined_at. The migrations that the backend applies create organization_memberships without that column
  (`backend/internal/db/migrations/000002_organizations_and_audit.sql:23-31`); the other name exists only in
  `database/migrations`. On the former schema every such statement fails: a role read as the parameter `broken`, an
  insert as the fault `AtSecond`. What is proved of successes holds on the latter.

## Model

| member | source | states |
|---|---|---|
| `Validation.ValidLatLngIsTheBox` | `backend/internal/sync/service.go:367-378` | A coordinate pair is accepted exactly when both are finite and inside [-90, 90] x [-180, 180]. |
| `Conflict.EveryErrorRejects` | `backend/internal/sync/conflict.go:84-109` | Whatever error a statement reports, the entity is rejected, each kind of error with its own reason. |
| `Lww.InvalidExactlyWhen` | `backend/internal/sync/service.go:141-202` | An entity is refused as invalid if and only if it has a defect, listed kind by kind on its fields: a missing or unparsable id, station id or interval id, an empty code where the kind has one, a foreign project, coordinates outside the box, an interval upside down. |
| `Lww.VerdictExactlyWhen` | `backend/internal/db/migrations/000001_init.sql:80-192` | The verdict on an entity without defects in terms of the stored tables: stale if the stored row is newer or equal, otherwise duplicate if another row of its table has the code under the same parent or an interval id is taken, no parent if the station or project is missing, otherwise accepted. |
| `Lww.WhatIsWritten` | `backend/internal/sync/store.go:70-275` | An accepted entity stores its own row column by column and leaves every other row and every other borehole's log alone. |
| `SyncStore.Store.ExecLww` | `backend/internal/sync/store.go:287-296` | The guarded upsert statement on the mutable tables reports (applied, wasInsert, error) and leaves the rows that the statement's specification gives: no row returned when the stored one is newer or equal, error and no change otherwise when a constraint fails. |
| `SyncStore.Store.UpsertPlain` | `backend/internal/sync/store.go:70-188` | Station, measurement, sample and vegetation upserts: new tables and verdict are those of the specified single statement. |
| `SyncStore.Store.UpsertBorehole` | `backend/internal/sync/store.go:197-275` | Header, DELETE and the batch of interval INSERTs in one transaction: new tables and verdict are those of the specified transaction; a stale guard, or a failure at begin, upsert, delete, any insert or commit leaves header and log untouched. |
| `SyncStore.InsertLogFails` | `backend/internal/sync/store.go:246-266` | One failing interval INSERT fails the whole batch, whatever follows it. |
| `Lww.InsertLogAddsTheList` | `backend/internal/sync/store.go:246-266` | An inserted log adds exactly its listed intervals, all under distinct ids, next to the untouched rest of the interval table. |
| `Lww.ReplacedLog` | `backend/internal/sync/store.go:246-271` | After an accepted borehole its log is the list of that very write and every other borehole's log is as before. |
| `Lww.StepEffect` | `backend/internal/sync/store.go:229-275` | A write that is stale or rejected changes nothing; an accepted one changes its own row, and for a borehole its own log, and only if it was newer, collided with nothing and had its parent. |
| `Lww.StatusIsExact` | `backend/internal/sync/conflict.go:64-109` | SYNCED, OVERWROTE and STALE classify absent, older and newer-or-equal stored rows; the guard is decided before any other constraint; a fault-free unguarded write is refused exactly for a natural-key collision, a missing parent or an interval-id clash; every refusal, faults inside and at the end of the borehole transaction included, carries the reason of the first statement that fails. |
| `Lww.InsertLogClashes` | `backend/internal/sync/store.go:246-266` | The interval inserts hit the primary key if and only if an id repeats in the list or is already stored. |
| `Lww.RunGrows` | `backend/internal/sync/store.go:70-188` | Over any run of writes no row disappears and no stored stamp falls. |
| `SyncPush.Service.PushEntity` | `backend/internal/sync/service.go:141-202` | One entity from validation to verdict is one step of the specification, reported under the id the client sent. |
| `SyncPush.Service.PushEach` | `backend/internal/sync/service.go:95-119` | The loop over one list of the batch is the run over its writes in order, one result per entity in order. |
| `SyncPush.Service.PushSyncQueue` | `backend/internal/sync/service.go:74-139` | A malformed project id fails the request and writes nothing. Otherwise the batch is the run over stations, measurements, samples, vegetation, boreholes; each result list answers its input list in length, order and id with the run's verdicts; success if and only if nothing was rejected. |
| `SyncPush.Service.NothingRejected` | `backend/internal/sync/service.go:125-136` | The scan over the five result lists is true exactly when none of them holds a rejection. |
| `SyncPush.ConcatStages` | `backend/internal/sync/service.go:95-119` | Pushing list after list equals one run over the flattened batch, in tables and in verdicts. |
| `SyncPush.BatchInOrder` | `backend/internal/sync/service.go:95-119` | Each entity of the batch is written exactly once, for its own table, in the order of its list, stations first and boreholes last. |
| `LwwJoin.HolderHolds` | `backend/internal/sync/store.go:70-188` | Over any run, rejections included: each row is the initial one if no accepted write beats it, otherwise the first accepted write with the greatest stamp. |
| `LwwJoin.LastWriteWins` | `backend/internal/sync/conflict.go:10-20` | The stored entity, a borehole with its whole log, is the one carried by the first non-rejected write among those with the greatest stamp. |
| `LwwJoin.StoredIsCarried` | `backend/internal/sync/store.go:190-275` | In every reachable state every stored entity and every stored log is exactly what one single non-rejected write carried: no header with another write's intervals. |
| `LwwJoin.JoinIgnoresOrder` | `backend/internal/sync/conflict.go:10-20` | Two rejection-free runs over the same edits, permuted, interleaved or repeated, end in the same database if no row has two different newest edits. |
| `LwwJoin.SameEndIffLeadersAgree` | `backend/internal/sync/conflict.go:10-20` | Exactly when order matters: two such runs end in the same database if and only if, row by row, the first of the newest edits stores the same in both. |
| `LwwJoin.TiesKeepTheFirst` | `backend/internal/sync/store.go:16-19` | Once a write was not rejected, an equally old or older one for its row, at any later point of any run, is stale and changes nothing. |
| `LwwJoin.OrderShowsInTies` | `backend/internal/sync/store.go:16-19` | Two different newest edits of a station with one stamp do end differently in the two orders. |
| `LwwJoin.NoResurrection` | `backend/internal/db/migrations/000001_init.sql:11-14` | A stored tombstone is replaced only by a strictly newer write, over any stretch of any run. |
| `LwwJoin.AcceptedStays` | `backend/internal/sync/store.go:287-305` | A write that was not rejected leaves its row at least as new as itself at every later point of the run. |
| `LwwJoin.RetryIsStale` | `backend/internal/sync/service.go:121-124` | Sending an accepted edit again at any later point of any run changes nothing and reports STALE. |
| `LwwJoin.RePushIsNoOp` | `backend/internal/sync/service.go:74-139` | A push without rejections, repeated after any other writes, changes no table and reports STALE for every entity, repeated ids included. |
| `LwwJoin.RejectionsDoNotInterfere` | `backend/internal/sync/conflict.go:79-82` | Leaving the rejected entities out of a run gives the same database and the same verdicts for all others. |
| `LwwJoin.ParentStays` | `backend/internal/sync/service.go:70-73` | Once a station write was not rejected, no later child naming it is refused for a missing parent. |
| `LwwJoin.BatchBringsItsParents` | `backend/internal/sync/service.go:95-119` | If no station of a batch is rejected, no child of the batch naming one of them is refused for a missing parent. |
| `SyncIntegrity.StepKeepsIntegrity` | `backend/internal/db/migrations/000001_init.sql:80-192` | Each write keeps: children name stored stations, stations and boreholes known projects, natural keys are unique, stored rows passed validation, intervals belong to stored boreholes and are not upside down. |
| `SyncIntegrity.RunKeepsIntegrity` | `backend/internal/sync/service.go:320-362` | The same in every state reachable from an empty database, with any rejections and faults. |
| `RoundTrip.PushThenPull` | `backend/internal/sync/store.go:314-349` | Whatever select contains an accepted entity shows it column by column as it was pushed, and a station or borehole comes out under exactly the project of its batch. |
| `RoundTrip.PushThenPullLog` | `backend/internal/sync/store.go:455-541` | The log nested under an accepted borehole is the pushed one, interval by interval and no more. |
| `PullView.SinceWindow` | `backend/internal/sync/service.go:236-239` | The window starts at the cursor minus the overlap, at 0 exactly for cursors from the 64-bit minimum plus the overlap up to the overlap, and far in the future when the subtraction wraps. |
| `PullView.TwoMinutesBefore` | `backend/internal/sync/service.go:45` | In numbers: 120000 ms before the cursor, 0 up to there, and wrapped around within 120000 of the 64-bit minimum. |
| `PullView.SelectIsTheDelta` | `backend/internal/sync/store.go:314-455` | A select lists, oldest first and each once, exactly the rows of the project stamped at or after the bound; a child belongs to the project of its station. |
| `PullView.IntervalSelectIsTheLogs` | `backend/internal/sync/store.go:503-510` | The interval select lists, by depth, exactly the intervals of the project's boreholes stamped at or after the bound. |
| `PullView.BuildIndex` | `backend/internal/sync/store.go:519-524` | The map from id to position finds every listed id and nothing else. |
| `PullView.AttachIntervals` | `backend/internal/sync/store.go:500-541` | Attaching intervals through the index equals the quadratic filter, also when there is no header. |
| `PullView.AttachChildren` | `backend/internal/sync/service.go:266-286` | Attaching children through the index equals filtering the flat list per station. |
| `PullView.PullProjectData` | `backend/internal/sync/service.go:221-299` | A malformed project id is refused; one failing statement fails the pull, except that the interval select is not run without headers; otherwise the response carries the watermark read before the queries as its timestamp, the flat lists as answered, the three nested views and the boreholes with their logs. |
| `PullView.SelectCounts` | `backend/internal/sync/service.go:272-286` | Nesting keeps every matching child with its multiplicity and nothing else. |
| `PullView.SelectPositions` | `backend/internal/sync/service.go:272-286` | Nested children appear in the order of the flat list. |
| `PullView.NestedExactlyOnce` | `backend/internal/sync/service.go:211-220` | A child is nested exactly once if its station is in the delta and nowhere otherwise. |
| `PullView.AttachedLogIsTheLog` | `backend/internal/sync/store.go:503-540` | Each borehole in a response has exactly the log the interval query saw, sorted by depth, without repetition. |
| `PullRun.MergeHoldsTable` | `backend/internal/sync/service.go:35-45` | After a merge, the client's part of each table is exactly the project's rows as that table's query saw them. |
| `PullRun.NextKeepsInv` | `backend/internal/sync/service.go:232-264` | Every step (commits of others between any two statements included) keeps: whatever a client lacks lies in the window of its next pull, and nothing it holds is ahead of the server. |
| `PullRun.OthersAct` | `backend/internal/sync/service.go:141-202` | The environment of a pull is free: any push commits at any point, the office stores what it enters under a known project unless another license has the code, and a pull may be given up. |
| `PullRun.TimelyArrives` | `backend/internal/sync/service.go:35-45` | A write at most the overlap after its stamp that moves nothing between projects falls into every window opened so far. |
| `PullRun.PullIsComplete` | `backend/internal/sync/service.go:208-264` | Over every run in which nothing the client knows leaves its project and whatever the project gains lies in the window its table is read with next, each completed pull leaves the client with exactly the project's rows of each table as its query saw them, tombstones included, and each log as seen by the header or the interval query. Runs with commits at most the overlap after their stamp and entities that stay in one project are of that kind. |
| `PullRun.NothingFallsBehind` | `backend/internal/sync/service.go:35-45` | At every moment of such a run every entity of the project is held in its present version, log included, or will be selected by the next pull. |
| `PullRun.QuietPullConverges` | `backend/internal/sync/service.go:4-11` | A pull with no commit in between makes the client equal to the project. |
| `PullRun.TornCopiesAreSentAgain` | `backend/internal/sync/store.go:460-541` | A client's borehole pairs a row with another edit's log exactly when it was in the delta and its log changed between the two statements; then the next pull selects it again. |
| `PullProgress.AnswersExist` | `backend/internal/sync/store.go:314-541` | Whatever databases the seven statements of a pull have read, there is an answer of the kind their SQL allows, so every pull can be completed. |
| `PullProgress.OnePullCatchesUp` | `backend/internal/sync/service.go:4-11` | From every moment between two pulls of a run that kept to the condition, one uninterrupted pull exists and makes the client equal to the project, logs included. |
| `PullBound.ReturnsEverythingWhen` | `backend/internal/sync/service.go:236-239` | A pull returns every non-negatively stamped row of the project if and only if its cursor is at most the overlap and at least the 64-bit minimum plus the overlap. |
| `PullBound.NeverDelivered` | `backend/internal/sync/service.go:35-45` | A row the client has not seen and that lies below the window its table is read with is never delivered in any continuation unless rewritten or the pull in flight is aborted. |
| `PullBound.DeliveredIffInWindow` | `backend/internal/sync/service.go:232-264` | Any entity of the project the client has not seen, left alone in any continuation that completes a pull reading its table, ends up with the client, log included, if and only if its stamp lies in the window its table is read with. |
| `PullBound.ArrivalIsDeliveredIffInWindow` | `backend/internal/sync/service.go:35-45` | The condition on commits is exact: from every state of a run that kept to it, what the next write changes or brings into the project, moved children included, is delivered if and only if it lies in the window. |
| `PullBound.ReplicaForgetsNothing` | `backend/internal/sync/service.go:35-45` | The other half of the condition is needed too: a row the client holds, or that a pull completed later has read, stays with the client when it leaves the project. |
| `PullBound.LateRowIsLost` | `backend/internal/sync/service.go:45` | For every lag beyond the overlap there is a run committing a row with that lag after a pull, and no continuation delivers it unless it is rewritten. |
| `PullBound.CursorIsSafeIff` | `backend/internal/sync/service.go:89-93` | A timestamp `c` taken instead of the last pull's cursor `w <= c` never loses anything, over all runs before and after, if and only if `c == w` or `c` is at most the overlap. |
| `PullBound.PushTimestampAsCursorLosesRows` | `backend/internal/sync/service.go:89-93` | For every later timestamp with a narrower window than the last pull's, a row committed in time between the two is lost in every continuation that does not rewrite it. |
| `PullBound.MovedChildIsLost` | `backend/internal/sync/store.go:356-388` | A station re-pushed under another project brings old children below the window: a client of that project never receives them although every commit was timely. |
| `PullBound.PullTearsABorehole` | `backend/internal/sync/store.go:460-518` | A run in which a client receives a borehole's old header with its new log. |
| `Hub.Hub.constructor` | `backend/internal/telemetry/hub.go:64-75` | A new hub has no members, subscribers or history. |
| `Hub.Hub.DeliverLocked` | `backend/internal/telemetry/hub.go:167-176` | A full buffer keeps what it has and the new snapshot is counted as dropped; otherwise it is appended. |
| `Hub.Hub.BroadcastLocked` | `backend/internal/telemetry/hub.go:144-164` | Building and delivering a snapshot, in any map order, is the specified broadcast. |
| `Hub.Hub.Publish` | `backend/internal/telemetry/hub.go:85-109` | A breadcrumb replaces that member and broadcasts the new team. |
| `Hub.Hub.Subscribe` | `backend/internal/telemetry/hub.go:114-126` | A fresh channel joins the project's set. |
| `Hub.Hub.Cancel` | `backend/internal/telemetry/hub.go:128-137` | The cancel closure removes that channel only, drops an emptied set, and does nothing the second time. |
| `Hub.Hub.Receive` | `backend/internal/telemetry/service.go:119-122` | The handler takes the oldest queued snapshot. |
| `Hub.Hub.SweepBucket` | `backend/internal/telemetry/hub.go:208-218` | The loop that deletes and greys members while ranging over the bucket, in any order, yields the simple form of the team and reports whether it differs. |
| `Hub.Hub.SweepOnce` | `backend/internal/telemetry/hub.go:201-233` | The double loop over all buckets, in any order, equals the simple form applied to all projects at once, with one broadcast for exactly the changed projects. |
| `HubModel.SweepOneMore` | `backend/internal/telemetry/hub.go:206-232` | Sweeping one more project after others equals sweeping them all at once, so the iteration order does not matter. |
| `HubRun.ApplyKeepsInv` | `backend/internal/telemetry/hub.go:85-233` | Every operation keeps: last broadcast shows the present team, registry exact, every live stream's broadcasts accounted for, no empty bucket or set, honest activity flags. |
| `HubRun.HubInvariant` | `backend/internal/telemetry/hub.go:85-233` | The same in every reachable state for any interleaving with a clock that does not go back. |
| `HubRun.UndroppedStreamIsCurrent` | `backend/internal/telemetry/hub.go:114-164` | A live stream that has never lost anything has received or queued every broadcast since it subscribed, the last of them the present team. |
| `HubRun.BroadcastReachesIffRoom` | `backend/internal/telemetry/hub.go:167-176` | A broadcast is appended to what a live stream was given if and only if its queue has room at that moment; a full queue stays as it is. |
| `HubRun.StreamIsCurrentIff` | `backend/internal/telemetry/hub.go:115-118` | From one broadcast to the next, a live stream's latest snapshot shows the present team if and only if there was room for that broadcast or what it had before looks the same, whatever was dropped earlier. |
| `HubRun.FullQueueMissesTheTeam` | `backend/internal/telemetry/hub.go:115-118` | A reachable run: after one breadcrumb more than the queue holds, a stream that received nothing ends with a snapshot that is not the present team's. |
| `HubRun.SixtyFourWait` | `backend/internal/telemetry/hub.go:115-119` | Of 65 snapshots that nobody takes the first 64 wait and the last is lost. |
| `HubRun.BreadcrumbUpdatesTheSnapshot` | `backend/internal/telemetry/hub.go:99-108` | The snapshot of a breadcrumb is the previous one with that member's name, position, arrival time and activity replaced. |
| `HubRun.BreadcrumbIsStored` | `backend/internal/telemetry/hub.go:85-109` | A breadcrumb leaves the user in the team with that name, position and arrival time, active, everybody else as they were, and is broadcast once. |
| `HubRun.LastBroadcastShows` | `backend/internal/telemetry/hub.go:144-160` | In every reachable state the last broadcast lists exactly the present members with name, position, activity and last-seen time in whole milliseconds. |
| `HubRun.KeptOnlyGrows` | `backend/internal/telemetry/hub.go:167-176` | What a channel was given is never taken back or reordered; a full queue keeps the old snapshots. |
| `HubRun.PublishIsLocal` | `backend/internal/telemetry/hub.go:161-163` | A breadcrumb leaves every other project's team, broadcasts, subscribers and queues alone. |
| `HubRun.ChannelEventsAreLocal` | `backend/internal/telemetry/hub.go:114-139` | Subscribing, cancelling and receiving change no team and no other channel. |
| `HubRun.CancelledIsQuiet` | `backend/internal/telemetry/hub.go:128-137` | No snapshot is enqueued to a channel after its cancel. |
| `HubRun.CancelledGetsNothing` | `backend/internal/telemetry/hub.go:128-137` | Over every continuation a cancelled channel is given nothing more and never becomes live again. |
| `HubRun.SweepIsExact` | `backend/internal/telemetry/hub.go:209-217` | Right after a sweep exactly those silent at most 4*ttl remain, unchanged but for the flag, active if and only if silent at most ttl; a project is rebroadcast exactly when its team changed. |
| `HubRun.QuietProjectIsForgotten` | `backend/internal/telemetry/hub.go:201-233` | Any sweep more than 4*ttl after the last breadcrumb of a project removes its bucket, whatever happened in between. |
| `HubRun.SweepLightens` | `backend/internal/telemetry/hub.go:180-184` | A sweep that changes a team lowers 2 * active + 1 * inactive. |
| `HubRun.QuietProjectFallsSilent` | `backend/internal/telemetry/hub.go:225-231` | Without breadcrumbs a project is broadcast at most as often as its team weighed, however often the reaper runs. |
| `Streams.RegistryIsTheStreams` | `backend/internal/telemetry/service.go:72-128` | Under any interleaving and repeated cancels, a project's subscribers are exactly the streams whose first point named it and that have not run their cancel. |
| `Streams.NothingAfterLeaving` | `backend/internal/telemetry/service.go:80-81` | In every continuation of every run, a stream that has run its cancel stays gone and its channel never changes again. |
| `Streams.CancelRemovesOnlyItself` | `backend/internal/telemetry/hub.go:128-137` | A repeated or late cancel never removes another stream. |
| `Streams.UsersStayNamed` | `backend/internal/telemetry/service.go:130-139` | Every point handed to the hub, first or later, has passed validation, and so has the project every stream subscribes to; a step with an invalid point changes nothing. |
| `Streams.ConnectAddsAStream` | `backend/internal/telemetry/service.go:72-81` | A valid first point adds exactly one stream with an empty channel registered for its project. |
| `Streams.FirstPointIsPublished` | `backend/internal/telemetry/service.go:83` | The first point of a stream is in the team and broadcast before the stream serves. |
| `Streams.IncomingIsPublished` | `backend/internal/telemetry/service.go:114-117` | Every later point with a user and a parsable project is in its team, with name, position and arrival time, and broadcast. |
| `Streams.BadPointsAreIgnored` | `backend/internal/telemetry/service.go:130-139` | A point without a user or with an unparsable project changes nothing. |
| `Streams.SendTakesTheOldest` | `backend/internal/telemetry/service.go:119-122` | A stream sends the oldest queued snapshot; a failed send ends it. |
| `Streams.EndThenCancel` | `backend/internal/telemetry/service.go:80-126` | A stream that ends leaves the hub alone until its cancel, which takes it off the registry. |
| `Streams.ReapForgets` | `backend/internal/telemetry/hub.go:201-233` | A reaper pass forgets and greys out exactly by the two limits, rebroadcasts exactly what changed and touches no stream. |
| `Streams.WhatAStreamCanDo` | `backend/internal/telemetry/service.go:104-128` | Which steps a stream can take in each phase, no more and no fewer. |
| `Migration.FilesOrdered` | `backend/internal/db/db.go:132-138` | The applied files are the up-migrations of the sorted directory, in strict lexical order. |
| `Migration.AppliedNames` | `backend/internal/db/db.go:135-138` | A name is applied if and only if a file, not a directory, has it and it ends in .sql but not in .down.sql, letter by letter. |
| `Migration.BeforeIsLexical` | `backend/internal/db/db.go:132-133` | The order of names is the lexical one, by the first difference. |
| `Migration.Database.ApplyOne` | `backend/internal/db/db.go:148-188` | A file already recorded is skipped; otherwise its effect and its bookkeeping row are committed together or not at all. |
| `Migration.Database.Migrate` | `backend/internal/db/db.go:135-144` | Recorded versions always match committed effects, and are what a pass over the first j files leaves: all files when it returns without error, so that then every up-migration of the directory is recorded; nothing else is ever added. |
| `Migration.AppliedIsTheLongerPrefix` | `backend/internal/db/db.go:87-88` | On a database that is a prefix of the ordered list, a pass over another prefix leaves the longer one. |
| `MigrationRun.StepIsSafe` | `backend/internal/db/db.go:97-188` | Every step of any instance, crash, error (of the unlock statement too) or lost lock session keeps the safety invariant. |
| `MigrationRun.MigrationSafety` | `backend/internal/db/db.go:90-96` | For any number of instances, crashes and errors, even with lost lock sessions: recorded versions are exactly the committed effects, each once, a prefix of the lexical order. |
| `MigrationRun.SuccessMeansApplied` | `backend/internal/db/db.go:135-145` | In every run, whatever failed, crashed or lost its session, an instance that has returned without an error finds all its files recorded and applied. |
| `MigrationRun.NoPrimaryKeyViolation` | `backend/internal/db/db.go:104-107` | While lock sessions live, whoever is about to record a version finds it neither recorded nor claimed by another transaction. |
| `MigrationRun.LostSessionCollides` | `backend/internal/db/db.go:90-96` | If the lock session is dropped while its instance works, another instance can be about to record a version that is already recorded. |
| `MigrationRun.HoldsAfterReturnIff` | `backend/internal/db/db.go:97-145` | Over every run, errors, crashes and lost sessions of others included: an instance that has returned and whose session lives still holds the lock if and only if its unlock statement failed. |
| `MigrationRun.FailedUnlockIsReached` | `backend/internal/db/db.go:109-115` | A run in which the first instance has migrated and returned without an error, and the second waits for the lock it kept. |
| `MigrationRun.FailedUnlockBlocks` | `backend/internal/db/db.go:109-115` | After a failed unlock whoever waits for the lock goes on waiting until that session ends, whatever else happens. |
| `MigrationRun.SmoothRunsAreBounded` | `backend/internal/db/db.go:97-145` | A crash-free, error-free run takes at most as many steps as the starting instances rank. |
| `MigrationRun.NoDeadlock` | `backend/internal/db/db.go:97-145` | With two connections per instance, a run that can go no further has everybody returned, every file applied and the lock free. |
| `MigrationRun.CompletesIffTwoConnections` | `backend/internal/db/db.go:98-142` | Every such run completes if and only if every instance's pool has at least two connections. |
| `Tenancy.Service.GetCallerRole` | `backend/internal/tenant/service.go:30-46` | The caller's stored role, refusal for a non-member, an internal error for a failing query, owner for everybody when there is no database. |
| `Tenancy.Service.CreateOrganization` | `backend/internal/tenant/service.go:107-163` | Organization and owner membership are created together or not at all; a used slug is refused; without a database nothing is stored and a fixed id is answered. |
| `Tenancy.CreatedExactlyWhen` | `backend/internal/tenant/service.go:107-163` | A creation succeeds exactly with an identity, a name, an unused slug and no failing statement; it stores that slug and one owner and nothing else; each refusal has its own error. |
| `Tenancy.CreationIsStored` | `backend/internal/tenant/service.go:107-163` | As a step of a run a successful creation is stored and has no bearing on transfers in flight. |
| `Tenancy.Service.BeginTransfer` | `backend/internal/tenant/service.go:174-196` | The guards of a transfer in order: identity, arguments, role query, membership, owner role, active sudo. |
| `Tenancy.AuthorizedExactlyWhen` | `backend/internal/tenant/service.go:174-196` | A transfer gets past the guards exactly when the caller is known, the arguments are given, the caller is an owner and sudo is active; each refusal has its own error. |
| `Tenancy.Service.FinishTransfer` | `backend/internal/db/tenant_tx.go:17-45` | The transfer transaction changes memberships at the commit or not at all. |
| `Tenancy.TransferOwners` | `backend/internal/tenant/service.go:198-225` | A transfer removes the caller from and adds the target to the owners of its organization and touches no other; it succeeds exactly when nothing fails and the target is a member. |
| `Tenancy.RolesAfterTransfer` | `backend/internal/tenant/service.go:198-221` | Membership by membership: the target is owner, the caller admin unless it is the target, and every other role of every organization stays. |
| `Tenancy.NonMemberTargetIsRefused` | `backend/internal/tenant/service.go:209-219` | A transfer to a non-member changes nothing. |
| `Tenancy.OneOwnerExactlyWhen` | `backend/internal/tenant/service.go:185-221` | From one owner there is one owner again if and only if that owner is the caller or the target when the transaction runs. |
| `Tenancy.SomebodyAlwaysOwns` | `backend/internal/tenant/service.go:165-221` | Every organization keeps an owner and slugs stay unique over any interleaving of creations, role reads and transactions, failures, self-transfers and repeated requests included. |
| `Tenancy.SerializedTransfersKeepOneOwner` | `backend/internal/tenant/service.go:165-221` | Exactly one owner stays exactly one while the transfers of each organization are serialized. |
| `Tenancy.OverlappingTransfersMakeTwoOwners` | `backend/internal/tenant/service.go:185-221` | Two transfers that both read the role before either commits leave two owners. |
| `Tenancy.RepeatedRequestMakesTwoOwners` | `backend/internal/tenant/service.go:185-221` | One request in flight twice leaves two owners if the new owner hands on before it commits again. |

## Left out

- Lost acknowledgements: a commit that reaches the database although its client sees an error; a failed statement or commit here has written nothing.
- `Validation.ValidRecord`: does not model the UUID grammar, because parsing is a library's; a `Ref` carries the outcome, and forms that the database refuses but the parser takes are faults.
- `PullRun.PullIsComplete`: does not cover cascading deletion of projects, because nothing in the backend deletes a project; the set of projects is fixed during a run.
- `HubModel.Broadcast`: does not model the order of a snapshot's member list, because map iteration leaves it open; a snapshot maps user to location.
- `LwwJoin.SameEndIffLeadersAgree`: does not say which reorderings of a run are accepted, because that depends on its natural keys and parents; rejected writes are the subject of `LwwJoin.RejectionsDoNotInterfere`.
- `Streams.RegistryIsTheStreams`: the select loop of a stream is a set of steps of a transition system, not a method, because all streams interleave; send buffering inside the transport is not part of this model.
- 64-bit wrap-around of the reaper's `4*ttl` and of other durations: times and durations are unbounded integers.
- Concessions are written from the office with a strictly newer stamp; the form that edits them is not part of this model.
- NULL handling, PostGIS geometry, error message texts, logging, the reaper's ticker goroutine and `Close`.
- Row-level security behind SET LOCAL, role management other than transfer, and listing endpoints.
- `web/`, billing, payments, object storage, GIS ingestion, the job queue, assertions and generated code.
