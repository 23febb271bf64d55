# Skid Monitor, verified

A Dafny model of the parts of Skid Monitor whose guarantees hold over whole runs: the cloud
event log and its replay, the agent's sequence allocator and export loop, the log tailer, the
device wire format, and a few self-contained algorithms of the desktop client. `dafny verify
dfyconfig.toml` checks everything.

## How it is built

Protocols are state machines. A state is a datatype, `Step` is one atomic step of one
participant (a step that is not enabled changes nothing), `Run` is any sequence of steps, and
the theorems quantify over all runs, hence over all interleavings, failures and crashes.
Objects that the program updates in place are classes whose methods are proved against those
steps. Byte and text formats are functions with proved inverses.

| files | component |
|---|---|
| `Signals`, `Numbers`, `Bytes`, `Decimal`, `Text`, `Folds` | shared values: envelopes, numbers, bytes, decimal text, trimming, folds |
| `Projection` | saturating counters in total and per agent |
| `Replay` | the bounded replay query and paging |
| `EventLog`, `EventLogSafety`, `EventLogTheorems`, `PgSignalStore` | append and enrolment transactions against concurrent readers |
| `StreamTickets`, `SignalStream`, `SignalPage` | single-use tickets, the live stream loop, the chunked page |
| `DurableSequence`, `OtlpExport`, `EndToEnd` | crash-safe sequence numbers, retries, exactly-once delivery |
| `DatabaseLogs`, `Pipeline`, `LogFanOut` | tailing log files, fan-out to exporters, both together |
| `EdgeWire`, `DeviceSocket` | the compact device frame and the socket that receives it |
| `FlexLayout`, `StorageWorker`, `AvatarModel` | panel layout, the storage thread, the model cache |
| `ClaimPointer` | JSON pointers to token claims |

## Assumptions

- PostgreSQL: identity values increase and are never reused, transaction advisory locks exclude
  each other and are held to the end of the transaction, a query sees one snapshot of the
  committed rows, an updated or deleted row is locked until its transaction ends, and a payload
  reads back as it was written.
- A file that was synced before it was renamed has its full content under the new name. Until
  the directory is synced a crash may leave either the old or the new file.
- Payloads, log file contents, decoded models and serialized records are opaque values with
  equality. Clocks, read sizes, I/O failures, network behaviour and thread schedules are
  arbitrary inputs; the clock of the ticket table does not run backwards.
- Identifiers drawn at random (event and ticket UUIDs) are fresh.

## Where the code does not keep a promise everywhere

- The layout is meant to fill the available space exactly. It does so if and only if the space
  is not below minimums whose sum is at most `f32::EPSILON`, which the code does not scale
  (`FlexLayout.FlexExtentsWithMinimums`, `FlexLayout.OverflowingLayout`). Under the like
  condition on a dragged pair `clamp_pair` panics (`FlexLayout.ClampDefinedIff`,
  `FlexLayout.ClampCanPanic`). This is so of the two functions on their own: their callers pass
  budgets of at least 1 and larger minimums and reach neither case
  (`FlexLayout.CallersDoNotOverflow`, `FlexLayout.CallersDoNotPanic`).
- A page that fails is meant to end with the failure: the code suppresses the suffix. If the
  stream is polled again it still sends the records after the failed one. Nothing follows a
  failure if and only if no record but the last fails (`SignalPage.NothingFollowsFailure`,
  `SignalPage.RecordFollowsFailure`).

## Model

| member | source | states |
|---|---|---|
| `EventLogTheorems.CursorsCommitInOrder` | skid-monitor-server/src/store.rs:801-849 | in every run of interleaved transactions a tenant's cursors commit in increasing order; pending cursors and all that any continuation commits lie above those committed so far, also when lock keys of tenants collide |
| `EventLogTheorems.ReplayIsExact` | skid-monitor-server/src/api.rs:588-638 | in every run a reader that resumes from its last cursor holds exactly the committed rows between its start and its cursor, once each and in order, and no continuation of the run changes that |
| `EventLogTheorems.ProjectionIsFold` | skid-monitor-server/src/store.rs:851-928 | in every run the projection row is the fold of `observe` over the committed events in cursor order, and `last_cursor` is the largest committed cursor |
| `EventLogTheorems.OnlyInsertingCommitsChange` | skid-monitor-server/src/store.rs:851-906 | rejected, conflicting, duplicate and rolled-back appends, and all other steps, change neither a tenant's log nor its projection |
| `EventLogTheorems.InsertingCommitAddsItsRow` | skid-monitor-server/src/store.rs:832-933 | the commit of an inserting append adds exactly its row, and only while tenant and agent are enabled |
| `EventLogTheorems.RepeatsReturnTheOriginal` | skid-monitor-server/src/store.rs:851-906 | of two successful replies to one request the later one names the same cursor and payload and reports `inserted = false`, and the log stores the request at exactly one row, at that cursor |
| `EventLogTheorems.AgentsAreBounded` | skid-monitor-server/src/store.rs:1102-1163 | in every run a tenant has at most `MAX_AGENTS_PER_TENANT` agents, and the agents in its projection are enrolled ones, so the projection obeys the same bound |
| `EventLogTheorems.LogGrows` | skid-monitor-server/src/store.rs:832-849 | no run removes or changes a committed row: the log before is a prefix of the log after |
| `EventLogTheorems.LogAtMoments` | skid-monitor-server/src/store.rs:832-849 | of two moments of one run the log at the earlier one is a sorted prefix of the later one |
| `EventLogTheorems.LockKeysCollide` | skid-monitor-server/src/store.rs:1871-1876 | two tenants can share an advisory lock key, so the theorems do cover collisions |
| `EventLogTheorems.PendingAboveCommitted` | skid-monitor-server/src/store.rs:832-849 | every cursor allocated and not yet committed lies above all committed cursors of its tenant |
| `EventLogSafety.StepKeeps` | skid-monitor-server/src/store.rs:788-933 | every step of every transaction and reader keeps the invariant of the store |
| `EventLogSafety.RunKeeps` | skid-monitor-server/src/store.rs:788-933 | so every run does |
| `PgSignalStore.Store.AppendEnvelope` | skid-monitor-server/src/store.rs:788-933 | one append beside any open transactions: waits exactly while another holds the lock of its open tenant; else refused with the first failing check and no change; else new, with the next cursor and exactly one row added; else repeated, with the original cursor and `inserted = false`; else a sequence conflict; every admitted append uses up a cursor |
| `PgSignalStore.Store.ResumeAppend` | skid-monitor-server/src/store.rs:804-933 | an append that waited goes on in the same way once the lock is free |
| `PgSignalStore.Store.EnrolAgent` | skid-monitor-server/src/store.rs:1102-1163 | one enrolment beside any open transactions: waits exactly while another holds the lock of its open tenant; else succeeds exactly if the agent is known or there is room, so a known agent is accepted at the limit; a refused one changes nothing |
| `PgSignalStore.Store.ResumeEnrol` | skid-monitor-server/src/store.rs:1102-1163 | an enrolment that waited goes on in the same way once the lock is free |
| `PgSignalStore.CapacityStep` | skid-monitor-server/src/store.rs:1813-1826 | the capacity check refuses exactly a new agent of a full tenant |
| `Projection.FoldIgnoresOrder` | skid-monitor-core/src/projection.rs:80-98 | the projection depends only on the multiset of observed envelopes |
| `Projection.FoldTotalsMatch` | skid-monitor-core/src/projection.rs:17-53 | in every reachable projection each global counter is the sum of that counter over the agents, cut off at `u64::MAX`, despite saturating addition |
| `Projection.FoldCountsAgent` | skid-monitor-core/src/projection.rs:17-53 | each counter of an agent is the sum over the envelopes that agent sent, cut off at `u64::MAX` |
| `Projection.FoldAgents` | skid-monitor-core/src/projection.rs:80-98 | an agent is listed exactly if it sent something, and its `last_sequence` is the largest it sent |
| `Projection.FoldLatest` | skid-monitor-core/src/projection.rs:80-98 | its `last_received_at` is the latest time at which something of it was received |
| `Projection.GetObserved` | skid-monitor-core/src/projection.rs:17-53 | observing a signal adds the batch and its items to the counters of its kind and to no other |
| `Projection.SignalProjection.Observe` | skid-monitor-core/src/projection.rs:80-98 | the in-place update computes the fold's step |
| `Replay.LoadRefinesScan` | skid-monitor-server/src/store.rs:417-450 | the windowed query returns what a simple scan does: the first later row, then each next one while row and byte limits allow |
| `Replay.LoadIsPage` | skid-monitor-server/src/store.rs:952-980 | the result is the longest prefix of the later rows within both limits, or one row if that alone is too big |
| `Replay.PageLengthUnique` | skid-monitor-server/src/store.rs:417-450 | there is only one such length |
| `Replay.PageThenRest` | skid-monitor-server/src/store.rs:952-980 | a page and a query from its last cursor give everything later; with a row limit of at least one a page is empty only at the end |
| `Replay.PagesCoverReplay` | skid-monitor-server/src/store.rs:952-980 | for any limits and budgets per page the pages of a fixed log are a prefix of the full replay, and after as many pages as there are rows they are all of it |
| `Replay.WindowThenAfter` | skid-monitor-server/src/store.rs:417-450 | the rows past a cursor are those up to a later cursor followed by those past it |
| `DurableSequence.NoValueIsReused` | skid-monitor-agent/src/exporters.rs:560-622 | for every history of opens, allocations, failures at any stage of a persist and crashes, issued values increase strictly across processes, every value that a reopen can read exceeds all of them, and at most one allocator is live |
| `DurableSequence.DecodeEncode` | skid-monitor-agent/src/exporters.rs:676-714 | the decimal state file round-trips for every value but the reserved zero |
| `DurableSequence.RenameKeeps` | skid-monitor-agent/src/exporters.rs:716-775 | after the rename both files that a crash may leave are safe to reopen |
| `DurableSequence.StepKeeps` | skid-monitor-agent/src/exporters.rs:716-775 | every step keeps the invariant of the allocator and its file |
| `DurableSequence.IssuedGrows` | skid-monitor-agent/src/exporters.rs:607-622 | a value once issued stays issued |
| `DurableSequence.Sequence.NextBlocking` | skid-monitor-agent/src/exporters.rs:607-622 | returns the counter only after its successor is durable; on exhaustion or a failure at any stage it returns nothing and the counter stays |
| `Decimal.DigitsValue` | skid-monitor-agent/src/exporters.rs:716-775 | decimal text has the value it was made from |
| `Decimal.DigitsLength` | skid-monitor-agent/src/exporters.rs:676-714 | and no more digits than needed, so that every u64 fits the size limit of the state file |
| `OtlpExport.Export` | skid-monitor-agent/src/exporters.rs:199-234 | one sequence for at most three attempts; each attempt but the last was answered by something worth retrying; a failure stops at the third attempt or at an answer not worth retrying; credentials are refreshed at most once |
| `EndToEnd.ExactlyOnce` | skid-monitor-agent/src/exporters.rs:199-234 | with lost, repeated and reordered requests, lost replies and agent crashes: every export has its own sequence and at most three attempts, adds at most one event, exactly one once it reported success, every event is some export's unchanged, and no request ends in a sequence conflict |
| `EndToEnd.ObservedOnce` | skid-monitor-server/src/store.rs:851-928 | the projection has counted each stored event of the agent once |
| `EndToEnd.NoConflict` | skid-monitor-server/src/store.rs:851-906 | a request of the identity that meets a stored row under its key meets its own payload |
| `EndToEnd.StepKeeps` | skid-monitor-server/src/ingress.rs:111-153 | every step of agent, network and server keeps the invariant that links them |
| `DatabaseLogs.TailRefinesSplit` | skid-monitor-agent/src/database_logs.rs:103-222 | over an append-only file, for every run of polls with any read sizes, read errors and export results, the lines exported with the pending line are the one-shot bounded split of the bytes consumed, the pending line respects the limit, and no poll takes the file for a rotated one |
| `DatabaseLogs.TailCatchesUp` | skid-monitor-agent/src/database_logs.rs:131-179 | once the file stops growing, after any history and at most as many good rounds as it has bytes, all of it has been read and the lines with the pending line are the split of the whole |
| `DatabaseLogs.FeedIsSplit` | skid-monitor-agent/src/database_logs.rs:199-222 | the byte-by-byte line machine computes the one-shot split |
| `DatabaseLogs.SegmentsJoin` | skid-monitor-agent/src/database_logs.rs:199-222 | the stretches of the one-shot split hold no newline and join to the input |
| `DatabaseLogs.FeedConcat` | skid-monitor-agent/src/database_logs.rs:199-222 | where the input is cut into chunks does not matter |
| `DatabaseLogs.NoFalseRotation` | skid-monitor-agent/src/database_logs.rs:181-197 | growth alone never changes the fingerprint that was kept |
| `DatabaseLogs.RotationStartsOver` | skid-monitor-agent/src/database_logs.rs:131-179 | after a truncation or replacement the poll behaves as a new tail from the beginning |
| `DatabaseLogs.TailState.CompleteLines` | skid-monitor-agent/src/database_logs.rs:199-222 | the in-place byte loop computes the line machine and touches nothing else |
| `DatabaseLogs.TailState.PollSource` | skid-monitor-agent/src/database_logs.rs:131-179 | one poll computes the specified step; open and read failures leave the specified state |
| `DatabaseLogs.TailState.PollAndExportSource` | skid-monitor-agent/src/database_logs.rs:103-129 | a failed export restores the state from before the poll |
| `Pipeline.Export` | skid-monitor-agent/src/pipeline.rs:53-95 | a receiver that is not routed is skipped with success; else every listed exporter is attempted, the export succeeds exactly if all do, and all failures are reported in order |
| `Pipeline.NoFailureIsHidden` | skid-monitor-agent/src/pipeline.rs:79-84 | the failure of each exporter is reported right after those of the exporters listed before it |
| `Pipeline.FailuresAreReal` | skid-monitor-agent/src/pipeline.rs:79-84 | every reported failure is that of a listed exporter |
| `LogFanOut.AtLeastOnce` | skid-monitor-agent/src/database_logs.rs:103-129 | tailer and pipeline together: over every run each exporter of the log pipeline has accepted every delivered batch, in order; what else it accepted are batches of rounds in which another exporter refused; without a route nothing is sent |
| `LogFanOut.ExactlyOnce` | skid-monitor-agent/src/database_logs.rs:103-129 | every exporter has accepted every delivered batch exactly once and nothing else if and only if in no round that found lines one exporter accepts and another refuses |
| `LogFanOut.DeliveredLines` | skid-monitor-agent/src/database_logs.rs:103-129 | the delivered batches one after the other are the delivered lines |
| `LogFanOut.AcceptedArePlaced` | skid-monitor-agent/src/database_logs.rs:103-129 | over an append-only file every accepted batch, also one that is repeated later, holds the lines of the file that follow those delivered by then |
| `EdgeWire.EncodeMetricsFrame` | skid-edge-wire/src/lib.rs:266-318 | accepts exactly what fits the format and the buffer; the frame is written at the start, all bytes past the returned length are unchanged, and on an error, which is the first that applies, the whole buffer is |
| `EdgeWire.FrameRoundTrip` | skid-edge-wire/src/lib.rs:266-366 | for everything the encoder accepts, decoding gives back the sequence number, the identity and all samples in order |
| `EdgeWire.DecodesEncoded` | skid-edge-wire/src/lib.rs:320-366 | an encoded frame is recognised as an edge frame and accepted |
| `EdgeWire.FrameReencodes` | skid-edge-wire/src/lib.rs:320-366 | an accepted frame with zero flags and valid records is reproduced byte for byte by encoding what it holds |
| `EdgeWire.RecordRoundTrip` | skid-edge-wire/src/lib.rs:218-260 | ten bytes decode to a sample exactly if they are its encoding and its ids are not reserved |
| `EdgeWire.NoPrefixDecodes` | skid-edge-wire/src/lib.rs:353-356 | of an input and a strict extension of it at most one is accepted |
| `EdgeWire.AcceptedLength` | skid-edge-wire/src/lib.rs:320-366 | an accepted input has exactly the length its header announces |
| `EdgeWire.AcceptedFrameItems` | skid-edge-wire/src/lib.rs:218-260 | iterating an accepted frame yields exactly `metric_count` items, none of them a length error, each decoded from its own ten bytes |
| `EdgeWire.ItemsAreRecords` | skid-edge-wire/src/lib.rs:218-260 | the same for every iterator over enough bytes |
| `EdgeWire.EdgeMetricIter.Next` | skid-edge-wire/src/lib.rs:215-260 | one step of the iterator, including the short-input error and its state after the end |
| `EdgeWire.KindOf` | skid-edge-wire/src/lib.rs:123-131 | the kind codes are decoded as they are encoded, and no others are accepted |
| `EdgeWire.UnitOf` | skid-edge-wire/src/lib.rs:145-156 | the unit codes are decoded as they are encoded, and no others are accepted |
| `EdgeWire.HeaderBytesAre` | skid-edge-wire/src/lib.rs:293-300 | the ten header bytes written out |
| `EdgeWire.RecordBytesAre` | skid-edge-wire/src/lib.rs:308-315 | the ten bytes of a record written out, most significant byte first in both ids and in the value |
| `DeviceSocket.DevicePath` | skid-monitor-agent/src/device_socket.rs:80-114 | what the encoder accepts, length-prefixed and read back, is taken whole, dispatched to the edge decoder, and carries the same sequence number, identity and samples in order |
| `DeviceSocket.TakeIsInverse` | skid-protocol/src/frame.rs:23-67 | a payload is read from exactly those streams that start with its frame |
| `DeviceSocket.WriteSignalPayload` | skid-protocol/src/frame.rs:39-44 | appends the frame, or nothing if the payload is too large |
| `DeviceSocket.ReadPayload` | skid-monitor-agent/src/device_socket.rs:80-89 | reads the length, refuses an oversized frame, reads the payload, and leaves the rest of the stream |
| `DeviceSocket.DecodeEdgeWirePayload` | skid-monitor-agent/src/device_socket.rs:99-114 | succeeds exactly if the frame and all its records are valid, with all samples lifted in order; otherwise reports the frame error or the first record error |
| `DeviceSocket.EdgeOutcomeUnique` | skid-monitor-agent/src/device_socket.rs:99-114 | this determines the result of every payload |
| `DeviceSocket.DecodeDevicePayload` | skid-monitor-agent/src/device_socket.rs:91-97 | edge frames go to the edge decoder, with its result also when the frame or a record is bad; all else goes to the JSON decoder |
| `DeviceSocket.ReadSignal` | skid-monitor-agent/src/device_socket.rs:80-89 | the payload is taken from the stream and answered so, or the framing error is reported |
| `DeviceSocket.LiftInjective` | skid-monitor-agent/src/device_socket.rs:116-151 | no part of a sample or identity is lost when it becomes a metric |
| `DeviceSocket.AttributesByKey` | skid-monitor-agent/src/device_socket.rs:116-127 | looking up any key in a metric's attributes gives the device id, node name, metric id or sensor id it is named after, the sensor name exactly if the sensor is known, and nothing else |
| `DeviceSocket.MetricNameInjective` | skid-monitor-agent/src/device_socket.rs:142-147 | different metric ids have different names, known or numbered |
| `DeviceSocket.SendAndReceive` | skid-monitor-agent/src/device_socket.rs:80-114 | encoder, framing and device path as running code, for every accepted input |
| `Bytes.Be16Inverse` | skid-edge-wire/src/lib.rs:297-313 | two bytes denote a number exactly if they are its big-endian form |
| `Bytes.Be32Inverse` | skid-protocol/src/frame.rs:23-44 | and four bytes |
| `FlexLayout.FlexExtentsWithMinimums` | client/skid-monitor-fe/src/components/main_panels.rs:395-438 | the loop ends; every extent respects its (scaled) minimum; unless the space is below minimums too small to be scaled, the extents are the water fill max(minimum, level * weight) for one level; they add up to exactly the space if and only if that case does not occur |
| `FlexLayout.WaterFillUnique` | client/skid-monitor-fe/src/components/main_panels.rs:395-438 | a water fill of a given total is unique, so the layout is determined |
| `FlexLayout.ScaledFits` | client/skid-monitor-fe/src/components/main_panels.rs:404-410 | the scaled minimums fit the space exactly outside that case |
| `FlexLayout.OverflowingLayout` | client/skid-monitor-fe/src/components/main_panels.rs:404-410 | an input of that case, with a total above the space |
| `FlexLayout.FindUndersized` | client/skid-monitor-fe/src/components/main_panels.rs:421-423 | finds the first flexible item whose share is below its minimum |
| `FlexLayout.LevelFalls` | client/skid-monitor-fe/src/components/main_panels.rs:416-435 | fixing an undersized item lowers the common level, so items fixed earlier still get at least their share |
| `FlexLayout.ClampPair` | client/skid-monitor-fe/src/components/main_panels.rs:440-459 | a drag keeps the total of the pair and both minimums, scaled if they do not fit, follows the pointer as far as they allow, and touches no other panel; for any extents and minimums on which the clamp does not panic |
| `FlexLayout.ClampDefinedIff` | client/skid-monitor-fe/src/components/main_panels.rs:447-456 | the clamp panics exactly on negligible minimums that exceed the pair |
| `FlexLayout.ClampCanPanic` | client/skid-monitor-fe/src/components/main_panels.rs:447-456 | an input on which it does |
| `FlexLayout.CallersDoNotOverflow` | client/skid-monitor-fe/src/components/main_panels.rs:339-342 | with a budget of at least one, as both callers make it, the layout always adds up |
| `FlexLayout.CallersDoNotPanic` | client/skid-monitor-fe/src/components/main_panels.rs:262-268 | and with minimums above half of epsilon no call of the clamp panics |
| `FlexLayout.DragsKeep` | client/skid-monitor-fe/src/components/main_panels.rs:346-359 | when the budget covers the minimums, no sequence of drags changes the total, takes a panel below its minimum, or panics |
| `FlexLayout.LayOutAndDrag` | client/skid-monitor-fe/src/components/main_panels.rs:338-359 | one frame of the stack: the layout, then its drags in place, always filling the budget, and above all minimums if it covers them; for minimums within the budget or a budget and minimums as the callers make them, also when the budget is too small |
| `FlexLayout.TightLayout` | client/skid-monitor-fe/src/components/main_panels.rs:404-410 | a budget that the minimums use up leaves no choice: the layout is the scaled minimums, whatever the weights |
| `FlexLayout.DragsKeepTotal` | client/skid-monitor-fe/src/components/main_panels.rs:344-359 | also when the budget does not cover the minimums no sequence of drags changes the total |
| `FlexLayout.HeightsAreTheirLayout` | client/skid-monitor-fe/src/components/main_panels.rs:349-358 | heights stored as weights lay out to themselves |
| `FlexLayout.Frames` | client/skid-monitor-fe/src/components/main_panels.rs:328-366 | over any number of frames, each laying out anew from the stored weights, for every budget the callers make: the heights fill it; if it covers the minimums they keep them and are where all drags, one after the other, take the first layout; if not, only the drags of the last frame count |
| `FlexLayout.TightSession` | client/skid-monitor-fe/src/components/main_panels.rs:328-366 | with a budget below the minimums no drag outlives its frame: the heights are the scaled minimums with the drags of the last frame |
| `FlexLayout.FlexExtentsFill` | client/skid-monitor-fe/src/components/main_panels.rs:390-393 | dividing by weight alone fills the space once the weights are normalised |
| `FlexLayout.SplitColumns` | client/skid-monitor-fe/src/components/main_panels.rs:253-268 | the two columns, pushed to their minimums and dragged, always fill the budget and keep their minimums, scaled if they do not fit, and it never panics |
| `StreamTickets.GrantedOnceInTime` | skid-monitor-server/src/store.rs:1231-1290 | over every run of interleaved create, consume and cleanup transactions, each ticket is granted at most once, only to its tenant with its subject and authorization; the statement that exchanges it starts strictly before creation plus time to live and before the authorization ends (its commit may come later) |
| `StreamTickets.GrantsNeedTheirTenant` | skid-monitor-server/src/store.rs:1724-1738 | a ticket is granted only while its tenant is enabled, because an open transaction keeps its tenant from changing |
| `StreamTickets.TicketsSurvive` | skid-monitor-server/src/store.rs:1740-1752 | a ticket that waits is never removed before its deadline: through any run it stays or has been granted |
| `StreamTickets.StepKeeps` | skid-monitor-server/src/store.rs:360-376 | every statement of every transaction keeps the invariant of the ticket table |
| `StreamTickets.TicketStore.CreateStreamTicket` | skid-monitor-server/src/store.rs:1231-1261 | beside any open transactions: refusals in the order of the code (subject, authorization, time to live, missing or disabled tenant, expired authorization), each without a trace; waits exactly while another transaction has a stale row of the tenant; a created ticket carries the trimmed subject and is redeemable until the earlier deadline, and only stale tickets of its tenant are gone |
| `StreamTickets.TicketStore.ConsumeStreamTicket` | skid-monitor-server/src/store.rs:1265-1291 | beside any open transactions: refused exactly if the tenant is missing or disabled; else waits exactly while another has the row; else grants exactly a redeemable ticket of the tenant, and then marks it consumed; otherwise nothing changes |
| `StreamTickets.TicketStore.CleanupStreamTickets` | skid-monitor-server/src/store.rs:1294-1301 | beside any open transactions: refused exactly if the tenant is missing or disabled; else waits exactly while another has a stale row; else removes exactly the tickets of the tenant that can no longer be redeemed and returns their number |
| `StreamTickets.TicketStore.ResumeCreate` | skid-monitor-server/src/store.rs:1246-1261 | a creation that waited goes on with the time of its cleanup statement and the clock of its insert |
| `StreamTickets.TicketStore.ResumeConsume` | skid-monitor-server/src/store.rs:1273-1291 | an exchange that waited is decided by the row as it then is and the time at which its statement started |
| `StreamTickets.TicketStore.ResumeCleanup` | skid-monitor-server/src/store.rs:1298-1301 | and a cleanup likewise |
| `SignalStream.OpenStream` | skid-monitor-server/src/api.rs:460-508 | with no free stream slot the request is turned away and with a missing or disabled tenant refused, both leaving the ticket as it was; else it waits exactly while another transaction has the ticket's row; else a stream opens exactly for a redeemable ticket whose authorization the server clock has not passed, and carries that authorization; the ticket is used up either way |
| `SignalStream.StreamSession.StreamSignals` | skid-monitor-server/src/api.rs:563-638 | beside any run of the store, and whatever clock, permits, queries and sends do: the records sent are exactly those that the store has committed past the start up to the cursor, in order and once each; each send was allowed by a clock reading, taken before the record is serialized, that lies before the end of the authorization; and if no round disturbs the stream and the log stays as it is for as many rounds as there are records past the start, all of them have been sent |
| `SignalStream.StreamSession.SendRecords` | skid-monitor-server/src/api.rs:604-634 | one page: a prefix of it is sent, all of it if the stream stays open, which it does exactly if every record of the page serializes in time and is delivered |
| `SignalStream.StreamSession.StreamPage` | skid-monitor-server/src/api.rs:588-638 | one page of the loop: if nothing disturbs the round the stream stays open, and with a row limit of at least one it sends something unless it is at the end |
| `SignalStream.FollowsGrowth` | skid-monitor-server/src/api.rs:588-638 | commits between two pages only add records past the cursor |
| `SignalStream.FollowsRun` | skid-monitor-server/src/api.rs:588-638 | so what was sent stays exact at every later moment of a run of the store |
| `SignalPage.SignalPageStream.NextChunk` | skid-monitor-server/src/api.rs:297-339 | a chunk has 1 to 65,536 bytes and is the next piece of the response; a record that fails gives an error and suppresses the suffix; there is no chunk exactly at the end |
| `SignalPage.Drain` | skid-monitor-server/src/api.rs:283-347 | the stream ends, and if every record serializes its chunks concatenate to the prefix, the comma-joined records and the suffix with the next cursor; if one fails, to the prefix, the records before it, the failure and what comes after it |
| `SignalPage.StartIsBody` | skid-monitor-server/src/api.rs:283-347 | what is to come at the start is that whole body |
| `SignalPage.FailureIsVisible` | skid-monitor-server/src/api.rs:309-324 | a response with a failed record contains a failure and never the suffix |
| `SignalPage.FailedResponse` | skid-monitor-server/src/api.rs:309-324 | a response with a failed record: the prefix, the records before the first failure, the failure, then the records after it without a suffix, which is nothing exactly if the failed record was the last |
| `SignalPage.NothingFollowsFailure` | skid-monitor-server/src/api.rs:309-324 | a failure is the last thing the client receives if and only if no record but the last fails |
| `SignalPage.RecordFollowsFailure` | skid-monitor-server/src/api.rs:309-324 | a page of two records on which the second comes after the failure of the first |
| `StorageWorker.HandledInOrder` | client/skid-monitor-fe/src/storage/worker.rs:66-107 | in every schedule telemetry is handled in send order exactly once |
| `StorageWorker.ControlIsPrompt` | client/skid-monitor-fe/src/storage/worker.rs:68-81 | at most one telemetry command is handled between a control command being queued and being taken |
| `StorageWorker.ShutdownIsComplete` | client/skid-monitor-fe/src/storage/worker.rs:69-77 | when a shutdown is acknowledged, all control commands sent before it have been taken and all telemetry sent before it has been handled |
| `StorageWorker.StoppingIsComplete` | client/skid-monitor-fe/src/storage/worker.rs:84-102 | a worker that stops because both senders are gone has handled everything |
| `StorageWorker.WorkerProgress` | client/skid-monitor-fe/src/storage/worker.rs:66-107 | with a shutdown queued every step of the worker brings the acknowledgement closer |
| `StorageWorker.ShutdownIsBounded` | client/skid-monitor-fe/src/storage/worker.rs:66-107 | while others go on sending, a queued shutdown is acknowledged within three worker steps for each telemetry and two for each control command queued or still sent, and at most two more; steps that go on waiting for telemetry do not count |
| `StorageWorker.StepKeeps` | client/skid-monitor-fe/src/storage/worker.rs:66-131 | every send, hang-up and worker step keeps the invariant |
| `StorageWorker.Worker.DrainTelemetry` | client/skid-monitor-fe/src/storage/worker.rs:151-161 | handles all queued telemetry in order |
| `StorageWorker.Worker.RunUntilShutdown` | client/skid-monitor-fe/src/storage/worker.rs:66-107 | from when a shutdown is queued and no one sends any more, the loop ends with an acknowledgement and everything handled |
| `AvatarModel.AtMostOneLoad` | client/skid-monitor-fe/src/components/avatar/model.rs:185-207 | in every interleaving at most one load is outstanding |
| `AvatarModel.ShownModelIsCurrent` | client/skid-monitor-fe/src/components/avatar/model.rs:141-182 | in every interleaving a cached asset comes from a request with exactly the current model, animation and shader paths at the current generation |
| `AvatarModel.RepeatedSyncIsQuiet` | client/skid-monitor-fe/src/components/avatar/model.rs:96-138 | synchronising again with the same paths keeps the asset and asks for nothing |
| `AvatarModel.StaleResultIsDropped` | client/skid-monitor-fe/src/components/avatar/model.rs:160-164 | a result for other paths is dropped and the current paths are asked for in the same frame |
| `AvatarModel.FinishedLoadIsShown` | client/skid-monitor-fe/src/components/avatar/model.rs:141-182 | a finished load of the current paths is shown in the next frame |
| `AvatarModel.StepKeeps` | client/skid-monitor-fe/src/components/avatar/model.rs:96-249 | every step of the interface and of the loader thread keeps the invariant |
| `AvatarModel.AvatarModelCache.Sync` | client/skid-monitor-fe/src/components/avatar/model.rs:96-138 | the in-place update computes the specified frame |
| `AvatarModel.AvatarModelCache.PollLoader` | client/skid-monitor-fe/src/components/avatar/model.rs:141-182 | one attempt to receive, with the stopped loader |
| `AvatarModel.AvatarModelCache.StartLoadIfNeeded` | client/skid-monitor-fe/src/components/avatar/model.rs:185-207 | asks for the current paths if nothing is shown, failed or outstanding |
| `AvatarModel.AvatarModelCache.Invalidate` | client/skid-monitor-fe/src/components/avatar/model.rs:239-249 | forgets everything and starts a new generation |
| `AvatarModel.PathsAreNormal` | client/skid-monitor-fe/src/components/avatar/model.rs:97-104 | normalising the paths is idempotent |
| `AvatarModel.PathsKept` | client/skid-monitor-fe/src/components/avatar/model.rs:98-103 | every animation path that is not blank is kept, trimmed and in order |
| `Text.TrimCuts` | client/skid-monitor-fe/src/components/avatar/model.rs:97-104 | trimming removes whitespace on both sides and nothing else |
| `ClaimPointer.PointerNamesClaim` | skid-monitor-server/src/config.rs:329-331 | the pointer to a claim is one token, passes the tilde check, and evaluates to the claim as section 4 of RFC 6901 says |
| `ClaimPointer.PointersDiffer` | skid-monitor-server/src/config.rs:329-331 | different claims have different pointers |
| `ClaimPointer.TokensAreEscapes` | skid-monitor-server/src/config.rs:329-331 | every valid token without a slash is the escaped form of the name it evaluates to |
| `ClaimPointer.TildeCheckIsRule` | skid-monitor-server/src/config.rs:317-320 | the check on the pieces between tildes holds exactly if every tilde is followed by 0 or 1, as section 3 of RFC 6901 demands |
| `ClaimPointer.AcceptedPointers` | skid-monitor-server/src/config.rs:311-327 | what the validation accepts, stated with the rule of the standard; every token accepted names exactly one member |
| `ClaimPointer.AcceptedClaims` | skid-monitor-server/src/config.rs:311-331 | the validation accepts the pointer of a claim unchanged exactly if it is at most 1,024 bytes long and the claim holds no control character and does not end in whitespace |

## Left out

- Floating-point rounding in the layout code, and the widening of a sample's 32-bit value to 64 bits: layout is over real numbers, sample values are bit patterns.
- PgSignalStore.Store.EnrolAgent: display names and audit rows are not modelled.
- SignalStream.OpenStream: opening a stream with an access token instead of a ticket, and the text form of a ticket, are not modelled.
- LogFanOut.ExactlyOnce: a send that an exporter reports as failed counts as refused, even if its receiver got the lines.
- SignalStream.StreamSession.StreamSignals: the wait between two pages (notifications, polling, pings) is reduced to whether the stream goes on.
- EventLogTheorems.ReplayIsExact: readers of the solo (single-user) scope are not modelled; they use no tenant rows.
- Errors of payload canonicalisation, numeric range checks on cursors and sequences, and the notification sent with a commit.
- DurableSequence.NoValueIsReused: path normalisation, file permissions, the ephemeral allocator and platforms without directory sync are not modelled.
- OtlpExport.Export: back-off times, token acquisition and per-attempt timeouts are not modelled.
- DatabaseLogs.TailRefinesSplit: lossy UTF-8 decoding and the truncation marker are applied to finished lines later and are not modelled; neither are files replaced by content with the same first 64 bytes.
- Pipeline.Export: processors are named slots without effect in the code and are not modelled.
- DeviceSocket.DevicePath: the JSON decoder for other payloads is a parameter; the OTLP request that wraps the metrics is reduced to its service name, scope name and metrics.
- SignalPage.Drain: serialization of a record is a parameter; the replay permit held with the stream is not modelled.
- AvatarModel.ShownModelIsCurrent: the generation is unbounded, so its wrap-around after 2^64 changes is not modelled; decoding, textures and repaint requests are not modelled.
- StorageWorker.HandledInOrder: start-up, the database writes themselves and their errors are not modelled.
- Projection.FoldTotalsMatch: overflow of the sum of item counts within one request is not modelled.
- Views, themes, rendering and shader composition; OIDC, TLS and HTTP clients; role and schema verification; host samplers and configuration parsing: user interface, external crates or only easy facts.
