# PomaiQueue: a verified model

PomaiQueue is a crash-safe queue server. Messages live in an append-only segment file with an offset index.
Each consumer group keeps, per message, a state (READY, IN_FLIGHT, ACKED, DEAD), a table of leases and a
512-slot timing wheel of lease deadlines, and logs every transition to its own event file. After a crash the
group is rebuilt from the segment, the last snapshot and the event file. This project models that machine in
Dafny and proves what it keeps over every run, crashes and restarts included.

## How the project is laid out

- **One transition.** `Transitions.dfy` has the data of a group and what one logged event does to it, and
  shows that the memory of a group is a function of its event log. `Legality.dfy` says which events the
  operations log, and the measures each event uses up. `Tokens.dfy` is about lease tokens.
- **The operations.** `Wheel.dfy` is the reap of expired leases, `Operations.dfy` the rest: `Step` is the
  effect of one operation on one queue and one group of it, `Run` that of a sequence. A `World` is `Up` (group
  loaded) or `Down` (only the files are there); `Crash` and `OpenGroup` lead from one to the other.
  `Reachability.dfy` and `Runs.dfy` prove the invariant of every run.
- **Field by field.** `Effects.dfy` says what each operation answers, logs and leaves, in plain field values,
  and `Backoffs.dfy` that a retry waits for its backoff, over every run.
- **What follows.** `Guarantees.dfy` (recovery, leases, permanence, bounds), `Delivery.dfy` (order, tokens, the
  retry limit), `WheelRuns.dfy` and `Lateness.dfy` (the wheel), `LostLeases.dfy` (leases the wheel never
  reaches again), `Liveness.dfy` and `Settlement.dfy` (no message is stuck), `LeaseLosses.dfy` (how leases get
  lost, and which visibility timeouts are safe), `PointInTime.dfy` (replay to a sequence number).
  `FirstDelivery.dfy` is the shortest run with a lease, from the empty queue.
- **The code in place.** `ConsumerGroup.dfy` and `QueueEngine.dfy` are the classes whose methods update a group
  as the C++ does, loop by loop; each is proved to take the step that `Step` says, so every theorem about runs
  holds of sequences of these calls.
- **The files.** `Bytes.dfy`, `Crc64.dfy`, `RecordCodec.dfy` and `SegmentLog.dfy` are the durable log stack down
  to its bytes, `EventFile.dfy` and `TornTails.dfy` the event file. `Durability.dfy` and `DiskRuns.dfy` join
  them with the runs: every run leaves files that hold exactly the queue, and the process may die at any byte
  of any operation. `CutShort.dfy` shows that what it leaves there is what a run between operations leaves, so
  that the theorems about runs hold of what is loaded afterwards.
- **Sessions.** `ConsumerSession.dfy` is credit and the round-robin scheduler.

Clock readings, the success of each append (`fails`, by sequence number), of each snapshot write (`persists`)
and of each record read (`readable`) are parameters, so the theorems hold for every clock and every pattern of
failures unless they say otherwise. The reads of a segment fail by their number in the call (`fails`). Numbers are unbounded except where the code's width matters: the retry
counter and session credit wrap at 2^32, record sizes are cast to 16 and 32 bits, offsets wrap at 2^64.

Every lemma with a proof carries `{:induction false}` and spells its induction out; the others need none.

## Where the code and its documentation differ

- `docs/QUEUE_CONTRACT.md:8` promises at-least-once delivery. A message produced after its group was loaded is
  not delivered before a restart, because only loading enters messages into the table of a group
  (`LateMessageWaits`).
- `docs/QUEUE_CONTRACT.md:27` accepts an acknowledgement only for IN_FLIGHT messages. The code accepts it for
  every leased message: recovery makes IN_FLIGHT messages READY but keeps their leases. `AcksOnlyInFlightWhen`
  gives the exact condition. The code looks at the message id alone, not at the token, and reaps nothing first,
  so an acknowledgement after the deadline is accepted until a reap has ended the lease.
- `docs/QUEUE_CONTRACT.md:39` recovers "from the last atomic snapshot". The code replays the whole event file on
  top of it, and the snapshot turns out to make no difference beyond the sequence counter
  (`RestartIgnoresSnapshot`).
- `docs/INVARIANTS.md` sends a message over its retry budget to DEAD. The code does so exactly for limits below
  2^32 - 1 (`RetryLimitEnforced`); at that limit the 32-bit counter wraps first (`RetryLimitWraps`).
- `docs/QUEUE_CONTRACT.md:43` retries unacknowledged messages after their visibility timeout. A lease can lose its
  place on the wheel and is then never retried before a restart (`LostLeaseStays`): one issued more than a lap
  ahead (`LongVisibilityBlocks`), one loaded a lap or more ahead, because the timeout is longer than 511 ticks
  (`LongVisibilityLoses`) or the clock went back (`LostOnOpening`, `ReopenedLosesExactly`), and one whose expiry
  could not be logged (`UnloggedExpiryBlocks`). `SafeExactly` says which timeouts are safe, `SettlesOnItsOwn`
  exactly when lost leases keep a group from being settled by its own consumers.
- The reported age of the oldest READY message takes an enqueue time of 0 for "none" (`GetStats`,
  `AgeOfFirstMessage`).
- A segment reopened with records in it is written from position 0: the first record produced lands on the oldest
  one, whose offset then reads as the new record (`ExtendsOnlyAtEnd`, `ReopenAndAppend`).
- `docs/QUEUE_CONTRACT.md:35` cuts partial or corrupt records off a segment. Recovery also cuts off whole ones, and
  reports no error, if and only if the first read that fails lies inside a whole record (`ForgetsExactly`,
  `OneRecordForgotten`).
- A torn tail of fewer than 8 bytes in the event file is ignored when it is loaded but not removed, so the next
  event is written behind it. It is read back exactly if there was no tail (`ReadBackBehindTail`);
  `TornAckReadsBackWrong` is a run of the engine after which it is not.

## Model

| member | source | states |
|---|---|---|
| `Crc64.TableEntry` | src/core/util/crc64.cc:8-18 | A table entry is the byte, as the eight highest coefficients, times x^8 modulo the generator |
| `Crc64.Compute` | src/core/util/crc64.cc:33-42 | The table-driven loop returns the remainder of the long division of the message (times x^64) by the ECMA-182 polynomial |
| `Crc64.GeneratorIsEcma182` | src/core/util/crc64.cc:6 | The constant has exactly the terms of the ECMA-182 polynomial below x^64 |
| `Crc64.TableDrivenIsDivision` | src/core/util/crc64.cc:8-42 | For every byte string the register recurrence and textbook bit-serial division agree |
| `Crc64.CrcFromInjective` | src/core/util/crc64.cc:33-42 | Different register values stay different whatever bytes follow |
| `Crc64.WindowDetected` | src/core/util/crc64.cc:33-42 | Two messages that share a prefix and a suffix and have one checksum have the same at most 8 bytes between |
| `Crc64.BurstDetected` | src/core/util/crc64.cc:33-42 | Equal-length strings that differ, and only inside 8 consecutive bytes, have different checksums |
| `Bytes.DigitAt` | src/core/storage/record.cc:12-15 | Byte i of an integer written to disk is its digit of weight 256^i |
| `Bytes.WordByteOrder` | src/core/storage/record.cc:57-58 | A checksum is written lowest byte first |
| `RecordCodec.RecordLayout` | src/core/storage/record.cc:34-61 | The bytes of an encoding, place by place: magic number, version, counts, sizes, checksum, offset, time and id of the header at their offsets in the 64-byte image, then pairs, routing key, payload |
| `RecordCodec.KvsLayout` | src/core/storage/record.cc:45-52 | A pair is two sizes, key and value; pairs follow one another |
| `RecordCodec.RefusedByHeader` | src/core/storage/record.cc:21-30 | Exactly which bytes are refused as too short, and which for magic number or version |
| `RecordCodec.EncodeRecord` | src/core/storage/record.cc:34-61 | Appending piece by piece and patching bytes 16 to 23 yields the format: header, pairs, routing key, payload, checksum of all behind the header |
| `RecordCodec.DecodeRecord` | src/core/storage/record.cc:63-119 | The loop over a moving offset decides as the format does: which error, or which record |
| `RecordCodec.HeaderRoundTrip` | src/core/storage/record.cc:21-30 | A header is read back from its 64-byte little-endian image whatever follows it |
| `RecordCodec.KvsRoundTrip` | src/core/storage/record.cc:45-98 | Key-value pairs within 32-bit sizes are read back where they were written, up to their end |
| `RecordCodec.DecodedFits` | src/core/storage/record.cc:63-119 | Any bytes that decode give a record with exactly the counts and sizes its header states, the current magic number and version |
| `RecordCodec.RoundTrip` | src/core/storage/record.cc:34-119 | Decoding an encoding returns the record with its size and checksum fields filled, if and only if counts and sizes fit and magic number and version are current |
| `RecordCodec.PrescanExact` | src/core/storage/segment_log.cc:87-98 | The size announced by the first bytes is exactly the length of the encoding, whatever bytes follow |
| `RecordCodec.StrictPrefixRejected` | src/core/storage/record.cc:63-104 | Every strict prefix of an encoding is rejected with an error about lengths, never about the checksum |
| `RecordCodec.CutErrors` | src/core/storage/record.cc:63-106 | Which error a prefix is rejected with, by the place of the cut: in the header, in the sizes or the text of the first pair, or behind the pairs |
| `RecordCodec.BurstRejected` | src/core/storage/record.cc:108-111 | Every change of an encoding that stays within 8 consecutive bytes behind the header is rejected |
| `SegmentLogs.SegmentLog.Recover` | src/core/storage/segment_log.cc:60-119 | Computes the scan, failing reads included: the error is reported exactly if a header read fails, and then the file stays; otherwise it is cut where the scan ends, unless the truncation fails; offset and index are those of the records kept |
| `SegmentLogs.SegmentLog.ScanFile` | src/core/storage/segment_log.cc:67-116 | The loop over the position computes the recursive scan under any set of failing reads, and truncates where it ends |
| `SegmentLogs.SegmentLog.ReadRecord` | src/core/storage/segment_log.cc:68-111 | One turn of the scan: broken exactly if its header read fails; otherwise the whole, decodable record at the position, or none if there is none or a later read of it fails |
| `SegmentLogs.SegmentLog.ScanSizes` | src/core/storage/segment_log.cc:87-98 | The loop over the size fields computes the announced size, or none exactly when the bytes run out or one of its reads fails |
| `SegmentLogs.SegmentLog.Append` | src/core/storage/segment_log.cc:121-148 | Writes the stamped record at the write position, advances offset and index only on success; in a clean session the file gains exactly the encoding, or, on failure, a piece of it |
| `SegmentLogs.SegmentLog.WriteAll` | src/core/storage/segment_log.cc:204-214 | However the writes are split, the bytes reported written are at the old position and nothing else changed |
| `SegmentLogs.SegmentLog.Read` | src/core/storage/segment_log.cc:150-176 | Answers from the index and the bytes, or with an I/O error exactly if one of its reads fails; in a clean session returns the record appended under that offset, filled |
| `SegmentLogs.RecoversWholeRecords` | src/core/storage/segment_log.cc:60-119 | Any records followed by a strict prefix of another: exactly the records are kept, the file is cut behind them, the index is that of the appends |
| `SegmentLogs.AppendIsAtomic` | src/core/storage/segment_log.cc:60-148 | A crash during an append leaves a file that recovers to the records before, or, exactly if every byte was written, to those and the new one |
| `SegmentLogs.RescanOfRecords` | src/core/storage/segment_log.cc:60-148 | The index kept by appending equals the index a scan of the bytes would build |
| `SegmentLogs.IndexPositions` | src/core/storage/segment_log.cc:113-115 | An offset is indexed at the sum of the lengths of the records before it |
| `SegmentLogs.IndexKeys` | src/core/storage/segment_log.cc:178-185 | The indexed offsets are those of the records and no others |
| `SegmentLogs.RecoverKeepsRecords` | src/core/storage/segment_log.cc:60-119 | On arbitrary bytes what is kept is a concatenation of whole decodable records, and no further record starts at the cut |
| `SegmentLogs.RecoverIdempotent` | src/core/storage/segment_log.cc:60-119 | Recovering a recovered file changes nothing and builds the same index |
| `SegmentLogs.ForgetsExactly` | src/core/storage/segment_log.cc:68-111 | Recovery succeeds with fewer records than the file holds if and only if the first failing read lies inside a whole record; if it succeeds otherwise it finds them all |
| `SegmentLogs.OneRecordForgotten` | src/core/storage/segment_log.cc:99-104 | A file that is one record, the last read of which fails: no error, and nothing is kept |
| `SegmentLogs.DamagedRecordEndsLog` | src/core/storage/segment_log.cc:107-111 | A record damaged within 8 bytes of its routing key or payload ends the log: the records before it are kept, it and all behind it are dropped |
| `SegmentLogs.ReadsBack` | src/core/storage/segment_log.cc:150-176 | In the file of any records each is read back, filled, at the position of its offset |
| `SegmentLogs.DamageReported` | src/core/storage/segment_log.cc:155-176 | Reading a record damaged within 8 bytes of its routing key or payload reports corruption; reading one that breaks off reports an I/O error |
| `SegmentLogs.ExtendsOnlyAtEnd` | src/core/storage/segment_log.cc:204-214 | A write extends the file if and only if the write position is its end |
| `SegmentLogs.ReopenAndAppend` | src/core/engine/queue_engine.cc:633-677 | Opening, recovering and appending to a log: the file grows by the record if and only if recovery kept none, and offset 0 then reads as the new record |
| `EventFiles.AppendEvent` | src/core/engine/queue_engine.cc:516-533 | The successive writes append the layout of the event |
| `EventFiles.EventFields` | src/core/engine/queue_engine.cc:508-533 | The bytes of an event, field by field, and the numbers that stand for states and reasons |
| `EventFiles.LoadTransitions` | src/core/engine/queue_engine.cc:274-324 | The reading loop returns the events up to the bound or corruption, as the byte-level description says |
| `EventFiles.EventRoundTrip` | src/core/engine/queue_engine.cc:290-319 | An event is read back where it was written, whatever surrounds it |
| `EventFiles.LoadsLog` | src/core/engine/queue_engine.cc:274-324 | Loading the file of any log returns exactly its events up to the bound, in order |
| `EventFiles.LoadsTornLog` | src/core/engine/queue_engine.cc:290-317 | With a strict prefix of another event behind them: the same events if it is under 8 bytes, corruption otherwise |
| `TornTails.ReadBackBehindTail` | src/core/engine/queue_engine.cc:290-317 | An event appended behind a torn tail of fewer than 8 bytes is read back, with all before it, if and only if the tail is empty |
| `TornTails.TornTailShiftsNextEvent` | src/core/engine/queue_engine.cc:290-317 | Behind a tail of one byte an event without a lease is read back under 256 times its sequence number plus the lowest byte of the torn one |
| `DiskRuns.TornAckReadsBackWrong` | src/core/engine/queue_engine.cc:502-546 | A reachable file: deliver, die after the first byte of the acknowledgement, reopen, acknowledge again; the event with sequence number 2 is read back with 514 |
| `Durability.RestartFromDisk` | src/core/engine/queue_engine.cc:344-443 | From files that end in a torn record and a torn event a restart loads the group of the whole records and the whole events, or reports corruption, exactly if the torn event has 8 bytes or more |
| `Durability.ProducedReadsBack` | src/core/engine/queue_engine.cc:665-677 | The record of a produced message, encoded and decoded, gives back its id, time, payload, headers and routing key |
| `DiskRuns.FilesFollow` | src/core/engine/queue_engine.cc:502-533 | After every run from the empty queue the segment file is the encodings of its messages and the event file that of its log |
| `DiskRuns.DiskQueue.Perform` | src/core/engine/queue_engine.cc:502-533 | The files written by the append of the segment and of the event file, operation by operation, are those of FilesFollow, or a piece of them when a write falls short; a crash reopens and recovers the segment |
| `DiskRuns.DiskQueue.constructor` | src/core/engine/queue_engine.cc:633-651 | A new queue: empty files that hold the empty queue |
| `DiskRuns.CrashAnywhere` | src/core/engine/queue_engine.cc:344-443 | After every run, dying at any byte of the next operation, a restart loads the messages before or after it and the events before it with the whole ones it logged, or reports corruption, exactly if 8 or more bytes of a torn event follow |
| `CutShort.StopShort` | src/core/engine/queue_engine.cc:548-865 | Every first part of the events an operation logs is what the same operation logs when its later appends fail |
| `CutShort.DiesReachable` | src/core/engine/queue_engine.cc:502-546 | The messages, events and snapshot on disk after dying in the middle of an operation are those of a reachable state |
| `DiskRuns.CrashIsReachable` | src/core/engine/queue_engine.cc:344-443 | Dying at any byte of an operation after any run: the restart loads what a reachable state left, so all theorems about runs hold of it; without a torn event the recovered files hold that state and runs go on |
| `Transitions.ApplyKeepsSync` | src/core/engine/queue_engine.cc:326-342 | A logged event keeps runtime table and leases the function of the log that they were |
| `Transitions.LiveRuntimeAppend` | src/core/engine/queue_engine.cc:326-342 | One more event changes the entry of its own message, as the event says, and no other |
| `Tokens.TokenInjective` | src/core/engine/queue_engine.cc:733 | The decimal token high:low:sequence determines id and sequence |
| `Tokens.TokenReads` | src/core/engine/queue_engine.cc:733 | A token reads as the decimal numerals of high, low and sequence number between two colons |
| `Legality.LegalKeepsInv` | src/core/engine/queue_engine.cc:502-546 | Any legal transition keeps the invariant of a loaded group |
| `Legality.LegalMeasures` | src/core/engine/queue_engine.cc:584-600 | Every transition strictly lowers the rank 2 * (max_retry - retry) + (2 READY, 1 IN_FLIGHT), and a delivery uses one of the deliveries left |
| `Legality.RuntimeWithinBudget` | src/core/engine/queue_engine.cc:586-592 | A live message is within its retry budget, a leased one READY or IN_FLIGHT, an IN_FLIGHT one leased |
| `Wheel.AdvanceKeeps` | src/core/engine/queue_engine.cc:559-607 | The reap loop keeps the invariant and moves every message by legal transitions only, failed appends included |
| `Wheel.AdvanceReaps` | src/core/engine/queue_engine.cc:564-603 | No lease appears or changes; one that goes was due, and its message was retried or dead-lettered; nothing else changes |
| `Wheel.AdvanceRegisters` | src/core/engine/queue_engine.cc:569-576 | A reap keeps every lease in the slot of its tick, less than a lap ahead, and passes over it only at its own tick and only while it is not due |
| `Wheel.AdvanceBase` | src/core/engine/queue_engine.cc:559-606 | After a reap the wheel stands one tick past the time of the reap, or where it already was |
| `Wheel.SurvivorNotYetVisited` | src/core/engine/queue_engine.cc:559-607 | A lease that survives a reap has not been reached at the next visit to its slot after its tick |
| `Wheel.AdvanceTakesNext` | src/core/engine/queue_engine.cc:584-603 | A reap whose own sequence numbers do not fail is the reap in which nothing fails, whatever fails after it |
| `LostLeases.AdvanceKeepsLost` | src/core/engine/queue_engine.cc:564-603 | A lease without an entry that the wheel reaches at its tick or later survives every reap and stays without one |
| `LostLeases.LapLeavesLost` | src/core/engine/queue_engine.cc:559-607 | A reap one lap on, its appends successful, leaves exactly the lost leases |
| `LostLeases.RegisteredNotLost` | src/core/engine/queue_engine.cc:229-250 | A lease in the slot of its tick, less than a lap ahead, is not lost |
| `LostLeases.FullLapReapsEverything` | src/core/engine/queue_engine.cc:559-607 | With every lease registered a reap one lap on leaves none |
| `Wheel.ReapIsScan` | src/core/engine/queue_engine.cc:569-576 | With a 1 ms tick a lease not yet passed by the wheel goes in a reap if and only if its deadline has come |
| `Reachability.ReapKeeps` | src/core/engine/queue_engine.cc:548-610 | A reap with its ready list keeps the invariant and evolves every message |
| `Reachability.ReapOffers` | src/core/engine/queue_engine.cc:691-701 | An offset in the ready list after a reap belongs to a loaded READY message, with room for its lease |
| `Reachability.ConsumeKeeps` | src/core/engine/queue_engine.cc:679-759 | Consuming keeps the invariant on every path, failed reads and appends included |
| `Reachability.AckKeeps` | src/core/engine/queue_engine.cc:761-805 | Acknowledging keeps the invariant on every path |
| `Reachability.NackKeeps` | src/core/engine/queue_engine.cc:807-865 | Rejecting, requeued or not, keeps the invariant on every path |
| `Reachability.LoadIsReplay` | src/core/engine/queue_engine.cc:344-443 | Whatever fitting snapshot: the loaded runtime is the replay of the whole log with IN_FLIGHT rewritten, and the leases are those last logged IN_FLIGHT |
| `Reachability.SnapshotIrrelevant` | src/core/engine/queue_engine.cc:373-419 | Two snapshots that fit give the same group but for the sequence counter |
| `Reachability.LoadKeeps` | src/core/engine/queue_engine.cc:344-443 | A loaded group satisfies the invariant |
| `Runs.StepKeeps` | src/core/engine/queue_engine.cc:653-907 | Every operation, crash and restart keeps the invariant of queue and group, and only ever adds to the files |
| `Runs.RunKeeps` | src/core/engine/queue_engine.cc:653-907 | Every run from a state that satisfies the invariant keeps it, and only ever adds to the files |
| `Runs.ReachableInv` | src/core/engine/queue_engine.cc:653-907 | Every world reached from the empty queue satisfies the invariant |
| `Guarantees.RestartIgnoresSnapshot` | src/core/engine/queue_engine.cc:373-443 | After any run a restart finds the same group with no snapshot, the last one or any earlier one; only the sequence counter may differ |
| `Guarantees.RestartIsReplay` | src/core/engine/queue_engine.cc:421-439 | After a restart each entry is what its last logged event says, or the default, with IN_FLIGHT made READY |
| `Effects.RestartEffect` | src/core/engine/queue_engine.cc:344-443 | Each entry and lease after a restart in field values: IN_FLIGHT is READY and visible from the restart on, a backoff outlasts it, a message without events is READY; an offset is listed if and only if its message is READY and visible |
| `Effects.CounterAfterRestart` | src/core/engine/queue_engine.cc:425-428 | Numbering goes on at the larger of the counter of the snapshot (1 without one) and one behind the last logged number |
| `Guarantees.LeasesExact` | src/core/engine/queue_engine.cc:326-342 | Leased are exactly the messages last logged IN_FLIGHT, at most max_inflight; a leased one not IN_FLIGHT is READY and has had no event since loading |
| `Guarantees.AckAccepted` | src/core/engine/queue_engine.cc:773-777 | With its event logged an acknowledgement is accepted if and only if the message is leased; a READY one has had no event since loading |
| `Guarantees.AcksOnlyInFlightWhen` | src/core/engine/queue_engine.cc:773-795 | Acknowledgements are for IN_FLIGHT messages only, if and only if every message IN_FLIGHT at the restart has had an event since |
| `Guarantees.AcksAfterRestart` | src/core/engine/queue_engine.cc:430-439 | Right after a restart that promise is kept if and only if no message was IN_FLIGHT when the process went down |
| `Guarantees.TerminalIsPermanent` | src/core/engine/queue_engine.cc:326-342 | Once ACKED or DEAD is logged, no run logs another event for the message, delivers it or shows it in another state |
| `Guarantees.TransitionsPerMessage` | src/core/engine/queue_engine.cc:584-600 | Between restarts a message takes at most 2 * max_retry + 2 transitions |
| `Guarantees.SessionIsBounded` | src/core/engine/queue_engine.cc:584-600 | Between restarts a group of n messages logs at most n * (2 * max_retry + 2) events |
| `Guarantees.DeliveriesBounded` | src/core/engine/queue_engine.cc:724-738 | Over a whole run a message is delivered at most max_retry + 1 times plus once per crash |
| `Guarantees.LateMessageWaits` | src/core/engine/queue_engine.cc:653-677 | A message produced while the group is loaded is not entered, logged or delivered by any run without a restart; the next session holds it, READY |
| `Delivery.AscendingUnique` | src/core/engine/queue_engine.cc:445-455 | An ascending list is determined by its elements, so the ready list does not depend on the order the table is walked |
| `Delivery.ConsumeDelivers` | src/core/engine/queue_engine.cc:679-759 | However the appends fare: none if and only if the leases are used up or nothing is eligible; else failure, leasing and logging nothing, if and only if the record is unreadable or the delivery cannot be logged; else the READY, visible message of least offset goes out under a new lease and no other changes |
| `Effects.ConsumeAnswers` | src/core/engine/queue_engine.cc:679-759 | The consumer is given a message if and only if there is one, a lease is free, the record is readable, the delivery is logged and the snapshot written; the file, table and lease are changed if and only if the delivery is logged |
| `Effects.UnknownDelivered` | src/core/engine/queue_engine.cc:712-720 | A message missing from the table gets a READY entry without retries and is delivered from there |
| `Effects.AckEffect` | src/core/engine/queue_engine.cc:761-805 | The answer for every pattern of failures: done if and only if leased, logged and the snapshot written; then exactly the ACKED event, entry and ended lease; a failed append changes only the counter |
| `Effects.NackEffect` | src/core/engine/queue_engine.cc:807-865 | The same for rejections: without requeue DEAD with its retry count; with requeue READY, one retry more and visible a backoff later, or DEAD if its retries are used up; the ready list is exactly the visible READY messages |
| `Effects.TimeoutEffect` | src/core/engine/queue_engine.cc:580-600 | A reap leaves a message whose due lease it ends READY, one retry more, visible a backoff after the reap, or DEAD if its retries are used up, as logged; every other message stays as it was |
| `Backoffs.RetryWaits` | src/core/engine/queue_engine.cc:445-455 | Over every run: a message sent back is in the ready list if and only if the clock has reached the time its event names, at least a backoff after the event, exactly that after a timeout; so none is delivered before |
| `Delivery.SequencesAndTokens` | src/core/engine/queue_engine.cc:425-428 | Over the life of the event file sequence numbers strictly increase, and no two logged deliveries share a token |
| `Delivery.RetryLimitEnforced` | src/core/engine/queue_engine.cc:584-596 | A message within its budget becomes DEAD by a timeout, or by a rejection with requeue, exactly when the budget is used up, if and only if the limit is below 2^32 - 1 |
| `Delivery.RetryLimitWraps` | src/core/engine/queue_engine.cc:586-596 | At the limit 2^32 - 1 a message that used it up is READY again with retry count 0 |
| `WheelRuns.OpenRegistered` | src/core/engine/queue_engine.cc:223-250 | A group opened at a tick not before its logged events has every lease in its slot, less than a lap ahead |
| `WheelRuns.GroupOpRegistered` | src/core/engine/queue_engine.cc:548-865 | Every operation keeps every lease in the slot of its tick, less than a lap ahead |
| `WheelRuns.WheelNeverDropsLeases` | src/core/engine/queue_engine.cc:569-571 | Every timely run keeps every lease in the slot of its tick, less than a lap ahead: the lap-ahead check never drops a live lease |
| `Lateness.LeaseEndsByNextVisit` | src/core/engine/queue_engine.cc:548-610 | As long as a lease is held the wheel has not passed the next visit to its slot, despite stale ids, duplicates and re-pushes |
| `Lateness.LeaseOverAfterOneLap` | src/core/engine/queue_engine.cc:548-610 | A lease is over once the wheel has passed max(deadline tick, wheel position) + 512 |
| `Lateness.WheelIsScan` | src/core/engine/queue_engine.cc:548-610 | Tick 1 ms, one steady clock reading per operation, appends of reaps succeed: a reap ends exactly the due leases of this session |
| `Liveness.Drain` | src/core/engine/queue_engine.cc:679-805 | A group whose leases are all lost, of READY messages, and leave room is emptied by one Consume and one Ack per READY message |
| `Settlement.NoMessageIsStuck` | src/core/engine/queue_engine.cc:344-805 | From every state satisfying the invariant of all runs, loaded or down, at most 1 + 2n successful operations leave all n messages ACKED or DEAD |
| `Settlement.SettleUnblocked` | src/core/engine/queue_engine.cc:344-805 | Unless lost leases block it, a group is settled by one reap a lap later and one Consume and Ack per message, every Ack for a delivery of the same schedule |
| `Settlement.BlockedIsStuck` | src/core/engine/queue_engine.cc:691-701 | If a lost lease is of an IN_FLIGHT message, or lost leases use up max_inflight, no run that ends only its own deliveries and does not crash settles the group |
| `Settlement.SettlesOnItsOwn` | src/core/engine/queue_engine.cc:569-603 | Such a settlement exists if and only if neither is the case |
| `Settlement.LostLeaseStays` | src/core/engine/queue_engine.cc:569-603 | The lost lease of an IN_FLIGHT message, and its entry, outlive every run without an acknowledgement or rejection of it and without a crash |
| `Settlement.SettlesAfterRestart` | src/core/engine/queue_engine.cc:344-443 | A group that is down can always be opened and settled without ending another delivery |
| `Settlement.LongVisibilityBlocks` | src/core/engine/queue_engine.cc:569-571 | The first delivery of a queue at time t leaves it blocked if and only if the deadline tick lies more than a lap ahead of that of t |
| `Settlement.MoreThanALap` | src/core/engine/queue_engine.cc:569-571 | There is such a time if and only if the visibility timeout is longer than a lap |
| `LeaseLosses.LostOnOpening` | src/core/engine/queue_engine.cc:235-243 | Opening a group loses exactly the leases whose deadline tick lies a lap or more ahead of the tick of the opening |
| `LeaseLosses.SurvivorIsLost` | src/core/engine/queue_engine.cc:569-603 | A registered lease that survives a reap one lap on, whichever appends failed, is lost |
| `LeaseLosses.UnloggedExpiriesLoseAll` | src/core/engine/queue_engine.cc:597-603 | A reap one lap on that can log nothing loses every lease the group held |
| `LeaseLosses.UnloggedExpiryBlocks` | src/core/engine/queue_engine.cc:597-603 | A reachable instance: the expiry of the first lease of a queue is not logged, and the group is blocked |
| `LeaseLosses.ReopenedLosesExactly` | src/core/engine/queue_engine.cc:223-250 | A run of five operations: the first lease of a queue delivered at t is lost by reopening at u if and only if its deadline tick is a lap or more ahead of that of u |
| `LeaseLosses.LongVisibilityLoses` | src/core/engine/queue_engine.cc:223-250 | With a timeout beyond 511 ticks that run loses the lease although all its clock readings are one |
| `LeaseLosses.SafeExactly` | src/core/engine/queue_engine.cc:569-571 | Every timely run keeps every lease on the wheel if and only if the visibility timeout is at most 511 ticks |
| `LeaseLosses.TimelyRunsSettle` | src/core/engine/queue_engine.cc:548-805 | Every state of such a run is settled by its own consumers |
| `PointInTime.UpToIsPrefix` | src/core/engine/queue_engine.cc:318-320 | The events up to the sequence number of the k-th are the first k |
| `PointInTime.AppliedIsLargest` | src/core/engine/queue_engine.cc:981 | applied_sequence is the largest logged sequence number up to the bound, 0 without one |
| `PointInTime.CountsSum` | src/core/engine/queue_engine.cc:982-997 | The four counts add up to the number of entries |
| `PointInTime.TransitionReplay` | src/core/engine/queue_engine.cc:944-999 | For any legal transition of a loaded group, also in the middle of a reap, and any log that extends it: replay up to its sequence number rebuilds every entry as it is right after the transition |
| `PointInTime.EveryTransitionReplays` | src/core/engine/queue_engine.cc:944-999 | The same over runs: the state right after each transition an operation logs, whatever happens later |
| `PointInTime.ReplayReconstructs` | src/core/engine/queue_engine.cc:944-999 | Whatever happened since, replay up to the last event of an earlier state rebuilds its entries; only leases left by a restart and untouched differ, IN_FLIGHT in the replay and READY then |
| `PointInTime.FirstSessionReplay` | src/core/engine/queue_engine.cc:944-999 | For a group never restarted the replay is the state it had |
| `PointInTime.FirstSessionTransitions` | src/core/engine/queue_engine.cc:944-999 | And for each of its transitions the replay is the state right after it |
| `ConsumerGroups.SortOffsets` | src/core/engine/queue_engine.cc:454 | Stands for std::sort: an ordered permutation |
| `ConsumerGroups.ConsumerGroup.ScheduleInflight` | src/core/engine/queue_engine.cc:229-250 | Puts the id in its slot and the lease in the table, in place |
| `ConsumerGroups.ConsumerGroup.ApplyTransition` | src/core/engine/queue_engine.cc:326-342 | Updates entry, lease and wheel in place as one transition does |
| `ConsumerGroups.ConsumerGroup.BuildReadyQueue` | src/core/engine/queue_engine.cc:445-455 | Walking the table in any order and sorting yields the ascending list of exactly the eligible offsets |
| `ConsumerGroups.ConsumerGroup.ReplayEvents` | src/core/engine/queue_engine.cc:421-428 | The loop over the events is the replay, and raises the sequence counter above all of them |
| `ConsumerGroups.ConsumerGroup.LoadGroupState` | src/core/engine/queue_engine.cc:344-443 | The five phases in place give the loaded group of the model |
| `ConsumerGroups.ConsumerGroup.CountEntries` | src/core/engine/queue_engine.cc:882-900 | One walk in any order counts, for each state, the entries in it |
| `ConsumerGroups.ConsumerGroup.OldestReady` | src/core/engine/queue_engine.cc:884-888 | Unless a READY message was enqueued at 0, finds the least enqueue time of the READY messages, or 0 if there are none |
| `ConsumerGroups.ReportedAge` | src/core/engine/queue_engine.cc:902-904 | The age is that of the oldest READY message if and only if none was enqueued at 0 or the clock reads 0 |
| `QueueEngines.AgeOfFirstMessage` | src/core/engine/queue_engine.cc:881-904 | A reachable state in which the age is wrong: one message, enqueued at 0, and a later clock |
| `QueueEngines.QueueEngine.constructor` | src/core/engine/queue_engine.cc:633-651 | A new engine is the empty queue with no group loaded |
| `QueueEngines.QueueEngine.Produce` | src/core/engine/queue_engine.cc:653-677 | Adds the message to the segment and touches no group |
| `QueueEngines.QueueEngine.Crash` | src/core/engine/queue_engine.cc:63-65 | Memory is lost, the files stay |
| `QueueEngines.QueueEngine.Open` | src/core/engine/queue_engine.cc:619-630 | Takes the opening step of the model, and keeps the invariant |
| `QueueEngines.QueueEngine.GetGroup` | src/core/engine/queue_engine.cc:612-631 | Opens the group if it is not loaded yet, and otherwise changes nothing |
| `QueueEngines.QueueEngine.AppendTransition` | src/core/engine/queue_engine.cc:502-546 | The event reaches file and memory, or neither |
| `QueueEngines.QueueEngine.PersistGroupState` | src/core/engine/queue_engine.cc:457-500 | The snapshot is replaced by the current table and counter, or stays |
| `QueueEngines.QueueEngine.AdvanceWheel` | src/core/engine/queue_engine.cc:559-607 | The nested loops over ticks and ids of a slot compute the reap |
| `QueueEngines.QueueEngine.ReapExpiredInflight` | src/core/engine/queue_engine.cc:548-610 | Reap and ready list, in place, are those of the model |
| `QueueEngines.QueueEngine.Consume` | src/core/engine/queue_engine.cc:679-759 | Opens the group if need be, then takes the consuming step of the model with its outcome, and keeps the invariant |
| `QueueEngines.QueueEngine.Ack` | src/core/engine/queue_engine.cc:761-805 | Opens the group if need be, then takes the acknowledging step with its outcome, and keeps the invariant |
| `QueueEngines.QueueEngine.Nack` | src/core/engine/queue_engine.cc:807-865 | Opens the group if need be, then takes the rejecting step with its outcome, and keeps the invariant |
| `QueueEngines.QueueEngine.GetStats` | src/core/engine/queue_engine.cc:867-907 | Opens the group if need be, then takes the reaping step; counts are those of the states; the age is right if and only if no READY message was enqueued at 0 or the clock reads 0 |
| `QueueEngines.QueueEngine.LoadTransitions` | src/core/engine/queue_engine.cc:274-324 | Returns the events up to the bound, in order |
| `QueueEngines.QueueEngine.ReplayToSequence` | src/core/engine/queue_engine.cc:944-999 | Returns counts and sequence of the replay, the counts adding up to the number of messages, and leaves the engine as it is |
| `ConsumerSessions.ConsumerSession.TryDispatch` | src/core/consumer_session.cc:8-19 | Dispatches if and only if credit is above 0 and the messages in flight are below the limit, taking one of each |
| `ConsumerSessions.ConsumerSession.AddCredit` | src/core/consumer_session.cc:21-23 | Adds credit modulo 2^32 |
| `ConsumerSessions.ConsumerSession.AckOne` | src/core/consumer_session.cc:25-29 | Frees one place unless none is taken |
| `ConsumerSessions.ConsumerSession.Expired` | src/core/consumer_session.cc:31-34 | Expired if and only if the heartbeat lies more than the timeout back |
| `ConsumerSessions.CreditConserved` | src/core/consumer_session.cc:8-29 | Over every run: in flight are the dispatched not acknowledged, within the limit, and credit left plus used is what was granted modulo 2^32, exactly so while grants fit |
| `ConsumerSessions.BurstDispatches` | src/core/consumer_session.cc:8-19 | Of n dispatches in a row exactly as many succeed as n, the credit and the free places allow |
| `ConsumerSessions.AtMostIsLexical` | src/core/consumer_session.cc:38-40 | The order of session ids: a prefix, or the smaller byte at the first difference |
| `ConsumerSessions.AtMostTotal` | src/core/consumer_session.cc:39 | The order of session ids is total and antisymmetric |
| `ConsumerSessions.AtMostTransitive` | src/core/consumer_session.cc:39 | The order of session ids is transitive |
| `ConsumerSessions.ConsumerSessionScheduler.constructor` | src/core/consumer_session.cc:36-41 | The sessions are an ordered permutation of the input |
| `ConsumerSessions.ConsumerSessionScheduler.NextDispatchable` | src/core/consumer_session.cc:43-56 | None if and only if every session is without credit or full; otherwise the first from the cursor that is neither, and the cursor moves behind it |
| `ConsumerSessions.PickIsFirst` | src/core/consumer_session.cc:48-54 | The choice can dispatch and every session the cursor passed over cannot |
| `ConsumerSessions.TurnComesNearer` | src/core/consumer_session.cc:48-54 | A call that passes over a dispatchable session strictly lowers its cyclic distance from the cursor |
| `ConsumerSessions.ServedInTurn` | src/core/consumer_session.cc:43-56 | A session that stays dispatchable is served within as many calls as there are sessions, whatever the others do |
| `ConsumerSessions.NoneServedTwice` | src/core/consumer_session.cc:43-56 | Meanwhile no other session is served twice before it |

## Left out

- Power loss: fsync and `durable_io.cc` are not modelled; a snapshot is replaced atomically, and what was written to a file survives the crash of the process.
- QueueEngines.QueueEngine.AppendTransition: an append that returns logs and applies the event or does neither; an event written and then reported as failed (the `after_log_append` failpoint, a failed flush) is not modelled, because memory then no longer follows the file. Dying in the middle of a write is (`CrashAnywhere`).
- QueueEngines.QueueEngine.Produce: only a segment that was not reopened with records in it is appended to, because the write position is then not the end of the file (`ReopenAndAppend` says what happens otherwise), and only messages with a new id, because the tables of a group are keyed by id.
- QueueEngines.QueueEngine.Open: a failing read of the segment, the snapshot or the event file while a group is loaded is not modelled at this level; `SegmentLogs` and `EventFiles` have those errors.
- QueueEngines.QueueEngine.LoadTransitions: works on the events of the file; `EventFiles.LoadTransitions` has the bytes and the corruption result.
- QueueEngines.QueueEngine.ReplayToSequence: the same, for the files it reads.
- SegmentLogs.SegmentLog.Recover: a read that returns fewer bytes than the file holds there is not modelled, nor is running out of memory on a huge announced size.
- EventFiles.LoadTransitions: a size field too large to allocate reads as corruption.
- WheelRuns.WheelNeverDropsLeases: holds for visibility timeouts of at most 511 ticks, reaps whose appends succeed, leases issued before the clock has run so far ahead of the reap that their deadline is a lap beyond the wheel, and groups not opened at a tick before one already logged. What happens otherwise is in `LeaseLosses`, `LostLeases` and `Settlement`.
- WheelRuns.GroupOpRegistered: needs the same of its reap and its lease.
- QueueEngines.QueueEngine.PersistGroupState: the snapshot is the value it stores, without its bytes and their order.
- DiskRuns.CrashIsReachable: runs go on in the same files if no torn event was left; behind a torn event they are those of `ReadBackBehindTail`. A produce whose append fails is not an operation of runs; `Append` and `Perform` say what it leaves.
- Guarantees.DeliveriesBounded: like the other theorems about runs it assumes `max_retry_count` below 2^32 - 1 and message ids that are unique in the segment.
- Clock and sequence values of a group are unbounded numbers; their wrap at 2^64 is not modelled.
- The configuration stays the same across restarts.
- Several queues, several groups of one queue and the shard threads: one worker applies whole operations one at a time, and groups share only the segment, which they do not change.
- `Offsets`: the list of keys of the index; `IndexKeys` says which they are.
- `InspectMessage`, queue depth and segment size limits, and the texts of transition reasons.
- `checkpoint.cc`, which the engine constructs but never uses; configuration, routing, servers, command line and benchmarks.
- Retention, segment rotation and token-checked acknowledgements: described in the documentation but not implemented.
