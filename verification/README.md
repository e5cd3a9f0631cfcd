# ShadowTwin delivery guarantees in Dafny

ShadowTwin carries security alerts from log files on a host to Kafka and from there into PostgreSQL, and
its host agent carries journal events to an ingest endpoint through a queue on disk. What it is for is
stated in its documentation: no line of a followed file is skipped, and every alert becomes exactly one
row. This project models the parts of the repository that have to work together for that and proves it.

| file | models |
|---|---|
| `Lines.dfy` | the meaning of a log: the stream of lines of all generations of a file, places in it, growth |
| `Watcher.dfy` | `FileTail`, the `tail -F` state machine (`forwarder/watcher.py`) |
| `Rotation.dfy` | what log writers and logrotate do, successive polls meanwhile, and polling until nothing is left |
| `Recovery.dfy` | a tailer constructed from a checkpoint and polled while the writers go on |
| `Acks.dfy`, `Checkpoints.dfy` | `AckTracker` and `OffsetStore` (`forwarder/state.py`) |
| `Broker.dfy`, `Producer.dfy` | partitions as clients see them; `KafkaWriter` (`forwarder/producer.py`) |
| `Forwarder.dfy` | the whole forwarder as a state machine with crashes (`forwarder/app.py`) |
| `Gaps.dfy`, `Lost.dfy` | exactly when a start leaves unsettled lines behind, a run in which one does, and that they stay behind |
| `Loop.dfy`, `Conservation.dfy` | the main loop on the objects themselves; fates, ledger and counters over whole runs |
| `Findings.dfy`, `Ingest.dfy` | the store, the batch loop and the ingestor as a state machine (`ingestor/`) |
| `Pipeline.dfy` | forwarder and ingestor joined at the broker |
| `FileNames.dfy`, `Spool.dfy`, `DiskQueue.dfy` | the agent's queue on disk (`internal/buffer/buffer.go`) |
| `Sink.dfy`, `Shipping.dfy` | the drain loop, and writer and drainer over whole runs (`cmd/agent/main.go`) |
| `Journal.dfy` | the hand-off from the journal collector to the queue (`internal/collectors/auth/auth.go`) |
| `Backoff.dfy` | the retry delay (`internal/transport/transport.go`) |

Objects that the source updates in place are classes here, and each method is proved against a
specification written on values: `FileTail.Poll` against `PollSpec`, `Store.Write` against `Written`, the
methods of `Queue` against `Drop`, `Put`, `Take` and `Bury` on `Books`. The state machines of `Forwarder`,
`Ingest` and `Shipping` take those same specifications as their steps; `Loop.StartTail` and `Loop.PollTail`
show this for the tailer, step by step. `dafny verify dfyconfig.toml` checks everything.

## What is assumed of the environment

These are preconditions or guards of steps, and the code depends on each of them.

- Inodes are not reused (`DistinctInodes`); a file gets no appends once it is renamed away (`Sealed`,
  `Legal`); files only grow (`Grows`), so the theorems about whole runs exclude truncation in place.
  `FileTail.Poll` itself also states what happens on a truncation.
- From the checkpointed generation on, every generation that has left the path is still there, uncompressed,
  under one searched name that can be opened (`Listed`), and later ones have strictly later modification times
  (`MtimesOrdered`). Other files may match the search, but at a start none of them that is uncompressed is
  newer than the checkpointed generation (`ForeignLater`): such a file is taken for a generation and read.
- While the tailer runs, the live file is renamed only when the tailer holds it or already owes it (`Legal`
  with `Holds`): with nothing owed, only the path itself is opened. While it is stopped any number of
  renames is allowed.
- A poll sees the files twice: as they are when it reads, and as they are when it compares the path. In
  between they may grow and be rotated. The one way this goes wrong is stated exactly below.
- With `start_from=end` the file at the path ends with a whole line at the start without a checkpoint.
- Kafka keeps what it has stored and gives one callback for each queued message. A transaction of
  PostgreSQL is atomic; its commit may take effect and still be reported as a connection error.
- `rename` is atomic; what is on disk survives a crash of the process.
- Event names in the agent's queue are new (their ids are UUIDs of equal length) where exact counters or the
  books of `Shipping` are claimed; `Queue.Write` itself does not require it.

## What the proofs show to be false

The code is modelled as it is. Where a promise does not hold, the exact condition is proved.

- **Lines lost in the deleted branch of `poll`.** If the path is found missing after a first read that
  reached the end of the file, one `readline` is made before the file is closed. `FileTail.Poll` hands on
  exactly the lines of the stream if and only if not `RaceLoses`: lines beyond what one `readline` picks up
  came in between the read and the check. `RaceIsReal` is such an input. The rotated branch has no such gap.
- **A start without a checkpoint.** The log messages speak of a gap only when files are missing.
  `Gaps.StartSkipsExactly` shows that a start leaves an unsettled line behind exactly when it finds no
  checkpoint for the file and a generation it does not open holds one; `StartWithoutCheckpointSkips` is a whole
  run with `start_from=beginning`: the file is created and read after the start, the process dies before the
  next save, and the file is rotated before the next start. `Lost.SkippedForGood`: such a line, if it was not
  sent before, is sent in no continuation.
- **Foreign files in the directory.** The search by modification time finds exactly the later generations, and
  a start from a rotated file stands where it should, if and only if no other file that matches the search is
  newer than the checkpointed one (`Watcher.LaterExact`, `StartIsExact`). `ForeignIsReal` is such a directory.
- **`save` on top of a damaged state file.** `save` moves the main file to the backup without looking at it.
  `SaveCanLoseBoth`: a save interrupted anywhere keeps something loadable if and only if not both the main
  file was damaged behind the running process and only the backup was good.
- **Reassignment with `start_from=end`.** A rewind before the first offset of a partition is stored uses the
  policy again. `ReassignSkips` gives the exact condition under which a waiting message is then never accounted
  for in any continuation of the run; `ReassignCanSkip` is a run in which it happens.
- **Queue names of times before 1970** sort backwards among themselves (`NegativeTimesSortBackwards`).
- **Counters and duplicate names.** The rename in `Queue.Write` replaces a pending file of the same name but
  the counters grow: they stay exact if and only if the name was not pending.
- **The retry delay** equals the capped power of two for every attempt when the odd part of the base times
  the cap stays below 2^63 (`DelayIsExact`), which holds for the defaults; in general it holds exactly as
  `ExactUnlessFaked` says, and `WrapCanFakeADelay` is a base and cap for which 64-bit wrap-around gives a delay
  below the cap long after the exact one has passed it.
- **The journal cursor.** A comment in `scan` promises that an entry is read again after a crash rather than
  lost. The channel is unbuffered but the writer may not have written yet when the cursor is saved:
  `CrashLosesExactly` gives the condition, `CrashCanLoseOne` a run, `AtMostOneLostPerCrash` the bound. Before
  a first cursor is saved a restart follows the journal from its end: `RestartSkips` gives the condition and
  `RestartCanSkip` a run.

## Model

| member | source | states |
|---|---|---|
| `Lines.SplitExact` | forwarder/watcher.py:289-304 | the n-th line of a file is the bytes from the end offset of the line before to the first byte 10, or to the end of the file, without the bytes 10 and 13 at their end: offset deltas are the raw bytes consumed |
| `Lines.SplitLeavesOut` | forwarder/watcher.py:289-322 | the lines leave out nothing but carriage returns at the very end |
| `Lines.SplitConcat` | forwarder/watcher.py:289-304 | splitting at a place just after a newline, or at the end, neither adds nor loses nor changes a line |
| `Lines.LineNamesPrefix` | forwarder/watcher.py:35-38 | the inode and end offset handed on with a line name the one boundary of the stream that has exactly the lines up to it in front |
| `Lines.BoundaryStable` | forwarder/watcher.py:325-343 | a boundary stays one, with the same lines in front of it, however the files are appended to and rotated |
| `Watcher.FileTail.constructor` | forwarder/watcher.py:122-187 | a saved position is taken up only if it is 0, the end of the file, or just behind a byte 10; with the saved file at the path that is also enough, and otherwise the file is read from its beginning; else the file is searched under its rotated names, with the later generations owed, and failing that the path is read from its beginning; with nothing saved the path is read from the beginning or the end as configured |
| `Watcher.StartStands` | forwarder/watcher.py:136-169 | from a recoverable position that state stands exactly there in the stream and owes every later generation, oldest first |
| `Watcher.FileTail.Poll` | forwarder/watcher.py:71-116 | a poll hands on exactly the stream's lines from the cursor before to the cursor after, at most `max`, fewer only if nothing was left or a generation was finished, if and only if the deleted branch does not lose the race; if the path cannot be looked at, still exactly those lines; a shrunken file is read from its start |
| `Watcher.FileTail.CloseGone` | forwarder/watcher.py:86-91 | closing a deleted file covers the rest of its lines if and only if one `readline` is enough for what is left |
| `Watcher.FileTail.NextGeneration` | forwarder/watcher.py:96-106 | the rotated branch finishes the old file and goes on with the next generation without a gap, within the line limit |
| `Watcher.FileTail.FindRotated` | forwarder/watcher.py:220-232 | finds a file exactly if it has a name with none of the five endings of compressed files and the offset is 0, its size, or just behind a byte 10 |
| `Watcher.CandidatesExact` | forwarder/watcher.py:195-218 | an inode is a candidate exactly under a name that ends in none of `.gz`, `.bz2`, `.xz`, `.zst`, `.zip` |
| `Watcher.FileTail.OpenNext` | forwarder/watcher.py:234-259 | opens the first owed inode that is at the path or findable, dropping unreachable ones, else the path |
| `Watcher.FileTail.ReadLines` | forwarder/watcher.py:289-304 | reads exactly the complete lines from the offset on, at most `max`, and leaves a half-written line for later |
| `Watcher.FileTail.DrainFinalPartial` | forwarder/watcher.py:306-322 | one more `readline`, unterminated or not, handed on unless nothing but terminators is in it; the offset stands behind it either way |
| `Watcher.DrainedExact` | forwarder/watcher.py:306-322 | that `readline` hands on all that is left if and only if what is left is at most one line and not a terminated blank one |
| `Watcher.RaceIsReal` | forwarder/watcher.py:86-91 | an input that keeps all assumptions and on which the deleted branch loses a line |
| `Watcher.LaterExact` | forwarder/watcher.py:152-161 | sorting candidates by modification time and inode lists exactly the generations between the checkpointed one and the path, oldest first, if and only if no other matching file is newer than the checkpointed one |
| `Watcher.StartIsExact` | forwarder/watcher.py:143-169 | a start from a rotated file stands at its place and owes exactly the later generations if and only if no newer file that matches the search passes for one |
| `Watcher.ForeignIsReal` | forwarder/watcher.py:152-158 | a directory in which one does |
| `Watcher.RecoverRotated` | forwarder/watcher.py:143-169 | a recoverable position passes the boundary test, its file is found under its rotated name, and the tailer then owes every later generation and the path |
| `Watcher.RecoverAtPath` | forwarder/watcher.py:136-141 | a recoverable position whose file is still at the path is resumed there |
| `Rotation.DoAllKeepsTail` | demo/alert_generator.py:147-163 | no sequence of appends, renames and creations that respects the running tailer disturbs where it stands or what it owes |
| `Rotation.PollsAddUp` | forwarder/watcher.py:71-116 | successive polls, between and during which the files may be appended to and rotated, hand on the stream from the first cursor to the last in order, each line once |
| `Rotation.PollsAreExact` | forwarder/watcher.py:71-116 | as soon as nothing is left to read, everything beyond the first cursor has been handed on |
| `Rotation.LegalIsPollEnv` | forwarder/watcher.py:234-259 | what writers may do while the tailer runs is what a poll relies on |
| `Rotation.PollsReachEnd` | forwarder/watcher.py:71-116 | once the file system is quiet, enough polls leave nothing to read |
| `Rotation.RecoveryIsExact` | forwarder/watcher.py:122-259 | from any recoverable checkpoint, through any writing and rotating during the first polls, queued generations included, polling to the end hands on exactly the rest of the checkpointed file, each later generation oldest first, then the live file, once and in order |
| `Recovery.Resume` | forwarder/watcher.py:71-187 | a tailer constructed from a recoverable checkpoint and polled any number of times, among writers that act before and during every poll, hands on exactly the stream from the checkpoint to where it stands, and everything there is once nothing is left |
| `Recovery.IdleIsFriendly` | forwarder/watcher.py:71-116 | writers that do nothing are among those |
| `Acks.AckTracker.constructor` | forwarder/state.py:30-34 | nothing is tracked and the committed position is the given one |
| `Acks.AckTracker.Track` | forwarder/state.py:36-41 | sequence numbers are handed out contiguously; tracking never moves the committed position |
| `Acks.AckTracker.Ack` | forwarder/state.py:43-49 | whatever the order, afterwards what has left the queue is the longest acknowledged prefix: all acknowledged, the head of the queue not; the committed position is that of its last line, or the given one |
| `Acks.PrefixLenUnique` | forwarder/state.py:43-49 | that prefix is the only one acknowledged throughout and not followed by an acknowledged line |
| `Acks.PrefixLenMonotone` | forwarder/state.py:43-54 | more lines and more acknowledgements never move it back |
| `Acks.OrderIrrelevant` | forwarder/state.py:24-28 | what is committed depends on the set of acknowledgements, not on their order or repetition |
| `Checkpoints.OffsetStore.constructor` | forwarder/state.py:79-91 | loads the main file, else the backup and marks itself dirty, else nothing; damaged files met are moved away |
| `Checkpoints.OffsetStore.Read` | forwarder/state.py:93-112 | takes offsets from a good file, leaves a missing one, moves a damaged one out of the way |
| `Checkpoints.OffsetStore.Update` | forwarder/state.py:121-126 | replaces one entry and is dirty exactly if something changed |
| `Checkpoints.OffsetStore.Save` | forwarder/state.py:128-151 | the disk after an error at each step, slot by slot: both checkpoints untouched before the renames, the old one as the backup between them; the temporary file is gone and the store still dirty; an error in creating the temporary file leaves `save` as an exception; complete, the new checkpoint is in place, the old one the backup, and the store clean |
| `Checkpoints.SaveIsAtomic` | forwarder/state.py:128-151 | interrupted after any step, what can be loaded is the previous checkpoint, and after the last the new one |
| `Checkpoints.SaveCanLoseBoth` | forwarder/state.py:140-142 | an interrupted save always leaves something to load if and only if not both the main file is damaged and the backup good |
| `Checkpoints.DamageCostsOneCheckpoint` | forwarder/state.py:67-69 | damage to the main file after a save brings back the checkpoint before it |
| `Producer.KafkaWriter.Send` | forwarder/producer.py:72-107 | the first attempt that is not a full queue to wait for decides: false exactly if it saw the abort flag on a full queue; a message accepted is waiting or settled, one not sent ends up nowhere; only messages that were waiting move meanwhile, and the trackers are told exactly what was settled |
| `Producer.KafkaWriter.Take` | forwarder/producer.py:89-107 | a queued message is counted as produced and waits, a refused one is counted as failed and its tracker told at once |
| `Producer.KafkaWriter.OnDelivery` | forwarder/producer.py:120-136 | a callback moves its message to delivered and tells its tracker, or to failed and tells nobody; the flags and reconnects follow |
| `Producer.KafkaWriter.Serve` | forwarder/producer.py:109-111 | serving callbacks keeps the tally, and every settled line is acknowledged at its tracker |
| `Producer.KafkaWriter.OnError` | forwarder/producer.py:140-151 | a fatal error is kept for good, a broker outage is noted until the next delivery |
| `Producer.TallyServe` | forwarder/producer.py:120-136 | produced = acked + failed deliveries + outstanding is kept by every callback |
| `Producer.TallySend` | forwarder/producer.py:98-107 | ... and by queueing or refusing a message |
| `Producer.ServeAllMoves` | forwarder/producer.py:109-138 | callbacks only move waiting messages and lose none |
| `Forwarder.CommittedIsSafe` | forwarder/app.py:137-142 | every line in front of the position a tracker would commit that has a byte other than white space and is JSON is logged undeliverable or itself stored by the broker in a partition of its topic, and the position is a boundary |
| `Forwarder.CommitIsLongest` | forwarder/app.py:137-142 | a commit goes as far as it may: to the position of the last line in front of the first one not blank, malformed, undeliverable or delivered; with no such line it stores the place of the start, if that was a position |
| `Forwarder.CheckpointStaysAccepted` | forwarder/watcher.py:325-343 | a safe position passes the boundary test of a restart now and however the file grows |
| `Forwarder.SafeIsResumed` | forwarder/watcher.py:136-169 | a safe checkpoint is never turned down: a start from it opens its file at its offset, stands at its place in the stream, and owes every later generation |
| `Forwarder.NextKeepsInv` | forwarder/app.py:145-234 | every step of the forwarder, of the log writers, of the broker and of a crash keeps all checkpoints on disk safe |
| `Forwarder.TraceInv` | forwarder/app.py:145-234 | ... hence so does every run from the beginning |
| `Forwarder.NoLineSkipped` | forwarder/app.py:145-234 | at-least-once: in every run every line in front of any checkpoint that can be loaded that has a byte other than white space and is JSON is logged undeliverable, or this very line is stored by the broker in a partition of its topic, counted from the stream's beginning at any state since which every start found a checkpoint |
| `Gaps.StartSkipsExactly` | forwarder/watcher.py:122-134 | a start leaves an unsettled line behind if and only if it finds no checkpoint for the file and some generation it does not open holds one beyond where the stream of the file began |
| `Gaps.StartWithoutCheckpointSkips` | forwarder/watcher.py:122-134 | a run of nine steps in which a line is read and, after one crash and one rotation, never sent |
| `Lost.SkippedForGood` | forwarder/app.py:145-234 | a line left behind by a start and not sent before is sent in no continuation of the run |
| `Lost.LeftForGood` | forwarder/app.py:145-234 | a line in front of where the stream begins, and not sent before, stays so in every run |
| `Lost.TraceLeads` | forwarder/state.py:128-151 | in every run no checkpoint on disk and no running process is behind the place where the stream begins, whatever was saved, interrupted or damaged |
| `Forwarder.FatesAreFinal` | forwarder/app.py:181-195 | within a run the record of lines only grows, and only a message under way can change its fate, once |
| `Forwarder.TraceOneUnsent` | forwarder/app.py:194-197 | with the exits of the loop as `Loop.Forward` proves them, a run of the machine leaves at most one tracked line unsent over all files |
| `Loop.Forward` | forwarder/app.py:174-203 | the loop over all tails, passes, the stop flag and fatal errors: lines are handled in the order of the polls, and unless it ends early all of them are; a line is settled as blank exactly if every byte of it is white space; of all lines of all files at most one is left unsent, the last one handled; each tracker is told exactly the blank, malformed and settled lines |
| `Loop.Pass` | forwarder/app.py:174-199 | one pass over all tails continues the record in the order of the polls and ends early only on shutdown or a full queue |
| `Loop.TailPass` | forwarder/app.py:176-197 | the share of one tail in a pass: after an abort the stop flag is found set |
| `Loop.StartTail` | forwarder/app.py:155-160 | constructing the tailer and its tracker is the start step of the machine |
| `Loop.PollTail` | forwarder/app.py:176-180 | polling the tailer of a file is the poll step of the machine |
| `Loop.PollFileIsPollEnv` | forwarder/watcher.py:71-116 | the guards of that step are what `FileTail.Poll` relies on |
| `Loop.TrackLines` | forwarder/app.py:181-197 | the lines of a poll go through the tracking steps of the machine one by one; those of white space only, and no others, count as blank; at most the last is left unsent, only when its own attempts saw the shutdown flag or the queue stayed full; the tracker is told exactly the blank, malformed and settled ones |
| `Loop.HandleLine` | forwarder/app.py:182-195 | a line is settled as blank exactly if every byte of it is 9 to 13 or 32, as malformed exactly if some byte is not and it is no JSON, and otherwise sent, refused or left unsent; this is one tracking step of the machine, and it is aborted only if its own attempts saw the shutdown flag on a full queue |
| `Conservation.CountersBalance` | forwarder/producer.py:72-138 | in every run, at every point, each line handed over is waiting, delivered or failed and only one of these, and with the counters as the methods of the writer change them produced = acked + failed deliveries + outstanding callbacks |
| `Conservation.StepTallies` | forwarder/app.py:181-197 | every step of the forwarder moves the fates of lines as the writer moves its ledger |
| `Conservation.AckedIsSettled` | forwarder/app.py:162-163 | a line counts as acknowledged exactly if it was blank, malformed, or settled in the writer's ledger |
| `Findings.Store.Write` | ingestor/store.py:69-113 | by either path, the effect is that of inserting the storable rows alone with the offsets; inserted and rejected count them exactly; a connection error means all or nothing |
| `Findings.InsertAllAdds` | ingestor/store.py:80-87 | inserting never removes or replaces a row |
| `Findings.InsertAllKeys` | ingestor/store.py:80-87 | the keys afterwards are those before and those of the rows, and a new row is one of the rows |
| `Findings.RowsCount` | ingestor/app.py:107-124 | a batch has offsets to store exactly if it has a message, and no more rows than messages |
| `Findings.EventRows` | ingestor/normalize.py:53-62 | a key is in the table after a batch exactly if it was before or a storable message of the batch has this identity, and a new row is that of the first such message |
| `Findings.Ingestor.Process` | ingestor/app.py:106-138 | a storable alert of the batch has its row under its manager, or the empty one, and its id, or else `sha256:` and its content hash: the row that was there, or that of the first message of the batch with this identity; nothing else is new; consumed = inserted + duplicates + rejected always; a failed batch is not counted and took effect entirely or not at all |
| `Ingest.FetchCovers` | ingestor/app.py:108-116 | a batch holds of each partition exactly the messages between the positions before and after it |
| `Ingest.OffsetsReached` | ingestor/app.py:115-116 | the offsets stored with a batch are the positions reached by it |
| `Ingest.NewlyCovered` | ingestor/app.py:124-126 | storing a batch accounts for exactly its messages in addition to those accounted for before |
| `Ingest.NextKeepsInv` | ingestor/app.py:56-138 | every step, whatever fails, keeps table, offsets and position consistent |
| `Ingest.TraceInv` | ingestor/app.py:98-146 | ... hence so does every run |
| `Ingest.TableIsExact` | ingestor/app.py:56-138 | exactly once: in every run every storable alert in a message accounted for by the stored offsets has a row under its manager, or the empty one, and its id, or else `sha256:` and its content hash; every row is of a message accounted for with just that identity, in a partition never of a later copy |
| `Ingest.SharedRow` | ingestor/normalize.py:53-62 | two storable alerts accounted for share a row if and only if they agree in manager and id, with the same defaults |
| `Ingest.NextOnlyAdds` | ingestor/store.py:69-108 | no step takes back or changes a row, or moves a stored offset back |
| `Ingest.FirstCopyStays` | ingestor/store.py:69-75 | the first committed copy of an alert is kept unchanged in every run |
| `Ingest.AccountGrows` | ingestor/app.py:56-74 | once a partition has a stored offset nothing behind it is skipped in any run |
| `Ingest.ReassignSkips` | ingestor/app.py:56-69 | a message waiting at a reassignment is accounted for in no continuation of the run if and only if the policy is `end` and no offset of its partition is stored; otherwise it is accounted for or still ahead in every one |
| `Ingest.ReassignCanSkip` | ingestor/app.py:56-69 | a run in which a message that came in between two assignments is passed over |
| `Ingest.PassedOverForGood` | ingestor/app.py:56-69 | with the policy `end`, what was passed over is never accounted for |
| `Pipeline.TraceInv` | ingestor/normalize.py:53-62 | in every joint run both invariants hold and everything in the topics is a line of some followed file's stream |
| `Pipeline.AlertArrives` | ingestor/store.py:69-108 | a storable alert in front of a loadable checkpoint, not logged undeliverable, has a row of its key once the ingestor has caught up; with unique ids that row holds this alert and is the only one |
| `Pipeline.OneRowEach` | ingestor/normalize.py:53-62 | with unique ids, in every joint run, a storable alert in a message accounted for has exactly one row, which holds its bytes, however often it was sent |
| `Pipeline.NoRowInvented` | ingestor/normalize.py:53-62 | every row is a line of some followed file, under the manager its alert names, or the empty one, and its id, or else its content hash |
| `FileNames.NameOrder` | go-agent-v0/internal/buffer/buffer.go:147-151 | lexical order of file names is order by collection time, then id, for all times from 0 on |
| `FileNames.NegativeTimesSortBackwards` | go-agent-v0/internal/buffer/buffer.go:147-151 | for times that differ it is the order of the times if and only if not both are before 1970 |
| `DiskQueue.Queue.Open` | go-agent-v0/internal/buffer/buffer.go:68-114 | the pending files are the event files on disk and the counters count them; exactly the temporary files that cannot be removed are left |
| `DiskQueue.Queue.EnforceLimits` | go-agent-v0/internal/buffer/buffer.go:263-305 | with any more of the oldest events kept, a limit would be exceeded, in number or in bytes; with those kept, if any, and no error, none is; the counters stay exact |
| `DiskQueue.Queue.Write` | go-agent-v0/internal/buffer/buffer.go:120-145 | drops what has to go and no more, in the numbers of the limits; then the new file is there, in place of any of its name, with all the others, or on an error is not; the counters are exact afterwards if and only if nothing was written or no pending file had its name |
| `DiskQueue.Queue.ReadBatch` | go-agent-v0/internal/buffer/buffer.go:157-194 | returns the parseable files of exactly the front that the bounds call for: it ends with the queue, with the number of events asked for, or before a file that would take it over the byte limit; leaves them on disk, and dead-letters the corrupt ones among them; a file that cannot be read ends it with an error and no batch |
| `DiskQueue.Queue.Ack` | go-agent-v0/internal/buffer/buffer.go:197-217 | takes out exactly the files of the batch still pending and removable, counts each once, and reports failure exactly if one could not be removed |
| `DiskQueue.Queue.DeadLetter` | go-agent-v0/internal/buffer/buffer.go:222-233 | the same into the dead directory |
| `DiskQueue.Queue.DeadLetterFile` | go-agent-v0/internal/buffer/buffer.go:235-246 | moves one file and counts it out; a file already gone is no error and changes nothing |
| `DiskQueue.Interleave` | go-agent-v0/internal/buffer/buffer.go:45-58 | under any interleaving of calls with new names, outstanding batches and failures included, the cached counters stay what a fresh scan would find, every file stays in exactly one place, and each call changes the books as it should |
| `DiskQueue.OneCall` | go-agent-v0/internal/buffer/buffer.go:120-246 | so does each call |
| `DiskQueue.Queue.Commit` | go-agent-v0/internal/buffer/buffer.go:134-144 | the rename and the counting: exact if and only if no pending file had the name |
| `Spool.PlaceSorted` | go-agent-v0/internal/buffer/buffer.go:307-321 | a written file appears at its place in the sorted listing, whose names are those before and its own |
| `Spool.PlaceHolds` | go-agent-v0/internal/buffer/buffer.go:134-144 | afterwards the file is there in place of any of its name, and every other file still is |
| `Spool.KeepsLongestSuffix` | go-agent-v0/internal/buffer/buffer.go:263-284 | what the limit loop keeps fits with the newcomer unless nothing is left, and with any more of the old events it would not fit |
| `Spool.SurplusIsLeast` | go-agent-v0/internal/buffer/buffer.go:263-284 | the same in the numbers of the limits |
| `Spool.LimitsHoldAfterWrite` | go-agent-v0/internal/buffer/buffer.go:263-273 | after a write both limits hold, except that one event larger than the byte limit may be alone |
| `Spool.BatchBounds` | go-agent-v0/internal/buffer/buffer.go:153-156 | a batch has at most maxN events and at most maxBytes, except that its first event may exceed them alone |
| `Spool.BatchEnds` | go-agent-v0/internal/buffer/buffer.go:167-191 | a batch in front of which files remain is not empty and has maxN events, or the next file would take it over maxBytes |
| `Spool.BatchIsOldestRun` | go-agent-v0/internal/buffer/buffer.go:157-194 | a batch is the oldest run of parseable events and not empty if there is any |
| `Spool.ReadsUnique` | go-agent-v0/internal/buffer/buffer.go:167-191 | where reading stops is determined by the listing and the bounds |
| `Spool.PutTidy` | go-agent-v0/internal/buffer/buffer.go:134-144 | writing a new name keeps every file in exactly one place |
| `Spool.DropTidy` | go-agent-v0/internal/buffer/buffer.go:286-305 | so does dropping the oldest |
| `Spool.TakeTidy` | go-agent-v0/internal/buffer/buffer.go:197-246 | so do acknowledging and dead-lettering any names, pending or not |
| `Sink.Ship` | go-agent-v0/cmd/agent/main.go:190-224 | one turn of the drain loop, with files that cannot be moved, removed or read: a batch leaves, but for stuck files, exactly if its answer is a status below 500 other than 401, 403, 408 and 429, or none because it cannot be sent at all, and is acknowledged exactly on 200 to 299; otherwise every parseable event stays |
| `Sink.DrainPass` | go-agent-v0/cmd/agent/main.go:189-226 | only the last answer used can end the pass: it halts shipping exactly on 401 or 403 and backs off exactly on no reply, 408, 429 or a status from 500 on; what parses in the queue afterwards is what parsed before without what was handled and could be removed; if nothing is stuck batches leave front to back; it ends with an empty queue if every batch is accepted or refused; the attempt count is that of failed passes in a row |
| `Sink.FrontStep` | go-agent-v0/internal/buffer/buffer.go:157-217 | reading the first n files and settling their batch leaves exactly the queue from n on |
| `Sink.StuckStep` | go-agent-v0/internal/buffer/buffer.go:157-246 | with stuck files, reading leaves every parseable event in place and settling takes out exactly those that can be |
| `Shipping.NextKeepsInv` | go-agent-v0/cmd/agent/main.go:170-226 | every interleaving of one writer and one drainer, with failed operations and crashes, keeps the account of every file |
| `Shipping.TraceInv` | go-agent-v0/internal/buffer/buffer.go:12-14 | in every run each file written is pending, acknowledged, dead or dropped and only one of these; what was acknowledged was accepted |
| `Shipping.WhatAStepTakes` | go-agent-v0/internal/transport/transport.go:71-126 | one step takes an event away only by dropping it for space, acknowledging a batch answered by 200 to 299, or dead-lettering it because its batch was refused for good or it is corrupt; no retryable or unauthorized answer takes any |
| `Shipping.NothingLeavesUndelivered` | go-agent-v0/cmd/agent/main.go:168-226 | over every run an event not dropped for space is pending, or was in a batch answered by 200 to 299, or is in the dead directory because a batch with it was refused for good or it is corrupt |
| `Shipping.TraceIsOneWay` | go-agent-v0/internal/buffer/buffer.go:197-246 | what was acknowledged, dead or dropped stays so, and nothing written is forgotten |
| `Journal.NextKeepsInv` | go-agent-v0/internal/collectors/auth/auth.go:174-201 | every interleaving of collector and writer, with crashes and failed writes, keeps account of each entry behind the cursor |
| `Journal.AtMostOneLostPerCrash` | go-agent-v0/internal/collectors/auth/auth.go:174-201 | in every run each valid entry behind the saved cursor is in the queue, in the writer's hand, or one of the lost, at most one for each crash or failed write |
| `Journal.CursorLeadsByOne` | go-agent-v0/cmd/agent/main.go:105-115 | the saved cursor leads the queue by at most one entry |
| `Journal.CrashLosesExactly` | go-agent-v0/internal/collectors/auth/auth.go:188-198 | a crash passes an entry over if and only if it was handed over and the cursor saved before it was on disk |
| `Journal.CrashCanLoseOne` | go-agent-v0/internal/collectors/auth/auth.go:193-198 | a run in which that happens |
| `Journal.RestartSkips` | go-agent-v0/internal/collectors/auth/auth.go:213-224 | an entry waiting at a restart never reaches the queue in any continuation if and only if no cursor was saved; otherwise it is accounted for or still ahead in every one |
| `Journal.RestartCanSkip` | go-agent-v0/internal/collectors/auth/auth.go:213-224 | a run in which an entry is passed over because no cursor was saved |
| `Journal.PassedOverForGood` | go-agent-v0/internal/collectors/auth/auth.go:213-224 | an entry that reading has begun behind is never read |
| `Backoff.Backoff` | go-agent-v0/internal/transport/transport.go:144-153 | the delay is the number drawn for the bound that the shifted base gives, taken to 64 bits with a sign, or the cap if that is not positive or beyond the cap; it lies between 0 and the cap |
| `Backoff.WrapMeans` | go-agent-v0/internal/transport/transport.go:148 | what the shift leaves is the one signed 64-bit number that agrees with the exact product in its low 64 bits |
| `Backoff.DelayIsExact` | go-agent-v0/internal/transport/transport.go:148-151 | with the odd part of the base times the cap below 2^63, the delay before jitter is the exact power of two or the cap at every attempt, in spite of wrap-around |
| `Backoff.DefaultDelay` | go-agent-v0/internal/config/config.go:69-70 | for the defaults it is min(2^(n-1) s, 60 s) at every attempt |
| `Backoff.ExactUnlessFaked` | go-agent-v0/internal/transport/transport.go:144-153 | for any base and cap, that holds at an attempt if and only if the shift has not wrapped around to a positive value below the cap |
| `Backoff.WrapCanFakeADelay` | go-agent-v0/internal/transport/transport.go:148-151 | a base, cap and attempt for which wrap-around gives a delay below the cap |

## Left out

- Errors of the operating system other than those that decide a branch, such as a directory that cannot be listed.
- The device check and the removal of duplicate names among rotated candidates; `Listed` assumes one name for each generation.
- The chance that an unrelated file passes the boundary test, and a file truncated and grown past the old offset between two polls: the code cannot tell.
- Truncation in place, in the theorems about whole runs: `FileTail.Poll` states its effect, the stream of a truncated file is not defined here.
- JSON and timestamp parsing, the cleaning of NUL characters, field extraction and SHA-256: functions of the bytes, given as parameters (`Config.isJson`, `Codec`); columns of a row other than key, content and origin.
- Timing: poll, save and flush intervals are free choices of when a step happens; the doubling delay of the ingestor's `connect` loop, and the flush at shutdown, which is a number of callbacks followed by a commit and a save.
- The reordering of renames by a power loss; a crash is the death of the process. `_fsync_directory` has no effect in the model.
- The random temporary file names of `save`, so a temporary file abandoned by a crash counts as gone at the next start.
- Several ingestors, retention in Kafka below the stored offset, fenced producers.
- TLS, enrolment, renewal, installers, command line modes, the demo programs (except the shape of rotation), configuration checks.
- Integer widths other than the shift in `Backoff`: counters, offsets and sizes are unbounded.
- `finalFlush` as a loop of its own: its reads, answers and settlements are the steps of `Shipping`, its stopping on an unauthorized answer removes nothing.
- Goroutines of the agent as code: the mutex makes each queue method one step, so `Shipping` and `Journal` interleave values rather than objects. The partial effects of a method cut short are steps of their own (a write that only dropped, a settlement with files stuck).
- A queue file whose content changes after it was written; whether a file parses is fixed when it is written.
- Forwarder.TraceOneUnsent: that no step follows an unsent line is a guard of the machine; `Loop.Forward` proves it of the loop.
- Sink.DrainPass: no event is written during the pass; runs with a writer in between are covered by `Shipping`.
- Watcher.FileTail.FindRotated: a candidate that cannot be opened, or whose inode changes between `stat` and `open`, counts as not listed.
- Shipping.NothingLeavesUndelivered: an event whose write failed is not in the account, because `main.go` only logs it.
- Producer.KafkaWriter.Send: the attempts are a finite list, so a queue that stays full for ever is a list that runs out.
- Ingest.TableIsExact: with `start_from=end` the account of a partition begins where its first stored batch was read from.
