# pgnotch, verified

pgnotch keeps fenced, append-only logs in stock PostgreSQL: one registry row and two entry tables
per log, and one statement per append. This project models that machine in Dafny and proves what
the package promises its callers, over every interleaving and every run.

The model has three layers, each refining the one above it.

* `AbstractLog`: an owner, every entry ever appended, a watermark.
* `Ring`: the registry row and the two tables, each a multiset of rows; fence, append, trim and
  reclaim are atomic steps, and a reclaim carries an arbitrarily stale row as its gate.
* `Locks`: the operations taken apart into table locks, snapshot, row wait, re-evaluation and
  commit or rollback, for any number of sessions.

Around them: `Codec` (cutting entries into rows and reading them back), `Reads` (a read across two
snapshots), `Diagnosis` (the second reading after a refusal), `Casts` (the int64 parameters of the
statements), `Space` (how much the tables can hold), `Registry` (many logs, many Stores, cached
statements), `Store` (the calls themselves, as classes), `Replay` (the retry rule as a client
automaton), `LoadWriter`, `LoadSpace`, `Histogram` and `Pacer` (the load generator).

Two facts about PostgreSQL are built into the steps of `Locks` and `LockTable` and not proved: an
UPDATE released from a wait re-evaluates its WHERE clause on the row's newest version (READ
COMMITTED, section 13.2.1 of the PostgreSQL manual), and which lock modes conflict (section 13.3.1).

The ring is proved for every way of laying out an entry in rows (`Ring.Cut`); the program's own
layout is `Codec.Laid`, which carries each entry's seqno on every row (`Refinement.LaidIsTagged`).

## Where the code and its prose part

Six statements of the prose hold only under a condition. Each is proved exactly where it holds, with
a case where it does not.

* A read of fewer than `limit` entries means the log's end (store.go:327-328) exactly when, at the
  second statement, the tables still reach down to the window or the log ends inside it:
  `Reads.ShortReadIff`. A watermark that has not reached the window is enough.
  `Reads.ShortReadBeforeTheEnd` is an empty read of a log with a hundred entries.
* A diagnosis can only name a refusal outranking the statement's (store.go:260-263) exactly when the
  appender's epoch is at most the row's, or is one from 2^63 on, which no fence can take:
  `Diagnosis.UpheldIffFenced`. Even then a gap may turn out to have closed, which the code leaves
  unnamed: `Diagnosis.GapMayBecomeAnything`.
* Entries are read back whole (README.md:308-310) exactly when they are at most 32768 chunks long,
  because chunk numbers are cast to int16: `Codec.Readback`.
* A read's window is the one asked for exactly when it is clear of 2^63 and 2^64: with the largest
  limit a read from the second entry finds nothing, and a read from the largest seqno finds the log's
  beginning: `Casts.WindowCast`, `Casts.LargestLimitReadsNothing`, `Casts.LargestSeqnoReadsTheStart`.
  A trim to 2^63 or above trims nothing, and a fence at 2^63 or above is refused without a name:
  `Casts.TrimCast`, `Casts.FenceCast`. The abstract log and the ring do the same.
* A writer whose epoch grew may replay under its new epoch and read ErrAlreadyWritten as the ack
  (log.go:61-68) where no other epoch in between has appended: `Replay.ExactlyOnce`. In general it is
  the ack exactly when the entry at the batch's first seqno carries the old epoch:
  `Replay.RenewedAckIff`, and `Replay.LostInBetween` where it does not.
* The load writer's replay is not exactly-once, unlike the retry rule it cites
  (cmd/pgnotch-load/writer.go:98-102). For the only writer of a log a batch is there once more for
  every time the writer moved on with it in hand, and so each is there once if and only if the
  writer's count of acks stood still: `LoadWriter.OnceIffNoAcks`, and `LoadWriter.LoadWriterMayRepeat`
  for a batch that is there twice.

## Model

| member | source | states |
|---|---|---|
| Rules.AppendRefusal | refuse.go:60-80 | nil exactly where the append's UPDATE matches; otherwise the refusal that ranks first, each characterised in both directions |
| Codec.ChunksOfSplits | store.go:312-323 | splitting loses no byte, every part fits a row, and there are as many parts as chunkArrays counts |
| Codec.SplitPayload | store.go:314-323 | the splitting loop computes the parts ChunksOfSplits is about |
| Codec.RowsTaken | store.go:15-19 | an entry takes n rows if and only if it has more than 8000 (n - 1) and at most 8000 n bytes, an empty one one row |
| Codec.ChunkArrays | store.go:292-310 | the three arrays, unnested, are the rows of the batch's entries in order, chunk numbers cast to int16 |
| Codec.ReadRows | store.go:366-397 | the reassembly loop computes Assemble |
| Codec.SortPeelsBlock | store.go:348-358 | sorting a union gives a strictly ordered lower block first and in its own order |
| Codec.Readback | store.go:292-397 | from any ordering of the rows by (seqno, chunk) the read returns exactly the entries, if and only if each payload is at most 32768 * 8000 bytes; otherwise it reports a lost chunk |
| AbstractLog.RunKeepsValid | log.go:22-51 | on every run seqnos are gap-free, epochs never fall along the log and never exceed the owner, and no entry, ownership or trim is taken back |
| AbstractLog.TrimmedIff | store.go:426-447 | a seqno is below the watermark if and only if some trim at or above it was made after its entry was appended |
| AbstractLog.FenceCutsOff | store.go:126-156 | after a fence at e any run leaves the log as if the appends of lower epochs had never been made |
| AbstractLog.Handover | store.go:400-424 | an append at the NextSeqno asked for after one's fence is admitted if and only if no higher epoch fenced and no append of the own epoch took effect since, whatever was trimmed; a fence at 2^63 or above counts for nothing |
| Ring.RunOnlyAdvances | store.go:260-263 | epoch, last_seqno and trim_upto never move back on any run |
| Ring.FenceCutsOffRows | store.go:140-147 | fencing down to the rows: row and tables are the same without the appends of lower epochs |
| Refinement.StepRefines | store.go:135-596 | one fence, append or trim on row and tables is that call on the abstract log, and a reclaim with any gate is no call |
| Refinement.EveryRunRefines | store.go:135-596 | every interleaving from a created log refines the abstract log, live half and older half being exactly their ranges of its entries |
| Refinement.LiveRowsAreTheLog | store.go:343-358 | in every reachable state each row above the watermark is in the tables as often as in the abstract log's entries above it, and those are consecutive |
| Refinement.RingInvariant | ring.go:27-52 | in every reachable state trim_upto <= last_seqno, cur_lo and prev_hi are consistent, and the wrapping tests ringFull and prevEmpty equal the true ones |
| Refinement.RingTestsAreExact | ring.go:40-52 | the uint64 arithmetic of ringFull and prevEmpty neither wraps nor underflows on a log's row |
| Refinement.ReclaimIsSafe | ring.go:54-66 | under any stale gate a reclaim removes only rows at or below the watermark, leaves the live half alone, turns the ring only into an empty table, and not at all over a half it did not lock to empty |
| Refinement.ReclaimDecides | ring.go:11-66 | in every reachable state a trim's own reclaim does nothing while the older half holds anything untrimmed; otherwise it empties that half and turns the ring exactly from a span of 4096 seqnos on |
| LockTable.NoWaitCycle | store.go:524-533 | sessions taking the tables in slot order and the row last never wait in a cycle, queues included |
| LockTable.SomeoneCanMove | store.go:524-533 | where some session waits, some session can move |
| LockTable.RowFirstDeadlocks | store.go:526-529 | an append and a reclaim taking the row first reach a state in which each waits for the other |
| Locks.StepKeepsInv | store.go:227-258 | every step keeps locks compatible and every row holder's version current |
| Locks.CommitIsOneStep | store.go:233-241 | a commit is the whole operation at that instant: an append's rows land in the slot current then, a reclaim does what the row says then |
| Locks.RefusalIsTrue | store.go:233-237 | a statement that matched nothing, at its snapshot or after its wait, was refused by the row as it stood |
| Locks.NoTruncateOverlapsAppend | store.go:526-533 | no append and no row query is in flight from a reclaim's TRUNCATE to its end |
| Locks.EveryInterleavingIsSerial | store.go:524-596 | any interleaving of any number of sessions, with rollbacks anywhere, leaves row and tables as the committed operations in commit order do, and so refines the abstract log |
| Locks.NoInterleavingDeadlocks | store.go:239-241 | no reachable state has a cycle of waiting sessions |
| Locks.AdmittedCanCommit | store.go:227-258 | every operation its row admits, run alone, has a run that ends in its commit with the whole operation done |
| Locks.ReadCanRun | store.go:348-358 | a read run alone gets both its tables |
| Reads.ReadReturns | store.go:343-397 | a query of the tables reads as one unbroken run of the log, from the window's start or where the tables begin, or fails exactly on an oversized entry |
| Reads.SplitRead | store.go:332-398 | with any operations between the two statements the result is one unbroken run, from the window's start or where the tables then begin, with every entry of the window still above the second watermark; it fails exactly on an oversized entry of that run |
| Reads.ShortReadIff | store.go:327-328 | a short read means the log's end if and only if the tables still reach down to the window or the log ends inside it, which a watermark below the window ensures |
| Reads.QuietRead | store.go:325-341 | with nothing in between a read returns exactly what the log holds of its window, or fails exactly on an oversized entry of it |
| Reads.ShortReadBeforeTheEnd | store.go:327-328 | two trims and the reclaims they make in between give an empty read of a log that has a hundred entries |
| Reads.AckedStays | README.md:103-109 | an entry of an append that took effect is in the log at its seqno, unchanged, ever after |
| Diagnosis.RefusalUpheld | store.go:260-287 | for an appender at or below the row's epoch the second reading names the same refusal or one that outranks it, or finds a gap closed |
| Diagnosis.UpheldIffFenced | store.go:260-287 | that holds for every continuation if and only if the appender's epoch is at most the row's or is one no fence can take |
| Diagnosis.GapMayBecomeAnything | store.go:282-286 | a gap can stay, close, be overrun or be fenced off before the second reading |
| Diagnosis.FenceRefusalUpheld | store.go:158-174 | whatever runs before the second reading, a refused fence is diagnosed as ErrFenced if a higher epoch refused it and left unnamed if its epoch is 2^63 or above |
| Casts.FenceCast | store.go:143-147 | the cast comparison agrees with the rule on uint64 if and only if the epoch is below 2^63, and is the ring's for every epoch |
| Casts.AppendCast | store.go:212-213 | the cast WHERE clause agrees with the refusal rule for every epoch and first seqno |
| Casts.LastSeqnoCast | refuse.go:44-45 | the last seqno stored is the batch's own if and only if it is below 2^63 |
| Casts.TrimCast | store.go:442-447 | the cast clamp agrees with the rule on uint64 if and only if upTo is below 2^63 or nothing is left to trim, and is the ring's for every upTo |
| Casts.WindowCast | store.go:345-358 | the cast window selects the entries meant if and only if it is clear of both ends of the number range |
| Casts.LargestLimitReadsNothing | store.go:346-358 | a read from the second entry with the largest limit selects no entry |
| Casts.LargestSeqnoReadsTheStart | store.go:346-358 | a read of ten from the largest seqno selects the first eight entries |
| Space.SpaceIsBounded | store.go:434-462 | with at most d seqnos between trims that leave at most r, both halves never hold more than max(4096, r) + max(r, 1) + 2d - 2 seqnos, which is within max(4096, r) + r + 2d |
| Space.BoundIsReached | ring.go:40-66 | for every r and every d but 0 some caller that keeps the bargain reaches the bound, so it is exact |
| Registry.NamesAreInjective | schema.go:32-45 | a table name determines ordinal and slot |
| Registry.CallsAreIsolated | store.go:480-520 | a call steps the ring of the log it names and touches no other, and every cached statement stays its own log's |
| Registry.LogsShareNothing | migrations/00001_registry.sql:8-19 | in every reachable state of any number of Stores every log is what the operations addressed to it make of a created one |
| Registry.CreateAdds | store.go:73-121 | creating adds a fresh log and leaves existing ones exactly as they are |
| Store.Store.Remember | store.go:504-520 | the cached statement is the one of the log's ordinal, and an entry that is there stays |
| Store.Store.AppendFor | store.go:480-502 | from cache or registry, the statement is the log's own; none for a missing log |
| Store.Store.CreateLogs | store.go:56-124 | the batch as successive creations |
| Store.CreatedAllAdds | store.go:47-53 | after a batch every id exists and what existed is unchanged |
| Store.Store.Fence | store.go:135-174 | Ok if and only if the epoch is at or above the one held and below 2^63, then changing the epoch alone; each refusal if and only if its own cause holds; casts included |
| Store.OwnFenceCanBeRepeated | store.go:126-141 | after a fence that took effect and any operations since, the same fence is Ok if and only if no higher epoch has fenced |
| Store.Store.Append | store.go:196-225 | each answer if and only if its own cause holds, told from arguments and row; the batch's rows, cast and chunked, in the current table; past the end of the column the stored last seqno is negative |
| Store.MissingIsUnfenced | store.go:206-209 | a log that is not there is refused as one nobody has fenced |
| Store.AppendIsTheRegistrys | store.go:242-258 | an append whose batch ends in the column is the registry's call, through whichever Store's cache it goes |
| Store.CallsAreTheRegistrys | store.go:135-596 | fence, trim and reclaim of a Store are the registry's calls, for every argument |
| Store.Store.Trim | store.go:434-462 | the clamp of the ring followed by its reclaim if that commits |
| Store.Store.Reclaim | store.go:534-596 | the reclaim of the ring under the given gate, or nothing |
| Store.Store.NextSeqno | store.go:412-424 | one past the row's last seqno, or no such log |
| Store.Store.ReadFrom | store.go:332-398 | on any database the calls of any Stores have made, a clear window reads as exactly what the log holds of it above the watermark |
| Store.ReadsTheLog | store.go:343-397 | in every state the calls can make, what BETWEEN selects is read as the window of the abstract log |
| Store.AckedIsReadBack | README.md:110-111 | an entry of an append that took effect is in every later read whose window it is in, at its place, whoever owns the log by then, unless it is trimmed or an oversized entry fails the read |
| Replay.AttemptLandsOnce | store.go:233-237 | an attempt, of the epoch held now or an earlier one, lands only where the log ends just below it, and never again |
| Replay.ExactlyOnce | README.md:133-137 | on every run of replays, renewals at higher epochs, late landings and other clients' calls the log is what it was, then the acked batches each once, whole and in order under the client's epochs, then at most one copy of the batch in hand, then only higher epochs |
| Replay.AlreadyWrittenIsTheAck | log.go:61-68 | a refused attempt is diagnosed as ErrAlreadyWritten or ErrFenced only, and the former, under the epoch held now, means the batch is at its own seqnos at the very end of the log |
| Replay.AnswersAreTaken | README.md:133-137 | in every reachable state a reply acknowledges the batch, a refusal acknowledges it if and only if the log is still the client's, and otherwise the client stops |
| Replay.BatchCanBeAcked | README.md:133-137 | from every reachable state, whatever became of earlier attempts, the batch in hand is one attempt from being acknowledged while the client owns the log, and one renewal more where it can renew |
| Replay.NextBatchCanBeAcked | README.md:133-137 | and a batch yet to be drawn is one draw more |
| Replay.LostReplyIsReplayed | README.md:133-135 | the replay of an append whose reply was lost is refused, is acknowledged by the refusal, and leaves the log as it is |
| Replay.GivenUpMayLand | README.md:133-135 | an attempt given up on may still land, at its own seqnos |
| Replay.RenewedAckIff | log.go:65-68 | whoever owned the log in between, ErrAlreadyWritten under a renewed epoch is the ack if and only if the entry at the batch's first seqno carries the old epoch |
| Replay.LostInBetween | log.go:65-68 | an owner in between leaves an ErrAlreadyWritten that acknowledges nothing of the client's |
| LoadWriter.TrimTarget | cmd/pgnotch-load/writer.go:179-190 | a trim is due if and only if something is retained, more than that is written and a stride has passed, and then leaves exactly what is retained |
| LoadWriter.Writer.Run | cmd/pgnotch-load/writer.go:59-88 | each slot sends the batch in hand at the position, a batch goes again unchanged until nil, exactly the trims that are due follow nil, none where nothing is retained, and the loop ends at the first ErrFenced |
| LoadWriter.LoopFollowsTheRun | cmd/pgnotch-load/writer.go:62-156 | given the answers of any run of writer and log the loop has the automaton's position and batch |
| LoadWriter.LostIffFenced | cmd/pgnotch-load/writer.go:117-121 | a run stops the writer if and only if ErrFenced is the last answer it brings, and it is then the only one |
| LoadWriter.Writer.Trim | cmd/pgnotch-load/writer.go:179-201 | calls TrimTarget's trim and records it if it succeeded |
| LoadWriter.Record | cmd/pgnotch-load/writer.go:158-173 | counts the rows, cut entries and bytes of the batch |
| LoadWriter.CutCountIsCut | cmd/pgnotch-load/writer.go:158-173 | the entries counted as cut are those that take more than one row |
| LoadWriter.ByteCountIsLength | cmd/pgnotch-load/writer.go:158-173 | the bytes counted are those of the payloads end to end |
| LoadWriter.RowCountIsRows | cmd/pgnotch-load/writer.go:158-173 | the rows counted are the rows the store writes |
| LoadWriter.GapIsUnreachable | cmd/pgnotch-load/writer.go:130-136 | from any claimed log on every run, whoever else uses the log, the position never lies beyond its end and no diagnosis is ErrGap |
| LoadWriter.LogEndsAtThePosition | cmd/pgnotch-load/writer.go:98-156 | from any claimed log on every run its only writer finds it ending just below the position or one batch above it |
| LoadWriter.OnceIffNoAcks | cmd/pgnotch-load/writer.go:98-156 | on every such run the log is the base and the drawn batches in order, each as often as the writer moved on with it and once more, so that each is there once if and only if no ack was counted |
| LoadWriter.NextBatchCanBeReached | cmd/pgnotch-load/writer.go:98-156 | from every reachable state between slots, while it owns the log, the writer is at most one resync and one slot from being done with its batch |
| LoadWriter.LoadWriterMayRepeat | cmd/pgnotch-load/writer.go:123-128 | one ambiguous append can put a batch into the log twice |
| LoadSpace.LoadIsBounded | README.md:386-391 | however long it runs and whichever appends fail, a writer that trims behind itself keeps a log, new or taken over, to the space bound |
| LoadSpace.LoadKeepsUp | cmd/pgnotch-load/writer.go:175-190 | every append that comes to something is in the log, and from the first on less than what is retained and a stride lies above the watermark |
| Histogram.FiledBelow | cmd/pgnotch-load/stats.go:150-168 | a count is filed at or below bucket i if and only if it is at most its bound |
| Histogram.BoundIsClose | cmd/pgnotch-load/stats.go:117-121 | a bucket's bound is at least and at most a quarter above any count in it |
| Histogram.BucketsCoverTheWord | cmd/pgnotch-load/stats.go:150-168 | the 64-bit counts are exactly those of the first 252 buckets, whose bounds do not overflow |
| Histogram.Histogram.Observe | cmd/pgnotch-load/stats.go:132-135 | the counts are those of the samples and one more |
| Histogram.Sub | cmd/pgnotch-load/stats.go:82-93 | the difference of two readings is the histogram of the samples between them |
| Histogram.Rank | cmd/pgnotch-load/stats.go:181 | the rank less one is the fraction of the number of samples but one, rounded down |
| Histogram.Quantile | cmd/pgnotch-load/stats.go:170-189 | for any samples in any order the result is at least, and at most a quarter above, the k-th in order, where k is the fraction of the number of samples but one, rounded down |
| Pacer.Pacer.Issue | cmd/pgnotch-load/rate.go:47-60 | over any readings of the clock the pacer issues, skips and moves its due time as the runs below say, and due accounts for slots issued, slots reported skipped and less than an interval per restart |
| Pacer.AtOnceOrWhenDue | cmd/pgnotch-load/rate.go:23-33 | a slot is issued at the reading or when it is due, whichever is later |
| Pacer.OriginIsKept | cmd/pgnotch-load/rate.go:13-22 | while no reading is more than the catch-up late, slot k is due at start + k intervals and nothing is skipped |
| Pacer.RestartsFromNow | cmd/pgnotch-load/rate.go:30-32 | past the catch-up the slot goes at once, the next is due an interval from now and every whole interval missed is skipped |
| Pacer.NeverEarly | cmd/pgnotch-load/rate.go:13-33 | slot k is never issued before start + k intervals |
| Pacer.BurstIsBounded | cmd/pgnotch-load/rate.go:17-22 | from a decision on, the k-th slot takes at least k - 1 intervals less the catch-up |
| Pacer.NothingIsLost | cmd/pgnotch-load/rate.go:23-33 | due is start plus an interval per slot issued or skipped, plus less than one interval of drift per restart |

## Left out

- Store.Store.Append: nothing is promised of a Store once a batch has gone in that ends at or past 2^63; the row then has a negative last_seqno (`Casts.LastSeqnoCast` says exactly when), which trims and reads misread.
- Ring.Step: such a batch is outside the ring; fence epochs and trim targets are any uint64 and are cast as the statements cast them.
- LoadSpace.LoadIsBounded: every trim that is due succeeds and its reclaim commits, and no append lands without an answer; the writer would write such a batch again, as often as that happens (`LoadWriter.OnceIffNoAcks`), and the bound with it.
- Histogram.Quantile: the quantile is an exact fraction and the result a microsecond count; float64 rounding and the conversion to a Duration, which overflows past 292 years, are not modelled.
- Pacer.Pacer.Issue: times are unbounded integers and the blocking is the caller's; contexts and timers are not modelled.
- Store.Store.ReadFrom: the answer of the row query is an argument constrained by what the statement selects; sorting is PostgreSQL's.
- Locks.EveryInterleavingIsSerial: isolation levels other than READ COMMITTED, and lock timeouts as time; a reclaim may roll back at any point instead.
- LockTable.NoWaitCycle: CreateLogs is not among the sessions; batches that insert the same ids in opposite orders can wait on each other in the registry's index.
- Registry.LogsShareNothing: Drop, after which a Store's cache is void, and migrations are not modelled.
- Checks of log ids (length, NUL, UTF-8), error texts, payload aliasing, pools, contexts and SQLSTATE decoding: one-branch or driver facts.
- WAL volume, round trips and statement-cache sizing: costs of PostgreSQL and the driver, not state.
- The load generator's flags, size distribution and report lines: easy members and formatting.
