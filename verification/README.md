# A model of Robinhood's entry processor, changelog reader and expression cores

Robinhood mirrors a file system in a database. Changelog records and scans become operations that
run through a pipeline of stages, worked on by many threads; a record may only be acknowledged to the
changelog once everything up to it has been applied. This project models the parts on which that
depends and proves what they promise:

* the **pipeline**: stage lists, counters, mutexes, the recursive move of finished operations, the
  choice of work, the constraint manager that keeps two operations on one entry apart
  (`PipelineState`, `PipelineOrder`, `PipelineInvariant`, `PipelineExclusion`, `PipelineTheorems`, `PipelineSerial`, `PipelineLimits`,
  `PipelineFlush`, `PipelineEngine`, `ConstraintTable`);
* the **changelog reader**: its compaction queue and hash table, the records made up for renames, the
  commit index and the clearing of the changelog (`Changelog`, `ChangelogReader`, `RecordReplay`, `Namespace`,
  `Compaction`, `CompactionTraces`, `Acknowledgement`), and all of it together with the pipeline over runs with
  crashes (`EndToEnd`, `Restart`);
* the **database as the threads write it**: when the order of records matters, and why what many threads
  write between two crashes is what replaying the records one after the other writes (`ParallelReplay`, `Session`);
* the **row update** of the standard pipeline: what is written to a row, and why reading a row in one
  stage and writing it in another is as good as doing both at once (`RowUpdate`, `RowSerial`);
* **smaller cores**: lowering of Boolean and set expressions (`BoolExpr`), the table-driven expression
  parser and the printer (`ConfTables`, `ConfParser`), commands and variables (`ConfCommands`), both together from text to match (`ConfMeaning`), the ring queue (`RingQueue`), striping
  arithmetic (`Striping`), shell quoting (`ShellQuote`). `Common` holds what several of them share.

## How the pipeline is modelled

An operation is named by its push number. `PipelineState.Next` gives the effect of one event, and an event
is one critical section: the stage mutexes it needs are held throughout. `PipelineEngine.Engine` is the
program's own form, with lists, counters and flags updated in place by loops and by the recursive mover;
each of its methods is shown to perform a sequence of those events, to take mutexes only upwards
(`Lock` demands it) and to leave none behind. The results are about every state of every run
(`PipelineTheorems.RunInv`).

What the events assume of the code around the pipeline (`PipelineState.Enabled`):

* operations that have an id are pushed at GET_INFO_DB or before it, and an operation that must look its id
  up is pushed at GET_INFO_DB;
* an acknowledgement goes to a higher stage; it does not jump over GET_INFO_DB, and what leaves
  GET_INFO_DB without being removed has an id and has unblocked the stage;
* the parent and name of an operation are those it has when it is registered; GET_INFO_FS may fill in missing
  ones later (src/entry_processor/std_pipeline.c:587-593, 1345-1351), so exclusion by name is about names known at
  registration;
* the scan for work, which looks at one stage after the other and adds up their counters before it lets
  an operation without an id start, is one step.

In `EndToEnd` and `Changelog` a rename comes as one record, indices start at 1, and the changelog delivers
records in increasing order of index, from the requested one, unless they were cleared. A crash may happen
at any time: it empties the queue and the pipeline and keeps the database variable and the changelog.
In `RowSerial` the pipeline is the only writer of the database, and in `Session` the operations that carry changelog
records are; each reads the row of its entry at GET_INFO_DB and applies what it decided from it at DB_APPLY, or finds
earlier that there is nothing to do. Operations are registered under the fid and, if it has one, the name of their record.
The file system is taken as constant; an inode without links counts as gone (src/entry_processor/std_pipeline.c:1326-1330).

## Findings

Properties that one would expect do not hold without a condition; the conditions are part of the
statements, and each comes with the equivalence that shows how far it reaches.

* Compaction preserves the meaning of the records exactly as long as what is left out is harmless
  (`Compaction.HarmlessExactly`): a merged record must be quiet (`RecordReplay.Quiet`), a cancelled pair must be about
  an entry that the database does not know without it. The reader looks at neither. What this asks of the
  records is decided entry by entry, by following the row of each alone through the records read
  (`CompactionTraces.HarmlessByRows`, an equivalence). It holds of every trace in which created entries are new, no record
  about a change of attributes is separated by a change of links from the record that may absorb it, and marks are about
  no entry (`CompactionTraces.PlainKeepsMeaning`), with any other records in between. Four families of traces go wrong:
  * a rename takes one link off in the database and adds none (src/list_mgr/listmgr_remove.c:134-136). A close would read
    the count again, but if it was merged into the creation nothing does, and when the file then gets a second
    name and loses the first, the compacted queue drops a file that exists (`Compaction.RenamesMislead`);
  * an unlink that is not flagged as the last one is taken for the last when the database knows of one link
    only (src/entry_processor/std_pipeline.c:448-461), and a link count read at a close can be ahead of the records, so
    replaying every record can drop a file that the compacted queue keeps (`Compaction.LinkCountsMislead`);
  * a change merged into the creation of a directory that the database knew is lost (`Compaction.KnownDirectory`);
  * after a crash records are read again. If a file was created and applied before the crash and removed
    meanwhile, its creation and its last unlink now meet in the queue and are cancelled, against the intention
    stated at src/chglog_reader/chglog_reader.c:779-787, and the database keeps a row of a file that is gone
    (`Compaction.StaleRow`). Reading again also counts a hard link twice (`Compaction.CountedTwice`).
* After a crash reading begins after the index that was stored (`Restart.NothingStoredIsReadAgain`), but a reader that is
  reopened before it has read anything starts at 1, after the last record read, of which there is none
  (src/chglog_reader/chglog_reader.c:1256-1275). The first record it reads then is one that was stored as committed
  exactly when one was left uncleared (`Restart.FirstReadExactly`, `Restart.ReopenedTooEarly`), as happens when clearing is
  batched.
* Threads may apply records in another order than they were pushed. Records on one entry, or on one name known at
  registration, never swap places (`Session.AppliedInPushOrder`), and records about different entries may swap exactly
  when they do not both give the same name (`ParallelReplay.SwapExactly`). The exclusion does not cover a name that is
  looked up after registration, and there the order shows (`ParallelReplay.LookedUpNamesRace`); without such names the
  database is the one that push order gives (`Session.ParallelIsSerial`).
* What this means for a restart: `EndToEnd.CrashSafe` says that every acknowledged record was applied or suppressed and
  `EndToEnd.NothingLost` that every other one is read again. `Session.SessionIsReplay` says what a session does to the
  database it finds, with everything that was applied before the crash in it: what replaying every record
  of the session does, under the conditions above. Applying a record a second time is not undone by anything.
* `BlocksOnOST` subtracts the stripe index from the number of full stripes without looking: it is exact
  when the full stripes reach the OST, and wraps before that. `Striping.WrappedCode` says for every stripe count
  when the wrapped answer is right; one block on three OSTs gives a wrong one (`Striping.WrappedExample`).
  `DataOnOST` answers for an OST that is not listed by the size of the file alone (`Striping.RightAnswer`).
* The lowering of Boolean expressions accepts a negation between two operands and then matches as the
  second one (`BoolExpr.NegationBetweenOperands`). The grammar does not produce such trees (`ConfMeaning.ParsedIsProper`).
* A registered operation waits at GET_INFO_DB exactly when it is not active itself
  (`PipelineTheorems.WaitsUnlessActive`). The oldest one passes the first-operation test in every state
  (`PipelineTheorems.OldestMayStart`), and the oldest of those that wait passes it exactly when no active operation
  is on its id or on its name (`PipelineTheorems.NoConstraintCycle`).

## Model

| member | source | states |
|---|---|---|
| PipelineState.StdConfig | src/entry_processor/std_pipeline.c:85-123 | the standard stage table is one the results apply to; GET_INFO_DB is the constraint stage, exactly the last two stages are sequential, and only DB_APPLY takes batches |
| PipelineTheorems.EventKeepsInv | src/entry_processor/entry_proc_impl.c:353-995 | every push, pick, acknowledgement, move, late registration and unblocking keeps order, location, counters, tokens, exclusion and turn |
| PipelineTheorems.RunInv | src/entry_processor/entry_proc_impl.c:353-995 | that invariant holds in every state of every run |
| PipelineTheorems.GlobalOrder | src/entry_processor/entry_proc_impl.c:353-565 | in every reachable state the lists from the last stage to the first are in push order and hold every operation once |
| PipelineTheorems.OneActivePerId | src/entry_processor/entry_proc_tools.c:61-234 | in every reachable state two operations being processed at the constraint stage or past it differ in id and in parent/name |
| PipelineTheorems.BatchIdsDistinct | src/entry_processor/entry_proc_impl.c:776-805 | the operations of one batch past the constraint stage have pairwise distinct ids |
| PipelineTheorems.SequentialStartsInPushOrder | src/entry_processor/entry_proc_impl.c:605-669 | when a sequential stage starts an operation, every operation pushed before it has left or is past that stage |
| PipelineTheorems.StartsInPushOrder | src/entry_processor/std_pipeline.c:106-122 | over a whole run a sequential stage starts operations, hence fires commit callbacks, in push order |
| PipelineTheorems.CountersExact | src/entry_processor/entry_proc_impl.c:35-58 | the three counters of a stage are the numbers of its idle, busy and finished operations, thread counts and tokens add up, and no operation is listed past its stage |
| PipelineLimits.LimitsHold | src/entry_processor/entry_proc_impl.c:672-677 | in every state of every run no stage has more threads than its limit, a sequential one has one at most, and no thread holds more than one operation or a batch of the allowed size |
| PipelineLimits.StartsExactly | src/entry_processor/entry_proc_impl.c:600-760 | an operation may be started exactly when it waits at its stage, a thread is allowed there, and, at the constraint stage, nothing pushed before it is on its id or name, or, if it has no id, nothing else is at that stage or past it |
| PipelineLimits.PicksInPushOrder | src/entry_processor/entry_proc_impl.c:605-669 | in every run, of two operations that a sequential stage starts, the one started first was pushed first |
| PipelineLimits.PickDoes | src/entry_processor/entry_proc_impl.c:758-829 | starting a batch tags its operations, gives them to the thread, and leaves lists and other operations alone |
| PipelineLimits.AckDoes | src/entry_processor/entry_proc_impl.c:905-995 | an acknowledged operation is gone everywhere or waits for the next stage, and others are as before |
| PipelineLimits.PushDoes | src/entry_processor/entry_proc_impl.c:353-417 | a pushed operation is last in the order of the lists, with what it was pushed with |
| PipelineTheorems.WaitsUnlessActive | src/entry_processor/entry_proc_tools.c:61-187 | whoever works on what, a registered operation is listed idle at the constraint stage exactly when it is not active |
| PipelineTheorems.OldestMayStart | src/entry_processor/entry_proc_tools.c:116-187 | the oldest registered operation passes the test in every state, and waits exactly when it is not active itself |
| PipelineTheorems.NoConstraintCycle | src/entry_processor/entry_proc_tools.c:116-187 | the oldest operation that is not active waits, and passes the test exactly when no active operation is on its id or name |
| PipelineSerial.EventKeepsSerial | src/entry_processor/std_pipeline.c:919-962 | every event, an id found late included, keeps registration in push order and lets nothing overtake an operation that may still get an id |
| PipelineSerial.RunSerial | src/entry_processor/entry_proc_impl.c:690-760 | both hold in every state of every run |
| PipelineSerial.EarlierIsElsewhere | src/entry_processor/entry_proc_tools.c:116-187 | what was pushed before an active operation and is still there has another id and another name, or will never have an id |
| PipelineExclusion.NothingActive | src/entry_processor/entry_proc_impl.c:700-721 | when the counters of the upper stages leave only idle operations of the constraint stage, nothing is active |
| PipelineExclusion.EventKeepsGuarded | src/entry_processor/std_pipeline.c:953-962 | registration at the head after an id was found keeps exclusion, as does every other event |
| PipelineFlush.MovesKeepFlow | src/entry_processor/entry_proc_impl.c:472-562 | any sequence of moves loses, duplicates and reorders nothing |
| PipelineFlush.MovesKeepInv | src/entry_processor/entry_proc_impl.c:426-565 | any sequence of moves keeps the whole invariant |
| PipelineFlush.MovesFrame | src/entry_processor/entry_proc_impl.c:472-497 | moves of higher stages do not depend on a lower stage, so cutting the list before flushing is the same as after |
| PipelineEngine.Engine.constructor | src/entry_processor/entry_proc_impl.c:239-346 | a new pipeline is an initial state |
| PipelineEngine.Engine.UnlockRange | src/entry_processor/entry_proc_impl.c:558-561 | exactly the mutexes of the range are released |
| PipelineEngine.Engine.FinishedPrefix | src/entry_processor/entry_proc_impl.c:444-476 | the longest finished prefix and the lowest stage in it |
| PipelineEngine.Engine.LockUpTo | src/entry_processor/entry_proc_impl.c:482-501 | mutexes are taken upwards to the stage to insert into, and what was flushed on the way are moves |
| PipelineEngine.Engine.RegisterAll | src/entry_processor/entry_proc_impl.c:516-536 | the operations that have an id and are not registered are registered in order |
| PipelineEngine.Engine.CountInto | src/entry_processor/entry_proc_impl.c:543-554 | how many of the moved operations are to be processed at the new stage |
| PipelineEngine.Engine.MoveStageEntries | src/entry_processor/entry_proc_impl.c:426-565 | the recursive move terminates, is a sequence of atomic moves, leaves no finished operation at the head and holds the same mutexes after as before |
| PipelineEngine.Engine.Push | src/entry_processor/entry_proc_impl.c:353-420 | a push is the wait for a token, when operations are limited, and the push event, and releases every mutex |
| PipelineEngine.Engine.SequentialPick | src/entry_processor/entry_proc_impl.c:605-669 | on a sequential stage, the operation found may start, none found means none may; an operation being processed without a thread cannot be met |
| PipelineEngine.Engine.ParallelPick | src/entry_processor/entry_proc_impl.c:672-758 | on a parallel stage, the operation found may start, none found means none may |
| PipelineEngine.Engine.BatchLen | src/entry_processor/entry_proc_impl.c:773-805 | the batch may start, every member after the first was accepted, and it is as long as it can be |
| PipelineEngine.Engine.Search | src/entry_processor/entry_proc_impl.c:584-829 | the scan from the last stage finds the highest stage where something may start, and nothing only if nothing may start anywhere; then the emptiness flag says whether a stage that is not blocked has anything waiting |
| PipelineEngine.Engine.NextWorkAvail | src/entry_processor/entry_proc_impl.c:573-830 | what is started is one pick event of the highest stage that allows one; asked to stop, nothing is started |
| PipelineEngine.NoneWaitingMeans | src/entry_processor/entry_proc_impl.c:582-600 | when the emptiness flag is set, every operation is being processed, past its list, or waits at the blocked stage |
| PipelineEngine.Engine.AcknowledgeBatch | src/entry_processor/entry_proc_impl.c:905-995 | an acknowledgement is its event, then moves, then one token given back for each removed operation |
| PipelineEngine.Engine.ResolveId | src/entry_processor/std_pipeline.c:919-962 | an id found in the database registers the operation before all others |
| PipelineEngine.Engine.UnblockStage | src/entry_processor/entry_proc_impl.c:1243-1251 | unblocking is its event |
| ConstraintTable.Manager.Register | src/entry_processor/entry_proc_tools.c:61-102 | both hash tables keep their share of one registration order, and refuse an operation without an id |
| ConstraintTable.Manager.IsFirstOp | src/entry_processor/entry_proc_tools.c:116-187 | scanning two slots decides exactly whether the operation is the first of the registration order on its id and on its name |
| ConstraintTable.Manager.Unregister | src/entry_processor/entry_proc_tools.c:192-234 | the operation leaves the order and both tables, which stay exact |
| Changelog.Scan | src/chglog_reader/chglog_reader.c:825-879 | what a record is merged into or cancelled with is an earlier record on its fid of an allowed kind, and the last one on that fid for a cancellation |
| Changelog.DecideExactly | src/chglog_reader/chglog_reader.c:747-882 | a record is merged into the latest queued record that makes it needless, a removal is cancelled with the creation exactly when that is the last record about the entry, a mark is ignored |
| Changelog.ProcessDoes | src/chglog_reader/chglog_reader.c:793-882 | a kept record is queued as read, a merge adds the index to what an earlier record stands for and moves its index on when the two are adjacent, a cancellation deletes one record |
| Changelog.SuppressedMeans | src/chglog_reader/chglog_reader.c:835-863 | suppressed are exactly records that are not queued and what a cancelled creation stood for |
| Changelog.Expand | src/chglog_reader/chglog_reader.c:935-1142 | the records made up for a rename carry the index before, but for the last |
| Changelog.ProcessUpTo | src/chglog_reader/chglog_reader.c:868-873 | only the last queued record can carry the index read last, so only it can be given the next one |
| Changelog.ProcessNonDecreasing | src/chglog_reader/chglog_reader.c:1033-1217 | reading a record keeps the indices of the queue non-decreasing |
| Changelog.ProcessAckSafe | src/chglog_reader/chglog_reader.c:1033-1217 | no record of the queue carries an index at or above what a later one stands for |
| Changelog.ProcessCovers | src/chglog_reader/chglog_reader.c:793-882 | every index is still covered or counted as suppressed after reading, and none is made up |
| ChangelogReader.Reader.Lookup | src/chglog_reader/chglog_reader.c:812-879 | scanning one slot backwards decides as scanning the whole queue |
| ChangelogReader.Reader.CanIgnore | src/chglog_reader/chglog_reader.c:793-882 | ignoring, merging and cancelling change queue and hash table together, with the count exact |
| ChangelogReader.Reader.ProcessLogRec | src/chglog_reader/chglog_reader.c:1033-1217 | handling a record does to the queue what the whole-queue reader does |
| ChangelogReader.Reader.ProcessOpQueue | src/chglog_reader/chglog_reader.c:642-677 | a prefix is pushed, exactly as long as its head may not wait |
| ChangelogReader.Reader.Insert | src/chglog_reader/chglog_reader.c:687-741 | an operation is appended to the queue and to the slot of its fid |
| RecordReplay.QuietExactly | src/entry_processor/std_pipeline.c:336-356 | leaving out a record about a change of attributes can be told by no possible continuation of the trace exactly when the entry is gone, is not read again, or is in the database as the file system has it, link count included |
| Namespace.LastRecordDecides | src/list_mgr/listmgr_remove.c:142-168 | over a whole trace: the last record that concerns a name decides whether the name is that of its entry or not |
| Namespace.OtherNamesStay | src/list_mgr/listmgr_remove.c:142-168 | a name that no record concerns is as the database had it |
| Namespace.OneRow | src/entry_processor/std_pipeline.c:435-560 | what each kind of record does to the row of its entry: removed, one link less, read again with the count of the file system, of 1 for a new file or of one more for a hard link, or left alone |
| Namespace.LastRecordOfEntry | src/entry_processor/std_pipeline.c:435-560 | over a whole trace: the last record about an entry decides its row |
| Namespace.RenameMoves | src/chglog_reader/chglog_reader.c:1000-1142 | a rename read from the log gives the entry the new name, takes the old one, drops what the new name referred to if that was its last, and changes nothing else |
| RecordReplay.LinksTellApart | src/entry_processor/std_pipeline.c:448-461 | two databases that count different links of a file are told apart by hard links and unlinks |
| RecordReplay.RelinkingTellsApart | src/entry_processor/std_pipeline.c:448-461 | the same by names that come before they go, which any trace may be followed by (`RelinkingIsPossible`) |
| Compaction.CompactionPreservesMeaning | src/chglog_reader/chglog_reader.c:747-882 | for any database, known entries included: replaying what was pushed and queued gives what replaying every record gives, if every record left out was harmless |
| Compaction.HarmlessExactly | src/chglog_reader/chglog_reader.c:793-882 | that condition is exact: after harmless steps the next record leaves databases that no continuation of the trace tells apart if and only if leaving it out is harmless |
| Compaction.CancelExactly | src/chglog_reader/chglog_reader.c:778-783 | a cancelled creation and removal of an entry that is gone, with any records in between, can be told by no continuation of the trace exactly when the database does not know the entry without them |
| Compaction.CancelledIsGone | src/chglog_reader/chglog_reader.c:778-783 | a removal that meets the creation in the queue is of an entry that got no other name, hence is gone |
| Compaction.RenamesMislead | src/list_mgr/listmgr_remove.c:134-136 | a family of traces for which the compacted queue drops a file that exists and replaying every record keeps it |
| Compaction.LinkCountsMislead | src/entry_processor/std_pipeline.c:448-461 | a family of traces for which replaying every record drops a file that the compacted queue keeps |
| Compaction.KnownDirectory | src/entry_processor/std_pipeline.c:336-356 | a family of traces in which a merged change is lost because the created directory was known |
| Compaction.StaleRow | src/chglog_reader/chglog_reader.c:835-863 | a family of traces, read again after a crash, that leave a row of a file that is gone |
| Compaction.CountedTwice | src/entry_processor/std_pipeline.c:1521-1528 | a hard link applied again is counted again |
| CompactionTraces.RowOfReplay | src/entry_processor/std_pipeline.c:336-356 | what the database has of an entry after a replay is decided by the records about that entry alone |
| CompactionTraces.HarmlessByRows | src/chglog_reader/chglog_reader.c:793-882 | leaving records out is harmless if and only if, following each entry alone through the records read, every merged record finds its entry up to date and every cancelled pair finds it unknown |
| CompactionTraces.UpToDateSince | src/chglog_reader/chglog_reader.c:763-776 | from a record that reads an entry on, the row stays up to date through any records that do not change its links |
| CompactionTraces.PlainIsHarmless | src/chglog_reader/chglog_reader.c:747-882 | on a trace with new creations, no link changes before an absorbed change and marks about nothing, everything left out is harmless, however reads and pushes went |
| CompactionTraces.PlainKeepsMeaning | src/chglog_reader/chglog_reader.c:747-882 | for such a trace replaying what was pushed and queued gives what replaying every record gives |
| CompactionTraces.UsualTraceIsPlain | src/chglog_reader/chglog_reader.c:763-776 | a new file that is written, gets a second name and loses the first is such a trace |
| ParallelReplay.SwapExactly | src/entry_processor/std_pipeline.c:1639-1676 | records about different entries give the same database in either order exactly when they do not both give the same name |
| ParallelReplay.OrderDoesNotMatter | src/entry_processor/std_pipeline.c:1639-1676 | any order in which only records that are apart swap places gives the database of push order |
| ParallelReplay.LookedUpNamesRace | src/entry_processor/std_pipeline.c:1344-1351 | a family of records on different entries, one with a name looked up late, for which the order shows |
| Acknowledgement.Committer.StoreLastCommit | src/chglog_reader/chglog_reader.c:245-310 | the index is stored exactly when it is forced or due and the database agrees, and 0 is never written |
| Acknowledgement.Committer.ClearRecords | src/chglog_reader/chglog_reader.c:201-240 | records are cleared up to the last commit, and never up to 0 |
| Acknowledgement.Committer.RecordCallback | src/chglog_reader/chglog_reader.c:424-475 | nothing but the index of the record is stored or cleared; unless less than a batch was processed and more is to come it is both; a database that agrees never lags by the configured number of records |
| Acknowledgement.StartRecord | src/chglog_reader/chglog_reader.c:1471-1479 | reading restarts right after the stored record, and from the beginning when none is stored |
| EndToEnd.EventKeepsInv | src/chglog_reader/chglog_reader.c:388-475 | reading, pushing, pipeline events, callbacks, clearing, reopening and crashing keep the end-to-end invariant |
| EndToEnd.AcknowledgedIsSettled | src/entry_processor/std_pipeline.c:1802-1831 | when the clearing stage works on a record, every record up to its index has been dealt with |
| EndToEnd.CrashSafe | src/chglog_reader/chglog_reader.c:201-310 | in every run, every record up to an index stored or cleared was applied by operations that are done, or suppressed |
| EndToEnd.NothingLost | src/chglog_reader/chglog_reader.c:388-418 | after a crash a record that was neither applied nor suppressed is still in the changelog and will be read |
| EndToEnd.NothingForgotten | src/chglog_reader/chglog_reader.c:642-677 | a record below the reading position was dealt with, suppressed, or is queued or pushed |
| Restart.FirstReadExactly | src/chglog_reader/chglog_reader.c:1471-1479 | the first record read after a crash is one stored as committed exactly when the changelog was reopened before anything was read and such a record was not cleared |
| Restart.NothingStoredIsReadAgain | src/chglog_reader/chglog_reader.c:1471-1488 | otherwise no record of the session is one that was stored as committed before the crash |
| Restart.ReadsIncrease | src/chglog_reader/chglog_reader.c:1219-1300 | within a session no record is read twice, and none before an earlier one |
| Restart.ReopenedTooEarly | src/chglog_reader/chglog_reader.c:1256-1275 | a family of states from which a crash and a reopening deliver a record that was stored as committed |
| Restart.EarlierApplied | src/chglog_reader/chglog_reader.c:201-310 | what counts as applied before a crash was carried by operations that were done at some crash |
| Restart.EarlierSuppressed | src/chglog_reader/chglog_reader.c:835-863 | what counts as suppressed before a crash was suppressed when some record was read |
| EndToEnd.SessionMeaning | src/chglog_reader/chglog_reader.c:642-677 | whatever the database holds when a session begins: replaying what it pushed, in push order, and its queue gives what replaying every record of the session gives, if the records read allow what was left out, as plain ones do |
| EndToEnd.QueueIndicesMonotone | src/chglog_reader/chglog_reader.c:1062-1142 | in every run the indices along the queue never decrease |
| EndToEnd.StdWorld | src/entry_processor/std_pipeline.c:106-117 | the clearing stage of the standard pipeline is sequential and comes after the database is written |
| Session.EventKeepsInv | src/entry_processor/std_pipeline.c:888-1676 | reading the changelog, pushing, pipeline events, reading a row, writing it and crashing keep: every row read and not used is current, and what is applied against push order is about other entries and names |
| Session.AppliesAtOnce | src/entry_processor/std_pipeline.c:888-1676 | what an operation decided from the row it read and writes later is the effect of its record on the database of that moment |
| Session.AppliedInPushOrder | src/entry_processor/entry_proc_tools.c:116-187 | in every run records on one entry, or on one name, are applied in push order |
| Session.ParallelIsSerial | src/entry_processor/std_pipeline.c:1639-1676 | in every state of every run the database is what applying the same records in push order gives, if no name looked up for one entry is given to another |
| Session.SessionIsReplay | src/chglog_reader/chglog_reader.c:642-677 | in every run, once the queue is empty and everything pushed is applied, the database is what replaying every record of the session, one after the other, gives |
| RowUpdate.Operation.KeepChanges | src/entry_processor/std_pipeline.c:1533-1566 | only attributes that the database has with the same value are dropped; name and parent stay |
| RowUpdate.Operation.PreApply | src/entry_processor/std_pipeline.c:1504-1634 | writing what is left to any row that agrees with what was read is writing everything but the masked attributes |
| RowUpdate.WrittenExactly | src/entry_processor/std_pipeline.c:1504-1634 | an attribute is written, with the links a record implies, exactly when it is not the creation time, read-only, striping known to be right or the time of a match that gave the same class |
| RowUpdate.InsertedExactly | src/entry_processor/std_pipeline.c:1504-1634 | on insertion everything but read-only attributes is written |
| RowSerial.SnapshotIsCurrent | src/entry_processor/std_pipeline.c:977-996 | in every run the row read at GET_INFO_DB is the row there is when the operation writes |
| RowSerial.WritesAreAtomic | src/entry_processor/std_pipeline.c:1639-1676 | every write does what reading, deciding and writing its row at once would do, and touches no other row |
| RowSerial.UnlinksSeeTheRow | src/entry_processor/std_pipeline.c:448-487 | an unlink removes the row exactly when the row of that moment counts one link or the record says it was the last |
| RowSerial.HardlinksAddUp | src/entry_processor/std_pipeline.c:1521-1528 | a hard link adds one to the count of that moment |
| RowSerial.RemovedAndCreated | src/entry_processor/std_pipeline.c:1515-1530 | a removed directory leaves no row, and a created file has one link |
| RowSerial.LinksTakenOff | src/list_mgr/listmgr_remove.c:134-136 | a name that goes away, but for the last, takes exactly one link off the row and nothing else |
| BoolExpr.InterpretCondition | src/cfg_parsing/rbh_boolexpr.c:257-464 | a condition is rejected or lowered as specified, and adds exactly what it needs to the mask |
| BoolExpr.BuildBoolExpr | src/cfg_parsing/rbh_boolexpr.c:595-700 | the tree is the lowering of the expression and the mask grows by exactly the union of its conditions |
| BoolExpr.LoweringPreservesMeaning | src/cfg_parsing/rbh_boolexpr.c:31-68 | a tree that was built matches every entry as the expression means, undecided conditions included; == and != with wildcards are pattern matches |
| BoolExpr.LoweringIsBoolean | src/policies/policy_matching.c:1277-1338 | on decided conditions the tree is plain Boolean logic |
| BoolExpr.FirstOperandDecides | src/policies/policy_matching.c:1277-1338 | the first operand decides or when it matches and and when it does not, an undecided one leaves the whole undecided, otherwise the second decides |
| BoolExpr.UndecidedConditions | src/policies/policy_matching.c:1277-1338 | a condition is undecided for want of an attribute exactly when the entry does not have it |
| BoolExpr.NegationBetweenOperands | src/cfg_parsing/rbh_boolexpr.c:650-690 | a negation between two operands builds and matches as its second operand |
| BoolExpr.BuildsExactly | src/cfg_parsing/rbh_boolexpr.c:257-700 | building succeeds exactly when no operator stands for nothing and every condition is on a criterion that is known and available, with a value it takes and a comparator it has |
| BoolExpr.MaskExactly | src/cfg_parsing/rbh_boolexpr.c:257-300 | the mask holds exactly the attributes that some condition needs, the status itself for a status criterion |
| BoolExpr.BuildSetExpr | src/cfg_parsing/rbh_boolexpr.c:882-977 | the tree is the lowering of the set and the mask grows by exactly the masks of its classes |
| BoolExpr.SetLoweringPreservesMeaning | src/cfg_parsing/rbh_boolexpr.c:905-945 | an entry matches exactly when it is a member of the union, intersection or complement |
| BoolExpr.SetBuilds | src/cfg_parsing/rbh_boolexpr.c:882-977 | building succeeds exactly when every class is defined and every operator has its operands |
| BoolExpr.FindsFirst | src/cfg_parsing/rbh_boolexpr.c:882-945 | a name refers to the first class of that name, whatever the case of its letters |
| BoolExpr.SetOperatorsMean | src/cfg_parsing/rbh_boolexpr.c:905-977 | union, intersection and complement are or, and, and not of what is said of the parts |
| ConfTables.ConfDrives | src/cfg_parsing/conf_yacc.c:577-691 | the rows of the parser's tables that expressions use |
| ConfParser.Parse | src/cfg_parsing/conf_yacc.c:1193-1400 | the loop over the two stacks performs the steps of the automaton |
| ConfParser.ParseText | src/cfg_parsing/conf_yacc.c:1444-1544 | any written expression is read, up to what closes it, as its tree |
| ConfParser.BindsToTheRight | src/cfg_parsing/conf_yacc.y:158-165 | without parentheses and and or bind alike and to the right, and a negation takes one condition or one parenthesis |
| ConfParser.PrintThenParse | src/cfg_parsing/analyze.c:394-467 | parsing the printed tokens of any tree without commands gives the tree back |
| ConfMeaning.ParsedIsProper | src/cfg_parsing/conf_yacc.y:158-165 | the grammar puts no negation between two operands |
| ConfMeaning.TextMatchesAsItMeans | src/cfg_parsing/rbh_boolexpr.c:595-700 | a written expression is read as its tree, and what is built from it matches every entry as the tree means |
| ConfMeaning.ComparatorsOnNumbers | src/cfg_parsing/conf_yacc.c:1446-1478 | each of the six comparator tokens, from the token to the match: what is built matches exactly when the numbers compare so |
| ConfMeaning.ComparatorsOnTexts | src/cfg_parsing/rbh_boolexpr.c:332-342 | equal and different on texts, and matching and not matching a value with wildcards |
| ConfMeaning.ConnectivesMean | src/cfg_parsing/conf_yacc.y:158-165 | the tokens for and and or, from the tokens to the match |
| ConfMeaning.NegationMeans | src/cfg_parsing/conf_yacc.y:158-165 | the token for not before a condition or a parenthesis, from the tokens to the match |
| ConfMeaning.ParenthesesMean | src/cfg_parsing/conf_yacc.y:158-165 | parentheses mean what is between them |
| ConfCommands.VariableIsResolved | src/cfg_parsing/conf_yacc.y:127-127 | after a comparator an environment variable is read as its value |
| ConfCommands.CommandIsRead | src/cfg_parsing/conf_yacc.y:152-156 | a name with a value in parentheses is read as a command |
| RingQueue.Insert | src/common/queue.c:137-172 | inserting appends one item, and fails exactly on a full ring |
| RingQueue.Remove | src/common/queue.c:179-210 | taking removes the oldest item, and fails exactly on an empty ring |
| RingQueue.CyclicArray.Put | src/common/queue.c:147-165 | the critical section in the array |
| RingQueue.CyclicArray.Take | src/common/queue.c:187-203 | the critical section in the array |
| RingQueue.NeverFullNorEmpty | src/common/queue.c:149-156 | with any number of threads the queue is never found full or empty inside the critical section |
| RingQueue.FirstInFirstOut | src/common/queue.c:137-210 | items come out in the order in which they went in, none lost and none twice |
| Striping.DataOnOST | src/common/lustre_tools.c:381-419 | for a listed OST the answer is yes exactly when some byte of the file is there |
| Striping.BlocksOnOST | src/common/lustre_tools.c:424-470 | the blocks on the OST: none if it is not listed, exact as soon as the full stripes reach it, for sizes that fit a word |
| Striping.BlocksAddUp | src/common/lustre_tools.c:424-470 | on distinct OSTs that are all reached, the answers for all of them add up to the blocks of the file |
| Striping.ShareIsCounted | src/common/lustre_tools.c:424-470 | the share of a stripe is the number of blocks on it, counted one by one, each on the OST of its first byte |
| Striping.WrappedCode | src/common/lustre_tools.c:454-463 | before the full stripes reach an OST, for every stripe count, the answer is right exactly when the count divides the stripe size in blocks and either divides the word or the wrapped difference with the matching rest |
| Striping.WrappedExample | src/common/lustre_tools.c:455-463 | one block on three OSTs |
| ShellQuote.QuoteShellArg | src/common/param_utils.c:368-412 | the buffer holds the quoted argument, with every write inside the computed size |
| ShellQuote.QuotedIsOneWord | src/common/param_utils.c:368-412 | read by sections 2.2.1 and 2.2.2 of the POSIX Shell Command Language, the quoted argument is one word, the argument |

## Left out

- Compaction.CompactionPreservesMeaning: periodic update policies, path refreshing of known entries, soft removal and status attributes; the file system is taken as constant during the replay.
- Session.ParallelIsSerial: scans, which write to the database through the same pipeline, and failed writes.
- CompactionTraces.PlainIsHarmless: the class is sufficient; the condition that is exact is the one of CompactionTraces.HarmlessByRows.
- PipelineTheorems.OneActivePerId: names that GET_INFO_FS fills in after registration.
- ChangelogReader.Reader.ProcessLogRec: two-record renames, which the source itself calls racy, with the fid looked up for servers that do not give it.
- ConfParser.Parse: runs for a given number of turns, and the rules of blocks and sets have no semantic value; error recovery and stack growth are not modelled.
- Striping.WrappedCode: stripe sizes that, times the stripe count, exceed 2^64 blocks.
- BoolExpr.InterpretCondition: double-star patterns, removal of a final slash and numeric users and groups.
- PipelineEngine.Engine.NextWorkAvail: waiting for work and signalling of threads.
- The rest of the stage functions of the standard pipeline: which attributes are fetched, policy scopes, status managers and the batch test of DB_APPLY, which is a parameter here.
- Mass removal at the end of a scan, and scans of file systems without ids that push past the constraint stage.
- Liveness of the pipeline, and statistics.
- The special-directory path that removes an operation without an id without unblocking its stage.
- Memory ownership, allocation failures, logging, the scanner, and the list manager's SQL.
- Reader/writer locks, the item counter of the ring queue, and the diff pipeline.
