# A verified model of the agent runtime's durable core

This project models, in Dafny, the parts of the agent runtime that have to survive crashes,
concurrency and tampering, and proves what they are for:

- the LLM tool loop with its checkpoints and its resume plan (`ToolLoop`, `ToolLoopCheckpoint`,
  `ToolLoopRecords`, `ToolLoopResume`, `ToolLoopDiscipline`, `ToolLoopExits`);
- the run store, action store and approval queue that change memory first and append to a log
  afterwards (`WriteBehind`, `RunStore`, `ActionStore`, `ApprovalQueue`), and what happens when
  several calls do so at once (`ConcurrentAppends`);
- the lease queue over the run store, one call at a time (`RunQueue`) and in every interleaving of
  any number of workers (`RunQueueProtocol`);
- the run journal and the kernel event store (`EventLog`, `EventReports`);
- the audit log: hash chain, one record at a time and in every interleaving, paged queries and
  enterprise mirror (`AuditChain`, `AuditInterleaving`, `AuditQuery`, `AuditMirror`);
- storage backup and restore over file system trees, and the storage lock file (`StorageTree`,
  `BackupListing`, `Backup`, `StorageLock`);
- profile inheritance and layered configuration (`Profiles`, `ConfigLayers`);
- retry backoff (`RetryPolicy`).

`Ordering` holds the two orders the code sorts by, `Wrappers` the `Option` and `Result` types.
`dafny verify dfyconfig.toml` checks everything.

## How the code is represented

Objects that the code updates in place are classes with the same fields; their methods are proved
equal to specification functions on the old state, and the lemmas are about those functions.
What an operation promises is besides stated outright, over the state before and after and without
those functions. Protocols in which several processes interleave (lease queue, log appends, audit
records, audit mirror, lock file) are state machines over single steps, where a step that is not
enabled changes nothing; the theorems hold for every sequence of steps. Clocks, models, tools, hash
functions and failures are parameters, so every theorem holds for all of them. Files are sequences of
records or lines, or trees of bytes. Serialisation is injective where that matters (`AuditChain.Hashing.Valid`).

Machine integers are written out where they matter: the turn counter and the token sums of the
tool loop and the powers of the retry policy are 32-bit, page offsets saturate at 64 bits,
durations saturate at the largest representable duration.

## What is true only under a condition

Several things one would like to say of the code hold only conditionally. Each has its exact
condition:

- Resuming the tool loop reproduces the uninterrupted transcript, whatever crashes, if and only if
  every call whose id has a read-only recorded result answers with the first recorded result of
  that id (`ToolLoopResume.ResumingIsSoundExactlyWhen`). It is enough that no id of a read-only call
  is used again (`UnreusedIdsAnswerAlike`); ids of other calls may repeat. Even then,
  `tool_calls_made` is smaller by the calls taken from the plan. All attempts share one world:
  the model answers a transcript, and a tool a call at its place, as it did before. A model or a
  tool that answers differently the second time is outside every resume theorem but
  `ReadOnlyResultsAreNotRecomputed`.
- A run is leased again only after it returned to the queue if and only if all workers share one
  lock; any two locks admit a second lease, because the store accepts a move from Running to Running
  (`RunQueueProtocol.LeasesAreExclusiveExactlyUnderOneLock`). A recovery that listed an expired
  lease can requeue a fresh lease of the same run if and only if the lease timeout is positive,
  whatever the locks (`RunQueueProtocol.RecoveryIsSafeExactlyWithoutTimeout`).
- No lock spans a store's change of memory and its append. Reopening gives memory, at every moment
  and in whatever order the calls then in progress append, if and only if no call changes a record
  while another call with a different version of it has yet to append
  (`ConcurrentAppends.ReplaysExactlyWhenNothingConflicts`). Otherwise the older version can win: a run
  Completed in memory reopens Running (`RunStore.TransitionsLoggedInTheOtherOrder`).
- Journals are stricter: a log with the lines of a journal reopens if and only if they
  are in the journal's order, so two events appended in the other order make the file unreadable
  (`EventLog.RearrangedLogReopensExactlyWhen`).
- A live approval queue and the one reopened from its log differ in expired records only. They
  answer differently exactly to a decision on a record that is Expired live and Pending in the
  log; both refuse it, for different reasons (`ApprovalQueue.RunsDifferExactlyWhen`).
- A journal consumer that polled an event which a crash then lost receives everything appended
  after the reopening if and only if the first of it has an id above the lost one
  (`EventLog.CursorAheadSurvivesExactlyWhen`).
- Recording audit events adds no issue to the verifier's list exactly when the writer's backward
  scan and the verifier's forward scan start in agreement. They do not when the last non-blank
  line does not parse and a chain was running before it
  (`AuditChain.NoIssueIsAddedExactlyWhenScansAgree`).
- Concurrent records keep a clean audit file clean if and only if no envelope is appended between a
  record's read of the last hash and its own append, up to collisions of the hash
  (`AuditInterleaving.CleanExactlyWhenNobodyIsOvertaken`). No event is lost either way
  (`AuditInterleaving.EveryEventIsListed`).
- A changed or removed audit envelope is reported, one that is cut off at the end is not: every
  beginning of a clean file is clean (`AuditChain.CleanPrefix`). Only a known chain head fixes the end.
- A fresh backup verifies exactly when no exported file path starts with a backslash, so one file
  of such a name makes every backup unverifiable (`Backup.BackslashNameFailsVerification`). Entries
  named like the lock file are left out wherever they occur, files and directories alike.
  Verification covers files, so an empty directory can be added unnoticed.
- The lock file keeps other processes out, along a run and after any remove and create that may
  follow, if and only if no process finds the lock expired while another is inside, and none
  creates its lock while another, having found the previous file expired, has yet to remove it
  (`StorageLock.MutualExclusionExactlyWhen`). From any state with an expired readable file it can
  fail: a holder that is still inside is overtaken (`ExpiredHolderCanBeOvertaken`), and two
  takeovers of a dead owner's file race, the second removing the first one's fresh lock
  (`StaleTakeoverRace`). Holders that release before their ttl, and processes that enter one at a
  time, avoid both (`CarefulEntryExposesNobody`).
- Retry delays follow the integer formula exactly when the 32-bit power does not saturate, or the
  cap is reached anyway, or the initial delay is 0; they never decrease except with multiplier 0.

## Model

| member | source | states |
|---|---|---|
| ToolLoopCheckpoint.MemoryToolLoopCheckpointStore.Append | crates/agent-runtime/src/tool_loop_checkpoint.rs:97-107 | one checkpoint goes to the end of its run's list, every other list is untouched |
| ToolLoopCheckpoint.FromCheckpoints | crates/agent-runtime/src/tool_loop_checkpoint.rs:127-157 | the loop over the log computes the plan that the next three rows characterise |
| ToolLoopCheckpoint.PlanSkipsReadOnly | crates/agent-runtime/src/tool_loop_checkpoint.rs:127-161 | a call is skippable iff some recorded result of it is marked read-only |
| ToolLoopCheckpoint.PlanKeepsFirstResult | crates/agent-runtime/src/tool_loop_checkpoint.rs:127-167 | the plan holds a result for a call iff one is recorded, and it is the first one recorded |
| ToolLoopCheckpoint.PlanKeepsMaxTurns | crates/agent-runtime/src/tool_loop_checkpoint.rs:127-157 | the started and completed turn marks are the maxima over the checkpoints of their kind |
| ToolLoop.RunInner | crates/agent-runtime/src/lib.rs:990-1485 | the whole attempt over its mutable counters and messages, with all its exits, and the checkpoints it appends to its own run's list only; the 32-bit turn counter cannot overflow |
| ToolLoop.RunTurn | crates/agent-runtime/src/lib.rs:1070-1481 | one turn: checkpoints around the model call, timeout and failure exits, usage, answer or tool calls, new transcript |
| ToolLoop.RunCallsOfTurn | crates/agent-runtime/src/lib.rs:1220-1481 | the rest of a turn whose reply has calls: their outcome, the messages that answer them, and the last turn of the budget |
| ToolLoop.RunCalls | crates/agent-runtime/src/lib.rs:1220-1449 | the inner loop: results in call order until the first exit |
| ToolLoop.RunCall | crates/agent-runtime/src/lib.rs:1224-1448 | one call: cancellation, resume skip, mapping error, timeout, execution error, recorded result; `ToolLoopExits` says what that means for a run |
| ToolLoopResume.CallAgrees | crates/agent-runtime/src/lib.rs:1230-1448 | a skipped call answers with the text its execution would have given |
| ToolLoopResume.TurnsAgree | crates/agent-runtime/src/lib.rs:990-1485 | under a plan that tells the truth, an attempt follows the uninterrupted run for as long as it lasts, and to its end if nothing interrupts it |
| ToolLoopResume.TurnsRecord | crates/agent-runtime/src/lib.rs:1427-1447 | such an attempt records, in order, a prefix of the results of the calls its plan does not skip, and all of them if nothing interrupts it |
| ToolLoopRecords.PlanOfResults | crates/agent-runtime/src/tool_loop_checkpoint.rs:127-167 | the plan in terms of the results recorded in a log: the first of an id is kept, the id is skippable iff any of them is read-only |
| ToolLoopResume.TruthfulLogGivesFaithfulPlan | crates/agent-runtime/src/tool_loop_checkpoint.rs:127-167 | a plan rebuilt from a log whose first results are those of the uninterrupted run answers every skipped call correctly, if read-only calls with one id answer alike |
| ToolLoopResume.LogStaysTruthful | crates/agent-runtime/src/lib.rs:1427-1447 | whatever crashes attempts, and whatever prefix of their checkpoints survives, the first result of every id in the log is the one of the uninterrupted run |
| ToolLoopResume.ResumingIsSoundExactlyWhen | crates/agent-runtime/src/lib.rs:990-1485 | resuming gives the uninterrupted transcript after all crashes, and no attempt ever leaves it, iff every call whose id has a read-only result answers with the first recorded result of that id |
| ToolLoopResume.CrashAndResumePreserveMeaning | crates/agent-runtime/src/lib.rs:990-1485 | under that condition and after any number of crashed attempts, the resumed attempt ends with the transcript, response text, turn count and usage of the uninterrupted run |
| ToolLoopResume.CrashedAttemptsNeverDiverge | crates/agent-runtime/src/lib.rs:990-1485 | under that condition every attempt, crashed or not, shows the model a prefix of the transcripts of the uninterrupted run |
| ToolLoopResume.UnreusedIdsAnswerAlike | crates/agent-runtime/src/lib.rs:1230-1235 | the condition holds whenever no id of a read-only call is used again; other ids may repeat |
| ToolLoopResume.ReadOnlyResultsAreNotRecomputed | crates/agent-runtime/src/lib.rs:1230-1235 | for every log, world and interruption: no attempt executes a call whose read-only result was recorded when it started |
| ToolLoopResume.RepeatedIdsChangeTheTranscript | crates/agent-runtime/src/lib.rs:1230-1235 | a concrete run that uses the id of a read-only call twice and resumes to another transcript |
| ToolLoopDiscipline.TurnBudget | crates/agent-runtime/src/lib.rs:995-1485 | at most max_turns model calls; each outcome's turns_used and tool_calls_made report the calls actually made |
| ToolLoopDiscipline.TranscriptDiscipline | crates/agent-runtime/src/lib.rs:1223-1481 | consecutive transcripts differ by one assistant message and one result per call in call order, with the literal text of each: the recorded text of a skipped call, the result, or the error; the final one belongs to the answer given |
| ToolLoopDiscipline.UsageIsTheCappedSum | crates/agent-runtime/src/lib.rs:1168-1175 | the reported usage is the true token sum, capped once at the 32-bit maximum |
| ToolLoopExits.EveryAttemptIsLawful | crates/agent-runtime/src/lib.rs:990-1485 | in every attempt: of the calls reached exactly those due are executed, exactly those the plan answers are skipped; a cancelled call or a late action is the last one reached and the outcome, with its operation and capped duration; late, failing and answering model calls end or continue the attempt as they must; exactly the checkpoints due are written, none after a failed append; and the outcome names what happened where it says |
| ToolLoopExits.CancellationIsHeeded | crates/agent-runtime/src/lib.rs:1015-1229 | no cancelled call is executed or skipped, it is the last one reached and ends the attempt in its turn; no model is called in a cancelled turn |
| ToolLoopExits.ReadOnlyKinds | crates/agent-runtime/src/lib.rs:1528-1534 | an action is read-only iff its kind contains one of five parts |
| WriteBehind.ReplayRefinesMemory | crates/agent-runtime/src/run_store.rs:175-243 | reopening after any serialised operations gives the memory map, and a legal log stays legal |
| WriteBehind.CrashLosesOnlyTheLastOperation | crates/agent-runtime/src/run_store.rs:220-243 | a crash between the two writes loses the operation in progress and nothing else |
| WriteBehind.RearrangedAppendsAgreeExactlyWhen | crates/agent-runtime/src/run_store.rs:220-243 | a log with its appends rearranged in any way reopens to memory iff the last record of every id is the same in both orders |
| WriteBehind.SwappedAppendsAgreeExactlyWhen | crates/agent-runtime/src/run_store.rs:220-243 | two last appends swapped are harmless iff the ids differ or the records are equal |
| ConcurrentAppends.LogIsARearrangement | crates/agent-runtime/src/run_store.rs:205-243 | in every interleaving memory is the replay of the changes in order, and the log is a rearrangement of them up to the calls in progress |
| ConcurrentAppends.RestAgreesExactlyWhen | crates/agent-runtime/src/run_store.rs:205-243 | with no call in progress, the log replays to memory iff the record of every id changed last was also appended last |
| ConcurrentAppends.ReplaysExactlyWhenNothingConflicts | crates/agent-runtime/src/run_store.rs:205-243 | the log replays to memory after every step and every order of finishing iff no call changes a record while another call with a different version of it has yet to append |
| ConcurrentAppends.WithoutOverlapNothingConflicts | crates/agent-runtime/src/run_store.rs:205-243 | that is so if calls in progress together never write one id |
| RunStore.MemoryAgentRunStore.Insert | crates/agent-runtime/src/run_store.rs:122-131 | refuses a known id, else stores the record; the rest of the map is unchanged |
| RunStore.MemoryAgentRunStore.List | crates/agent-runtime/src/run_store.rs:142-150 | all records, in id order |
| RunStore.MemoryAgentRunStore.Transition | crates/agent-runtime/src/run_store.rs:152-165 | the record keeps everything but status and time, which become the requested status and the present, if the move is one of the twelve allowed or none; else the map is unchanged and the error says why |
| RunStore.TransitionsExactly | crates/agent-runtime/src/run_store.rs:262-309 | the twelve moves between statuses; completion, failure, waiting and requeueing come from Running only |
| RunStore.JsonlAgentRunStore.constructor | crates/agent-runtime/src/run_store.rs:175-203 | opening replays the log, last record wins |
| RunStore.JsonlAgentRunStore.Insert | crates/agent-runtime/src/run_store.rs:221-224 | memory first, then one log record; the log still replays to memory and stays legal |
| RunStore.JsonlAgentRunStore.Transition | crates/agent-runtime/src/run_store.rs:234-243 | the same for a transition |
| RunStore.RunLogRefinesMemory | crates/agent-runtime/src/run_store.rs:121-309 | the replay law for runs: memory regained, one operation lost by a crash, consecutive records of a run are valid transitions |
| RunStore.TerminalIsFinal | crates/agent-runtime/src/run_store.rs:262-309 | in a legal log a terminal status is never left |
| RunStore.TransitionsLoggedInTheOtherOrder | crates/agent-runtime/src/run_store.rs:205-243 | for any queued run: two transitions appended in the other order leave it Completed in memory and Running in the reopened log, which is not legal any more |
| ActionStore.MemoryActionStore.RecordOutcome | crates/agent-runtime/src/action_store.rs:136-150 | first outcome stored with the status of its kind and the time; an equal outcome accepted, a different one refused, both without a change; unknown ids refused |
| ActionStore.JsonlActionStore.RecordOutcome | crates/agent-runtime/src/action_store.rs:218-230 | a record is appended iff the action had no outcome before |
| ActionStore.ActionLogRefinesMemory | crates/agent-runtime/src/action_store.rs:106-257 | the replay law for actions; a later record of an action is that action getting its first outcome |
| ActionStore.OutcomeIsLoggedOnce | crates/agent-runtime/src/action_store.rs:218-257 | after a record with an outcome the log holds no further record of that action |
| ActionStore.FirstOutcomeIsFinal | crates/agent-runtime/src/action_store.rs:232-248 | no operations ever change an action that has an outcome |
| RunQueue.AgentRunQueue.Lease | crates/agent-runtime/src/run_queue.rs:60-82 | takes the head of the queue order, marks exactly that run Running, and answers with its lease; nothing iff the queue is empty |
| RunQueue.AgentRunQueue.Ack | crates/agent-runtime/src/run_queue.rs:84-89 | the run moves to Completed if the store accepts it, whoever asks |
| RunQueue.AgentRunQueue.Nack | crates/agent-runtime/src/run_queue.rs:91-96 | the run moves back to Queued if the store accepts it |
| RunQueue.AgentRunQueue.RecoverExpiredLeases | crates/agent-runtime/src/run_queue.rs:98-117 | queues again exactly the Running runs last updated a timeout ago or longer, changing only status and time, and returns their ids sorted |
| RunQueue.AgentRunQueue.ActiveLeases | crates/agent-runtime/src/run_queue.rs:119-131 | exactly one lease per Running run, from its last update to a timeout later, by increasing id |
| RunQueue.AgentRunQueue.QueuedRunIds | crates/agent-runtime/src/run_queue.rs:133-144 | the queued runs by (created_at, run_id) |
| RunQueue.QueueIsByTimeThenId | crates/agent-runtime/src/run_queue.rs:60-76 | the queue holds each queued run once, earlier creation first, equal times by id |
| Ordering.StringLeByFirstDifference | crates/agent-runtime/src/run_queue.rs:133-144 | ids are compared at the first place where they differ, a prefix coming first |
| RunQueue.LeaseTakesTheHead | crates/agent-runtime/src/run_queue.rs:60-82 | leasing removes the head and keeps the rest of the queue in order |
| RunQueue.RequeueReturnsToItsPlace | crates/agent-runtime/src/run_queue.rs:91-144 | a nacked or recovered run returns to the place its creation time gives it |
| RunQueue.NackUndoesLease | crates/agent-runtime/src/run_queue.rs:60-96 | a lease followed by a nack leaves the queue order as it was |
| RunQueue.LeasesServeTheQueueInOrder | crates/agent-runtime/src/run_queue.rs:60-144 | repeated leases return the queue order without gap or repetition |
| RunQueueProtocol.LeaseFindsItsRunQueued | crates/agent-runtime/src/run_queue.rs:60-82 | in every interleaving on one shared lock, a lease's transition finds its run Queued and succeeds |
| RunQueueProtocol.SuccessiveLeasesAreSeparated | crates/agent-runtime/src/run_queue.rs:60-117 | on one shared lock, two leases of a run have a move of it from Running to Queued between them |
| RunQueueProtocol.LeasesAreExclusiveExactlyUnderOneLock | crates/agent-runtime/src/run_queue.rs:30-117 | in every run leases find their run Queued, and no run is leased again before it returned, iff all workers share one lock |
| RunQueueProtocol.CompletedIsNeverLeased | crates/agent-runtime/src/run_store.rs:262-309 | a run in a terminal status is never leased again, whatever locks are used |
| RunQueueProtocol.RecoveryRequeues | crates/agent-runtime/src/run_queue.rs:98-117 | which step of a recovery requeues a run, and that its lease had expired if the record is still the listed one |
| RunQueueProtocol.FreshLeaseIsTaken | crates/agent-runtime/src/run_queue.rs:98-117 | when the next listed record has expired and the stored run is Running under an unexpired lease, the step requeues it all the same |
| RunQueueProtocol.LeaseAlone | crates/agent-runtime/src/run_queue.rs:60-82 | undisturbed, the four steps of a lease do what the single call does |
| RunQueueProtocol.RecoverAlone | crates/agent-runtime/src/run_queue.rs:98-117 | undisturbed, the steps of a recovery requeue exactly the expired runs |
| RunQueueProtocol.StepsAreTheCalls | crates/agent-runtime/src/run_queue.rs:55-96 | enqueue, ack, nack and reports are the store's insert and transition at one moment |
| RunQueueProtocol.TwoLocksLeaseTwice | crates/agent-runtime/src/run_queue.rs:30-82 | any two workers with different locks can lease one run twice in a row |
| RunQueueProtocol.RecoveryCanTakeAFreshLease | crates/agent-runtime/src/run_queue.rs:98-117 | for any locks and any positive timeout, a recovery can requeue a lease that has not expired |
| RunQueueProtocol.RecoveryIsSafeExactlyWithoutTimeout | crates/agent-runtime/src/run_queue.rs:98-117 | no run of the protocol requeues an unexpired lease iff the timeout is 0, when every lease expires at once |
| ApprovalQueue.MemoryApprovalQueue.ExpirePendingRecords | crates/agent-runtime/src/approval_queue.rs:369-376 | exactly the pending records past their expiry become Expired, checked and stamped by readings of their own |
| ApprovalQueue.MemoryApprovalQueue.ListPending | crates/agent-runtime/src/approval_queue.rs:202-210 | expires first, then answers what is still pending, in id order |
| ApprovalQueue.MemoryApprovalQueue.Decide | crates/agent-runtime/src/approval_queue.rs:340-367 | unknown id and decided record are refused without a change; a pending record past its expiry becomes Expired; else it gets the requested status, the decision given and the time, and nothing else changes |
| ApprovalQueue.MemoryApprovalQueue.Approve | crates/agent-runtime/src/approval_queue.rs:212-224 | decides with status Approved |
| ApprovalQueue.MemoryApprovalQueue.Deny | crates/agent-runtime/src/approval_queue.rs:226-233 | decides with status Denied |
| ApprovalQueue.MemoryApprovalQueue.Revoke | crates/agent-runtime/src/approval_queue.rs:235-243 | decides with status Revoked and a decision of the system |
| ApprovalQueue.MemoryApprovalQueue.Enqueue | crates/agent-runtime/src/approval_queue.rs:180-191 | a new id becomes a pending record without a decision, a known one is refused |
| ApprovalQueue.DecidedExactlyBy | crates/agent-runtime/src/approval_queue.rs:340-383 | after any operations a record is Denied iff it was before or an accepted operation denied it; likewise Approved and Revoked |
| ApprovalQueue.JsonlApprovalQueue.Decide | crates/agent-runtime/src/approval_queue.rs:313-338 | a decision is appended iff it was accepted; log and memory agree up to expiry |
| ApprovalQueue.JsonlApprovalQueue.ListPending | crates/agent-runtime/src/approval_queue.rs:309-311 | expiry changes memory and not the log |
| ApprovalQueue.ReopenedUpToExpiry | crates/agent-runtime/src/approval_queue.rs:253-383 | after any serialised operations under a monotone clock, the reopened queue is the live one up to expiry |
| ApprovalQueue.CrashLosesOnlyTheLastAppend | crates/agent-runtime/src/approval_queue.rs:299-338 | a crash between the two writes makes the last request unknown, or leaves the last decision undecided and open to either decision until expiry; every other record agrees up to expiry |
| ApprovalQueue.WhatReopeningGives | crates/agent-runtime/src/approval_queue.rs:253-281 | same ids, same Approved, Denied and Revoked records; a record pending in the log is pending or expired in memory |
| ApprovalQueue.LogSaysPendingForExpired | crates/agent-runtime/src/approval_queue.rs:202-210 | from an empty file, the log says Pending iff the live record is Pending or Expired |
| ApprovalQueue.PendingAgrees | crates/agent-runtime/src/approval_queue.rs:202-210 | pending() answers the same from the live and the reopened queue |
| ApprovalQueue.ReopenedBehavesLikeLive | crates/agent-runtime/src/approval_queue.rs:298-383 | for any further operations the two queues answer alike, except for the reason of a refusal |
| ApprovalQueue.AnswersDifferExactlyWhen | crates/agent-runtime/src/approval_queue.rs:340-367 | one operation is answered differently iff it decides a record that is Expired live and Pending in the log; the live queue then says already decided, the reopened one expired |
| ApprovalQueue.RunsDifferExactlyWhen | crates/agent-runtime/src/approval_queue.rs:298-383 | along any run of further operations the answers differ at exactly those operations |
| ApprovalQueue.ExpiryIsNotLogged | crates/agent-runtime/src/approval_queue.rs:202-210 | from an empty file, listing a request past its expiry leaves it Expired in memory and Pending in the log |
| ApprovalQueue.NothingIsDecidedAfterExpiry | crates/agent-runtime/src/approval_queue.rs:340-383 | a record past its expiry never becomes Approved, Denied or Revoked |
| EventLog.MemoryJournal.Append | crates/agent-runtime/src/run_journal.rs:271-293 | accepts exactly a new id above the last; a known id is refused as known, a lower new one as not monotonic |
| EventLog.MemoryJournal.AppendIdempotent | crates/agentos-kernel/src/event_store.rs:220-230 | answers a known id without storing it again |
| EventLog.CursorIsASuffix | crates/agent-runtime/src/run_journal.rs:216-229 | the events after a cursor are exactly a suffix of the journal |
| EventLog.EveryEventOnceInOrder | crates/agent-runtime/src/run_journal.rs:199-238 | a consumer polling from its last seen id, in any interleaving with appends, has received a prefix of the journal, and all of it after a poll |
| EventLog.CursorSurvivesWhenNothingIsLost | crates/agent-runtime/src/run_journal.rs:216-376 | a consumer keeps its place across a reopening that kept what it received |
| EventLog.CursorAheadSurvivesExactlyWhen | crates/agent-runtime/src/run_journal.rs:216-376 | a consumer that had polled an event lost in a crash receives all later events iff the first of them has an id above the lost one |
| EventLog.ReopenSucceedsExactlyOnIncreasingLogs | crates/agent-runtime/src/run_journal.rs:303-354 | a run journal reopens iff its lines have increasing ids, and then with the same events |
| EventLog.IdempotentReopenKeepsFirstOccurrences | crates/agentos-kernel/src/event_store.rs:302-326 | a kernel event store reopens iff the first occurrences of its ids increase, and then holds exactly those |
| EventLog.RearrangedLogReopensExactlyWhen | crates/agent-runtime/src/run_journal.rs:303-376 | a rearrangement of the lines of a journal reopens, as run journal or as kernel store, iff it is the journal itself |
| EventLog.JsonlJournal.Append | crates/agent-runtime/src/run_journal.rs:372-376 | after serialised appends the log reopens to the events in memory |
| EventLog.JsonlJournal.AppendIdempotent | crates/agentos-kernel/src/event_store.rs:353-367 | a stored id is answered without touching memory or log |
| EventReports.BuildRecoveryReport | crates/agent-runtime/src/run_journal.rs:407-451 | the report names, once and in order, exactly the runs whose last event does not end them, with that event's kind and action |
| EventReports.ActionByKind | crates/agent-runtime/src/run_journal.rs:416-441 | which of the four actions, or none, each event kind calls for |
| EventReports.GroupByAggregate | crates/agentos-kernel/src/event_store.rs:398-409 | one group per aggregate that occurs, equal to what events_for_aggregate selects |
| EventReports.EventsForSelects | crates/agentos-kernel/src/event_store.rs:256-268 | selection by aggregate takes every event of it, in order, and no other |
| AuditChain.JsonlAuditSink.Verify | crates/audit-log/src/lib.rs:838-887 | the report of the forward scan: issues in order, count, verified iff there is no issue; an issue is in it iff some line has it |
| AuditChain.ReportsExactly | crates/audit-log/src/lib.rs:91-125 | the issues of each line by its number and bytes: parse error, legacy event, the three hash mismatches with expected and actual value, the expected previous hash being that of the last line that parses |
| AuditChain.JsonlAuditSink.PreviousChainHash | crates/audit-log/src/lib.rs:909-926 | the chain hash of the last line that is not blank, if that is an envelope |
| AuditChain.JsonlAuditSink.Record | crates/audit-log/src/lib.rs:962-977 | one envelope of schema 1 is appended, with the hash of the event, the backward scan's hash, and the hash of the two joined by a newline |
| AuditChain.JsonlAuditSink.List | crates/audit-log/src/lib.rs:979-998 | the k-th event is that of the k-th line that is not blank, sealed or legacy; or the error is that of the first line that does not parse |
| AuditChain.ListCountsAsVerified | crates/audit-log/src/lib.rs:838-998 | when list succeeds it returns as many events as the verifier counts |
| AuditChain.CleanExactlyWhenChained | crates/audit-log/src/lib.rs:91-125 | no issue is reported iff the file holds only envelopes and blank lines and the envelopes form one chain |
| AuditChain.ChainHeadBindsTheHistory | crates/audit-log/src/lib.rs:56-125 | two clean files ending in one hash hold the same events in the same order and number, or the files exhibit a collision |
| AuditChain.SameHistorySameHead | crates/audit-log/src/lib.rs:947-958 | two clean files with the same events end in the same hash |
| AuditChain.WriterAndVerifierAgree | crates/audit-log/src/lib.rs:838-998 | recording events raises the count by their number, extends list by them, and leaves the issues alone, but for one mismatch when the scans disagree |
| AuditChain.NoIssueIsAddedExactlyWhenScansAgree | crates/audit-log/src/lib.rs:838-926 | no issue is added iff not (last non-blank line unparseable and a chain running before it) |
| AuditChain.UnparseableLineBreaksTheChain | crates/audit-log/src/lib.rs:838-926 | the issues reported after good line, bad line, good line |
| AuditInterleaving.EveryEventIsListed | crates/audit-log/src/lib.rs:962-998 | in every interleaving of the two steps of records, list and count hold the old events and those appended, and every record begun is appended once or in progress |
| AuditInterleaving.RecordAlone | crates/audit-log/src/lib.rs:962-977 | undisturbed, the two steps of a record are the sink's record |
| AuditInterleaving.IssuesCountForks | crates/audit-log/src/lib.rs:838-977 | no issue is added iff every record appends under the hash the verifier expects there |
| AuditInterleaving.UnlessOvertakenNothingForks | crates/audit-log/src/lib.rs:909-977 | so none is added if nothing is appended between a record's read and its append, on any file on which the two scans agree |
| AuditInterleaving.CleanExactlyWhenNobodyIsOvertaken | crates/audit-log/src/lib.rs:909-977 | a clean file stays clean iff nothing is appended between a record's read and its append, or two texts of the run collide |
| AuditInterleaving.ReturningHeadCollides | crates/audit-log/src/lib.rs:56-125 | a clean file that returns to an earlier chain hash of its own exhibits a collision |
| AuditInterleaving.ConcurrentRecordsFork | crates/audit-log/src/lib.rs:962-977 | two records that both read before either appends: exactly one mismatch, at the second |
| AuditChain.TamperedEventIsReported | crates/audit-log/src/lib.rs:91-125 | replacing one event of a clean file gives exactly one issue, at that envelope, or none if the hashes agree |
| AuditChain.RemovedEnvelopeIsReported | crates/audit-log/src/lib.rs:105-111 | removing one envelope of a clean file gives exactly one issue, at the next envelope |
| AuditChain.CleanPrefix | crates/audit-log/src/lib.rs:838-887 | cutting off the end of a clean file is not reported |
| AuditQuery.SortIsSortedAndStable | crates/audit-log/src/lib.rs:264-274 | the query's order is by (timestamp, audit_id), a rearrangement of the matching events, stable |
| AuditQuery.StableSortIsUnique | crates/audit-log/src/lib.rs:264-274 | there is only one such order |
| AuditQuery.PagingPartitionsTheQuery | crates/audit-log/src/lib.rs:263-293 | pages at 0, limit, 2*limit and so on until has_more is false concatenate to the matching events, none repeated or dropped; all but the last are full |
| AuditQuery.PagesAreTheMatchingEvents | crates/audit-log/src/lib.rs:263-293 | the pages hold every matching event exactly as often as the log does and no other, by time, then id, and in log order where both are equal |
| AuditQuery.HasMoreIsExact | crates/audit-log/src/lib.rs:276-291 | the reported total is the number of matching places of the log, has_more holds iff offset + limit is below it, over the integers, and the page holds what is left of it, at most limit |
| AuditMirror.EnterpriseMirrorAuditLog.constructor | crates/audit-log/src/lib.rs:614-626 | the batch size is at least 1, buffer and failure list are empty |
| AuditMirror.EnterpriseMirrorAuditLog.Push | crates/audit-log/src/lib.rs:678-687 | the event joins the buffer; a full buffer is drained whole and becomes a batch |
| AuditMirror.EnterpriseMirrorAuditLog.FinishBatch | crates/audit-log/src/lib.rs:636-670 | a batch leaves a failure record iff the sink did not accept it |
| AuditMirror.MirrorConservesEvents | crates/audit-log/src/lib.rs:613-694 | in every interleaving: batches and buffer are the pushed events in order, every batch is full, the buffer is not, every batch is in flight, accepted or failed exactly once, and the failure list is the batches not accepted |
| AuditMirror.MirroredEventsAreAccountedFor | crates/audit-log/src/lib.rs:675-694 | mirrored events are accepted plus failed plus in flight plus pending, and all are in the local log |
| AuditMirror.RemainderAtRest | crates/audit-log/src/lib.rs:675-694 | with no call in progress, the local log is whole batches plus a buffer smaller than one |
| StorageTree.SplitSlash | crates/agentos-storage/src/backup.rs:356-361 | a slash path determines the names it was joined from |
| StorageTree.CopyDirContents | crates/agentos-storage/src/backup.rs:196-229 | the recursive copy, whatever order directories are read in |
| StorageTree.CopyKeepsContents | crates/agentos-storage/src/backup.rs:196-229 | at every path the copy holds what the source holds, unless a name on the way is refused or the entry is neither file nor directory |
| BackupListing.CollectInner | crates/agentos-storage/src/backup.rs:237-272 | the entries are exactly the files of the tree, each once, with length and hash |
| Backup.ValidateManifestFileEntries | crates/agentos-storage/src/backup.rs:274-311 | accepts iff all paths are valid and distinct; an error names an offending path |
| Backup.ValidPathsExactly | crates/agentos-storage/src/backup.rs:293-311 | a path is valid iff it is not empty, starts with neither slash, and has no component `..` |
| Backup.CompareEntries | crates/agentos-storage/src/backup.rs:108-132 | finds nothing iff the two maps are equal; an error names a path that is missing, different or unexpected |
| Backup.VerifyBackup | crates/agentos-storage/src/backup.rs:96-135 | accepts iff the manifest's paths are valid and distinct and its path-to-(length, hash) map is that of the data tree; an error is true of the path it names |
| Backup.Export | crates/agentos-storage/src/backup.rs:63-94 | succeeds iff the target is free and the storage manifest readable; leaves the filtered tree and a manifest listing exactly its files in path order |
| Backup.VerifyRestoredLayout | crates/agentos-storage/src/backup.rs:313-325 | accepts iff the storage manifest parses and all layout directories are there |
| Backup.Restore | crates/agentos-storage/src/backup.rs:137-169 | succeeds iff the backup verifies, the target is free, and layout and artifacts check out; the result is the data tree |
| Backup.ExportVerifies | crates/agentos-storage/src/backup.rs:62-135 | a fresh export verifies iff no exported file path starts with a backslash |
| Backup.BackslashNameFailsVerification | crates/agentos-storage/src/backup.rs:293-311 | a file whose name starts with a backslash makes every fresh export fail to verify |
| Backup.BackupRoundTrip | crates/agentos-storage/src/backup.rs:62-169 | when a restore of an export succeeds, and that it then rebuilds the source tree without lock files and links |
| Backup.ExportAndRestore | crates/agentos-storage/src/backup.rs:62-194 | export followed by restore: the exact success condition and the file at every path of the result |
| Backup.TamperedFilesAreDetected | crates/agentos-storage/src/backup.rs:96-135 | a backup whose data was replaced still verifies only if every file is unchanged or two contents of one length share a hash |
| Backup.EmptyDirectoriesAreNotCovered | crates/agentos-storage/src/backup.rs:96-135 | an added empty directory is not noticed |
| StorageLock.Acquire | crates/agentos-storage/src/lock.rs:55-121 | one undisturbed acquire: refused while a readable lock has not expired or the file cannot be read; otherwise the file holds the new owner |
| StorageLock.StorageLockGuard.ReleaseInner | crates/agentos-storage/src/lock.rs:138-157 | removes the file iff it can be read, its owner, process and time of acquisition are the guard's, and the guard has not released; leaves it alone otherwise |
| StorageLock.StorageLockGuard.Release | crates/agentos-storage/src/lock.rs:132-164 | the same, once; the drop after it leaves the file alone |
| StorageLock.MutualExclusionExactlyWhen | crates/agentos-storage/src/lock.rs:55-164 | in every interleaving, with takeovers: at most one process is between its create and its own remove, then and after any two further steps, iff no process finds the lock expired while another is inside or creates its lock between the reading and the remove of a takeover |
| StorageLock.AtMostOneHolder | crates/agentos-storage/src/lock.rs:55-164 | in such a run a process inside is alone, its file is the one in place, and nobody is about to take over |
| StorageLock.CarefulEntryExposesNobody | crates/agentos-storage/src/lock.rs:55-121 | a run is such a run if no lock expires while its holder is inside and one process enters at a time; expired files of dead owners may be taken over |
| StorageLock.FreshFilesExposeNobody | crates/agentos-storage/src/lock.rs:60-102 | so is one in which no lock file outlives its ttl |
| StorageLock.AloneExposesNobody | crates/agentos-storage/src/lock.rs:55-121 | and one extended by a process that acts while nobody else is inside or taking over |
| StorageLock.FilesAreRemovedByTheirOwners | crates/agentos-storage/src/lock.rs:60-164 | in such a run a lock file is changed or removed by its creator alone, or taken over while nobody is inside |
| StorageLock.RemovesOnlyWhatItReadAsItsOwn | crates/agentos-storage/src/lock.rs:138-157 | in every run, exposed holders included: a release is about to remove only after a read that saw its guard's owner, process and time of acquisition |
| StorageLock.ExpiredHolderCanBeOvertaken | crates/agentos-storage/src/lock.rs:60-102 | from any state in which a holder's file has expired, five steps put a second process inside |
| StorageLock.StaleTakeoverRace | crates/agentos-storage/src/lock.rs:60-102 | from any state with an expired readable file, two idle processes can both end up inside, the second having removed the fresh lock of the first |
| StorageLock.DeadOwnersFileExpires | crates/agentos-storage/src/lock.rs:60-102 | such a state is reached from the start once an owner dies inside |
| StorageLock.AcquireAlone | crates/agentos-storage/src/lock.rs:55-121 | undisturbed, the steps of an acquire do what the single call does |
| StorageLock.ReleaseAlone | crates/agentos-storage/src/lock.rs:138-157 | undisturbed, the steps of a release remove the file iff it can be read and its owner, process and time of acquisition are the guard's |
| Profiles.ResolveChain | crates/agentos-config/src/lib.rs:84-113 | the recursion with its visiting list terminates on every document and explains its result by a walk |
| Profiles.ResolveProfileChain | crates/agentos-config/src/lib.rs:84-113 | the result is explained by the extends walk from the request, and no other result is |
| Profiles.OutcomesExcludeOneAnother | crates/agentos-config/src/lib.rs:84-113 | reaching a root, a missing profile and a cycle exclude one another |
| Profiles.ChainIsResolved | crates/agentos-config/src/lib.rs:84-113 | a duplicate-free parent-before-child chain ending at the request is the result iff there is one |
| Profiles.ReportedCycleIsGenuine | crates/agentos-config/src/lib.rs:89-95 | a reported cycle starts and ends at one profile, follows extends, and repeats nothing else |
| ConfigLayers.ApplyEntries | crates/agentos-config/src/lib.rs:743-747 | the loop over a patch map: mentioned keys are patched from their entry or the default, others stay |
| ConfigLayers.AgentOsConfig.Apply | crates/agentos-config/src/lib.rs:669-697 | one profile applied in place, section by section |
| ConfigLayers.ResolveProfile | crates/agentos-config/src/lib.rs:69-82 | the base configuration under the profiles of the inheritance chain, parents first; looking up a profile of the chain never fails |
| ConfigLayers.NearestIsLastSetter | crates/agentos-config/src/lib.rs:69-82 | the nearest setter is the last profile of the chain that sets the field |
| ConfigLayers.ScalarsAreNearest | crates/agentos-config/src/lib.rs:669-866 | every scalar field has the value of its nearest setter, else the base value |
| ConfigLayers.EntriesStartFrom | crates/agentos-config/src/lib.rs:585-652 | the values an entry mentioned only by profiles starts from |
| ConfigLayers.ProvidersAreNearest | crates/agentos-config/src/lib.rs:735-778 | the same for every field of every provider entry, starting from the empty default |
| ConfigLayers.ActionPoliciesAreNearest | crates/agentos-config/src/lib.rs:801-825 | the same for per-action policies, starting from mode "ask" |
| ConfigLayers.ConnectorsAreNearest | crates/agentos-config/src/lib.rs:876-913 | the same for connectors and their runtime settings |
| ConfigLayers.KeysAreBaseAndMentioned | crates/agentos-config/src/lib.rs:692-747 | the keys of the three maps are those of the base and those some profile of the chain mentions |
| RetryPolicy.DelayIsIdealExactlyWhen | crates/agent-runtime/src/retry_policy.rs:117-125 | a delay exists iff 1 <= attempts < max_attempts, never exceeds max_delay, and equals the integer one iff the power does not saturate, or the cap is reached anyway, or the initial delay is 0 |
| RetryPolicy.SaturationShows | crates/agent-runtime/src/retry_policy.rs:121-123 | a configuration on which the saturated power shows |
| RetryPolicy.NonDecreasingExactlyWhen | crates/agent-runtime/src/retry_policy.rs:117-125 | delays never decrease iff the multiplier is at least 1, or there is at most one retry, or the first delay is 0 |
| RetryPolicy.TotalWaitIsBounded | crates/agent-runtime/src/retry_policy.rs:89-125 | however the attempts fail, the retries are the failures before the first that is not retryable, at most max_attempts - 1, and the total wait is at most as many maximal delays |
| RetryPolicy.RetriesAreExact | crates/agent-runtime/src/retry_policy.rs:89-125 | how many retries follow from an attempt number and the classes of the failures |
| RetryPolicy.DecidesExactly | crates/agent-runtime/src/retry_policy.rs:36-115 | which of the three decisions is taken, by class, attempt and attempts allowed |

## Left out

- ToolLoop.RunInner: `tool_calls_made` is unbounded here; the source adds to a 32-bit counter, which
  only a run with more than four billion calls could overflow. Traces and counters are not modelled,
  as they do not affect control flow, and neither are the constant fields of the model request.
- RunQueueProtocol.LeaseFindsItsRunQueued: runs leave Queued only by the queue's own operations; a
  caller who cancels a queued run directly in the store, between the listing and the transition of a
  lease, is not part of the protocol.
- RunStore.JsonlAgentRunStore.Transition: one call at a time, as are the methods of the other stores
  with a log; calls in progress together are the subject of `ConcurrentAppends`, whose steps are the
  change of memory and the append of one whole line.
- EventLog.MemoryJournal.Append: ids are unbounded naturals instead of 64-bit ones, and the content of
  an event is opaque. The journal's own checkpoints, a plain list per run, are left out.
- AuditChain.JsonlAuditSink.Verify: the segment checksum over the file's bytes is left out. The schema
  version is kept but never checked, as in the source, and the chain does not cover it.
- AuditMirror.EnterpriseMirrorAuditLog.FinishBatch: batch ids, reasons and times of a failure derive
  from the batch and the answer and are left out; the sink's transport is one answer per batch.
- Backup.Export: reading and writing do not fail, file names are valid Unicode, the backup directory
  lies outside the storage root, and the reports do not add up sizes.
- Backup.Restore: the artifact store's verification is a yes-or-no oracle on the restored tree.
- StorageTree.CopyDirContents: copies into an empty directory and returns the new tree as a value; the
  source's targets are empty or new as well. Trees are values, so aliasing is not captured; links
  are skipped by the copy, as in the source.
- ConfigLayers.ResolveProfile: TOML parsing, environment overlays, validation, redaction and migration
  are left out; `resolve_selected_profile` only chooses the name.
- RetryPolicy.RetriesAreExact: the keyword table that classifies error messages is an input, and the
  reason text of a refusal is left out.
- What the model, the mapper, the action runtime and the audit filter do inside is not part of this
  model; they are arbitrary functions or predicates.
- Half-written log lines, mutex poisoning, disk failures in the stores and clock adjustments.
- Audit export, redaction and permission checks, and the memory sinks used for tests.
- Artifact store, repair, migration, knowledge engine, conversation and permission crates, FFI,
  registries, diagnostics and sync: wrappers, easier repeats, or code that the modelled modules call
  only through an interface.
