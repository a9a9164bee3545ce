/** Durable agent runs: the status machine, the in-memory store, and the JSONL store that
    writes a record behind every change (crates/agent-runtime/src/run_store.rs). */
module RunStore {
  import opened Wrappers
  import opened Ordering
  import WriteBehind
  import opened ConcurrentAppends

  datatype RunStatus = Queued | Running | WaitingForApproval | Completed | Failed | Cancelled | TimedOut

  /** What a run was asked to do; opaque to the store. */
  datatype RunRequest = RunRequest(conversationId: string, triggerMessageId: string, requestedBy: string)

  datatype AgentRunRecord = AgentRunRecord(
    runId: string, request: RunRequest, status: RunStatus,
    createdAt: int, updatedAt: int, errorMessage: Option<string>)

  datatype RunStoreError =
    | NotFound(runId: string)
    | AlreadyExists(runId: string)
    | InvalidTransition(runId: string, from: RunStatus, to: RunStatus)

  type Records = map<string, AgentRunRecord>

  predicate IsTerminal(s: RunStatus) {
    s in {Completed, Failed, Cancelled, TimedOut}
  }

  predicate IsValidTransition(from: RunStatus, to: RunStatus) {
    if from == to then true
    else if IsTerminal(from) then false
    else match from
      case Queued => to in {Running, Cancelled, TimedOut}
      case Running => to in {Queued, WaitingForApproval, Completed, Failed, Cancelled, TimedOut}
      case WaitingForApproval => to in {Running, Cancelled, TimedOut}
      case _ => false
  }

  /** Every run is stored under its own id. */
  ghost predicate WellKeyed(records: Records) {
    WriteBehind.WellKeyed(RUN_ID_OF, records)
  }

  function TransitionRecord(record: AgentRunRecord, to: RunStatus, now: int): Result<AgentRunRecord, RunStoreError> {
    if !IsValidTransition(record.status, to) then Err(InvalidTransition(record.runId, record.status, to))
    else Ok(record.(status := to, updatedAt := now))
  }

  function InsertIn(records: Records, record: AgentRunRecord): Result<AgentRunRecord, RunStoreError> {
    if record.runId in records then Err(AlreadyExists(record.runId)) else Ok(record)
  }

  function TransitionIn(records: Records, runId: string, to: RunStatus,
                        now: int): Result<AgentRunRecord, RunStoreError>
  {
    if runId !in records then Err(NotFound(runId)) else TransitionRecord(records[runId], to, now)
  }

  /** The map after an operation whose stored record is `result`. */
  function Stored(records: Records, runId: string, result: Result<AgentRunRecord, RunStoreError>): Records {
    match result
    case Ok(record) => records[runId := record]
    case Err(_) => records
  }

  /** The stored records in key order. */
  ghost function Values(records: Records): (values: seq<AgentRunRecord>)
    ensures |values| == |IdsInOrder(records.Keys)|
    ensures forall i | 0 <= i < |values| ::
      IdsInOrder(records.Keys)[i] in records && values[i] == records[IdsInOrder(records.Keys)[i]]
  {
    ValuesInOrder(records)
  }

  /** The moves between different statuses; every run may also stay in its status. */
  const MOVES: set<(RunStatus, RunStatus)> := {
    (Queued, Running), (Queued, Cancelled), (Queued, TimedOut),
    (Running, Queued), (Running, WaitingForApproval), (Running, Completed), (Running, Failed), (Running, Cancelled),
    (Running, TimedOut),
    (WaitingForApproval, Running), (WaitingForApproval, Cancelled), (WaitingForApproval, TimedOut)
  }

  /** A transition stores the run with the new status and time if the move is allowed, and changes
      nothing otherwise. */
  ghost predicate Moves(before: Records, after: Records, runId: string, to: RunStatus, now: int,
                        result: Result<AgentRunRecord, RunStoreError>)
  {
    if runId !in before then after == before && result == Err(NotFound(runId))
    else
      match before[runId]
      case AgentRunRecord(id, request, from, createdAt, _, errorMessage) =>
        if from == to || (from, to) in MOVES then
          && after == before[runId := AgentRunRecord(id, request, to, createdAt, now, errorMessage)]
          && result == Ok(after[runId])
        else after == before && result == Err(InvalidTransition(id, from, to))
  }

  /** An insert stores the record unless its id is taken. */
  ghost predicate Inserts(before: Records, after: Records, record: AgentRunRecord,
                          result: Result<AgentRunRecord, RunStoreError>)
  {
    if record.runId in before then after == before && result == Err(AlreadyExists(record.runId))
    else after == before[record.runId := record] && result == Ok(record)
  }

  /** Who may follow whom: a terminal run moves nowhere, a run completes or fails only from Running, and
      returns to the queue only from there. */
  lemma TransitionsExactly(from: RunStatus, to: RunStatus)
    ensures IsValidTransition(from, to) <==> from == to || (from, to) in MOVES
    ensures from != to && IsValidTransition(from, to) ==>
      && from in {Queued, Running, WaitingForApproval}
      && (to in {Queued, Completed, Failed, WaitingForApproval} ==> from == Running)
      && (to == Running ==> from in {Queued, WaitingForApproval})
  {
  }

  class MemoryAgentRunStore {
    var records: Records

    constructor ()
      ensures records == map[]
    {
      records := map[];
    }

    method Insert(record: AgentRunRecord) returns (result: Result<AgentRunRecord, RunStoreError>)
      modifies this
      ensures result == InsertIn(old(records), record)
      ensures records == Stored(old(records), record.runId, result)
      ensures Inserts(old(records), records, record, result)
    {
      if record.runId in records {
        return Err(AlreadyExists(record.runId));
      }
      records := records[record.runId := record];
      return Ok(record);
    }

    method Get(runId: string) returns (record: Option<AgentRunRecord>)
      ensures record == if runId in records then Some(records[runId]) else None
    {
      record := if runId in records then Some(records[runId]) else None;
    }

    method List() returns (listed: seq<AgentRunRecord>)
      ensures listed == Values(records)
    {
      listed := ListInOrder(records);
    }

    method Transition(runId: string, to: RunStatus, now: int) returns (result: Result<AgentRunRecord, RunStoreError>)
      modifies this
      ensures result == TransitionIn(old(records), runId, to, now)
      ensures records == Stored(old(records), runId, result)
      ensures Moves(old(records), records, runId, to, now, result)
    {
      if runId in records {
        TransitionsExactly(records[runId].status, to);
      }
      if runId !in records {
        return Err(NotFound(runId));
      }
      var record := records[runId];
      if !IsValidTransition(record.status, to) {
        return Err(InvalidTransition(record.runId, record.status, to));
      }
      records := records[runId := record.(status := to, updatedAt := now)];
      return Ok(records[runId]);
    }
  }

  // ---------------------------------------------------------------- the JSONL log

  const RUN_ID_OF: AgentRunRecord -> string := (r: AgentRunRecord) => r.runId

  /** `next` is a legal successor of `last` in the log of one run: only the status moves, along
      a valid transition, together with the time. */
  const SUCCEEDS: (AgentRunRecord, AgentRunRecord) -> bool := (last: AgentRunRecord, next: AgentRunRecord) =>
    next == last.(status := next.status, updatedAt := next.updatedAt) && IsValidTransition(last.status, next.status)

  function Replay(log: seq<AgentRunRecord>): Records {
    WriteBehind.Replay(RUN_ID_OF, log)
  }

  ghost predicate LegalLog(log: seq<AgentRunRecord>) {
    WriteBehind.LegalLog(RUN_ID_OF, SUCCEEDS, log)
  }

  /** The JSONL store: the memory map is changed first, then the record is appended. */
  class JsonlAgentRunStore {
    const memory: MemoryAgentRunStore
    var log: seq<AgentRunRecord>

    /** Memory is what reopening the log would give. */
    ghost predicate Valid()
      reads this, memory
    {
      Replay(log) == memory.records
    }

    /** `open`: replays an existing log, whatever it holds. */
    constructor (existing: seq<AgentRunRecord>)
      ensures Valid() && fresh(memory) && log == existing && memory.records == Replay(existing)
    {
      var m := new MemoryAgentRunStore();
      memory := m;
      log := existing;
      new;
      for i := 0 to |existing|
        invariant log == existing && memory == m
        invariant memory.records == Replay(existing[..i])
      {
        assert existing[..i + 1] == existing[..i] + [existing[i]];
        WriteBehind.ReplayAppend(RUN_ID_OF, existing[..i], existing[i]);
        memory.records := memory.records[existing[i].runId := existing[i]];
      }
      assert existing[..|existing|] == existing;
    }

    method Insert(record: AgentRunRecord) returns (result: Result<AgentRunRecord, RunStoreError>)
      requires Valid()
      modifies this, memory
      ensures Valid() && (old(LegalLog(log)) ==> LegalLog(log))
      ensures result == InsertIn(old(memory.records), record)
      ensures memory.records == Stored(old(memory.records), record.runId, result)
      ensures log == old(log) + if result.Ok? then [record] else []
    {
      result := memory.Insert(record);
      if result.Ok? {
        WriteBehind.ReplayAppend(RUN_ID_OF, log, record);
        if LegalLog(log) {
          WriteBehind.LegalLogAppend(RUN_ID_OF, SUCCEEDS, log, record);
        }
        log := log + [record];
      }
    }

    method Transition(runId: string, to: RunStatus, now: int) returns (result: Result<AgentRunRecord, RunStoreError>)
      requires Valid()
      modifies this, memory
      ensures Valid() && (old(LegalLog(log)) ==> LegalLog(log))
      ensures result == TransitionIn(old(memory.records), runId, to, now)
      ensures memory.records == Stored(old(memory.records), runId, result)
      ensures log == old(log) + if result.Ok? then [result.value] else []
    {
      hide IsValidTransition, WriteBehind.LegalLog, WriteBehind.Replay;
      WriteBehind.ReplayIsWellKeyed(RUN_ID_OF, log);
      result := memory.Transition(runId, to, now);
      if result.Ok? {
        TransitionSucceeds(old(memory.records), runId, to, now);
        WriteBehind.ReplayAppend(RUN_ID_OF, log, result.value);
        if LegalLog(log) {
          WriteBehind.LegalLogAppend(RUN_ID_OF, SUCCEEDS, log, result.value);
        }
        log := log + [result.value];
      }
    }
  }

  // ---------------------------------------------------------------- runs of operations

  datatype StoreOp = Insert(record: AgentRunRecord) | Transition(runId: string, to: RunStatus, now: int)

  /** The record an operation writes, if it is accepted. */
  function WriteOf(op: StoreOp, records: Records): Option<AgentRunRecord> {
    var result := match op
      case Insert(record) => InsertIn(records, record)
      case Transition(runId, to, now) => TransitionIn(records, runId, to, now);
    if result.Ok? then Some(result.value) else None
  }

  function Writes(op: StoreOp): WriteBehind.Op<AgentRunRecord> {
    (records: Records) => WriteOf(op, records)
  }

  function AllWrites(ops: seq<StoreOp>): seq<WriteBehind.Op<AgentRunRecord>> {
    seq(|ops|, i requires 0 <= i < |ops| => Writes(ops[i]))
  }

  lemma WriteSucceeds(op: StoreOp, records: Records)
    requires WriteBehind.WellKeyed(RUN_ID_OF, records) && WriteOf(op, records).Some?
    ensures
      var r := WriteOf(op, records).value;
      r.runId in records ==> SUCCEEDS(records[r.runId], r)
  {
    hide IsValidTransition;
    if op.Transition? {
      TransitionSucceeds(records, op.runId, op.to, op.now);
    }
  }

  lemma StoreOpsRespect(op: StoreOp)
    ensures WriteBehind.Respects(RUN_ID_OF, SUCCEEDS, Writes(op))
  {
    hide WriteOf;
    forall records: Records | WriteBehind.WellKeyed(RUN_ID_OF, records) && Writes(op)(records).Some?
      ensures
        RUN_ID_OF(Writes(op)(records).value) in records ==>
          SUCCEEDS(records[RUN_ID_OF(Writes(op)(records).value)], Writes(op)(records).value)
    {
      WriteSucceeds(op, records);
    }
  }

  lemma TransitionSucceeds(records: Records, runId: string, to: RunStatus, now: int)
    requires WriteBehind.WellKeyed(RUN_ID_OF, records) && TransitionIn(records, runId, to, now).Ok?
    ensures
      var record := TransitionIn(records, runId, to, now).value;
      record.runId == runId && SUCCEEDS(records[runId], record)
  {
  }

  /** Run log: after any serialised inserts and transitions on a store opened on `log`,
      reopening gives memory back, a crash between the writes of one more operation gives the
      memory before it, and consecutive log records of a run are valid transitions. */
  lemma RunLogRefinesMemory(log: seq<AgentRunRecord>, ops: seq<StoreOp>, last: StoreOp)
    ensures
      var written := log + WriteBehind.LogOf(RUN_ID_OF, Replay(log), AllWrites(ops));
      var before := WriteBehind.MemoryAfter(RUN_ID_OF, Replay(log), AllWrites(ops));
      && Replay(written) == before
      && WriteBehind.MemoryAfter(RUN_ID_OF, Replay(log), AllWrites(ops) + [Writes(last)]) ==
         WriteBehind.Written(RUN_ID_OF, before, Writes(last)(before))
      && (LegalLog(log) ==> LegalLog(written))
  {
    forall k | 0 <= k < |AllWrites(ops)|
      ensures WriteBehind.Respects(RUN_ID_OF, SUCCEEDS, AllWrites(ops)[k])
    {
      StoreOpsRespect(ops[k]);
    }
    WriteBehind.ReplayRefinesMemory(RUN_ID_OF, SUCCEEDS, log, AllWrites(ops));
    WriteBehind.CrashLosesOnlyTheLastOperation(RUN_ID_OF, log, AllWrites(ops), Writes(last));
  }

  /** Insert a run; then two calls move it on, and the second appends before the first. */
  function OtherOrder(record: AgentRunRecord, started: int, finished: int): seq<Action<AgentRunRecord>> {
    [Change(Writes(Insert(record)))] + [Append(0)] +
    [Change(Writes(Transition(record.runId, Running, started)))] +
    [Change(Writes(Transition(record.runId, Completed, finished)))] + [Append(1)] + [Append(0)]
  }

  lemma StepsInTheOtherOrder(record: AgentRunRecord, started: int, finished: int)
    requires record.status == Queued
    ensures
      var running := record.(status := Running, updatedAt := started);
      var completed := record.(status := Completed, updatedAt := finished);
      ConcurrentAppends.Run(RUN_ID_OF, [], OtherOrder(record, started, finished)) ==
      State(map[record.runId := completed], [record, running, completed], [record] + [completed] + [running], [])
  {
    hide ConcurrentAppends.Run, Writes;
    var changes := [Change(Writes(Insert(record)))] + [Append(0)] +
                   [Change(Writes(Transition(record.runId, Running, started)))] +
                   [Change(Writes(Transition(record.runId, Completed, finished)))];
    BothMoved(record, started, finished);
    RunSteps(RUN_ID_OF, [], changes, Append(1));
    RunSteps(RUN_ID_OF, [], changes + [Append(1)], Append(0));
    var s := ConcurrentAppends.Run(RUN_ID_OF, [], changes);
    assert s.pending[..1] + s.pending[2..] == [s.pending[0]];
  }

  lemma BothMoved(record: AgentRunRecord, started: int, finished: int)
    requires record.status == Queued
    ensures
      var running := record.(status := Running, updatedAt := started);
      var completed := record.(status := Completed, updatedAt := finished);
      ConcurrentAppends.Run(RUN_ID_OF, [],
        [Change(Writes(Insert(record)))] + [Append(0)] +
        [Change(Writes(Transition(record.runId, Running, started)))] +
        [Change(Writes(Transition(record.runId, Completed, finished)))]) ==
      State(map[record.runId := completed], [record, running, completed], [record], [running, completed])
  {
    hide ConcurrentAppends.Run;
    var insert := [Change(Writes(Insert(record)))] + [Append(0)];
    var start: Action<AgentRunRecord> := Change(Writes(Transition(record.runId, Running, started)));
    var finish: Action<AgentRunRecord> := Change(Writes(Transition(record.runId, Completed, finished)));
    InsertedAndLogged(record);
    RunSteps(RUN_ID_OF, [], insert, start);
    RunSteps(RUN_ID_OF, [], insert + [start], finish);
  }

  lemma InsertedAndLogged(record: AgentRunRecord)
    ensures ConcurrentAppends.Run(RUN_ID_OF, [], [Change(Writes(Insert(record)))] + [Append(0)]) ==
            State(map[record.runId := record], [record], [record], [])
  {
    hide ConcurrentAppends.Run;
    var insert: Action<AgentRunRecord> := Change(Writes(Insert(record)));
    NothingDone();
    assert [] + [insert] == [insert];
    RunSteps(RUN_ID_OF, [], [], insert);
    RunSteps(RUN_ID_OF, [], [insert], Append(0));
  }

  lemma NothingDone()
    ensures ConcurrentAppends.Run(RUN_ID_OF, [], []) == State(map[], [], [], [])
  {
  }

  /** Two transitions of one run whose records are appended in the other order: memory holds the run
      Completed, the log reopens to it Running, and is no legal log any more. */
  lemma TransitionsLoggedInTheOtherOrder(record: AgentRunRecord, started: int, finished: int)
    requires record.status == Queued
    ensures
      var id := record.runId;
      var s := ConcurrentAppends.Run(RUN_ID_OF, [], OtherOrder(record, started, finished));
      && s.pending == [] && id in s.memory && id in Replay(s.log)
      && s.memory[id] == record.(status := Completed, updatedAt := finished)
      && Replay(s.log)[id] == record.(status := Running, updatedAt := started)
      && !LegalLog(s.log)
  {
    hide ConcurrentAppends.Step, IsValidTransition;
    var id := record.runId;
    var running := record.(status := Running, updatedAt := started);
    var completed := record.(status := Completed, updatedAt := finished);
    StepsInTheOtherOrder(record, started, finished);
    WriteBehind.ReplayAppend(RUN_ID_OF, [], record);
    WriteBehind.ReplayAppend(RUN_ID_OF, [record], completed);
    WriteBehind.ReplayAppend(RUN_ID_OF, [record] + [completed], running);
    var log := [record] + [completed] + [running];
    assert log[..2] == [record] + [completed];
    assert LegalLog(log) ==> SUCCEEDS(Replay(log[..2])[RUN_ID_OF(log[2])], log[2]);
    CompletedStays(Running);
  }

  lemma CompletedStays(to: RunStatus)
    ensures IsValidTransition(Completed, to) ==> to == Completed
  {
  }

  /** A terminal record is final: every later log record of that run has the same status. */
  lemma {:induction false} TerminalIsFinal(log: seq<AgentRunRecord>, i: nat, j: nat)
    requires LegalLog(log) && i <= j < |log|
    requires log[i].runId == log[j].runId && IsTerminal(log[i].status)
    ensures log[j].status == log[i].status
    decreases j
  {
    if i < j {
      hide WriteBehind.Replay, WriteBehind.LegalLog, IsValidTransition, IsTerminal;
      WriteBehind.ReplayedIsLast(RUN_ID_OF, log, i, j);
      var k :| i <= k < j && log[k].runId == log[i].runId && Replay(log[..j])[log[i].runId] == log[k];
      TerminalIsFinal(log, i, k);
      TerminalKeepsStatus(log, j);
    }
  }

  /** A record that follows a terminal one has its status. */
  lemma TerminalKeepsStatus(log: seq<AgentRunRecord>, j: nat)
    requires LegalLog(log) && j < |log| && log[j].runId in Replay(log[..j])
    ensures
      var last := Replay(log[..j])[log[j].runId];
      IsTerminal(last.status) ==> log[j].status == last.status
  {
    hide WriteBehind.Replay;
    assert SUCCEEDS(Replay(log[..j])[log[j].runId], log[j]);
  }
}
