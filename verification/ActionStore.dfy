/** Durable actions and their first outcome (crates/agent-runtime/src/action_store.rs). */
module ActionStore {
  import opened Wrappers
  import WriteBehind

  datatype ActionStatus = Pending | ApprovalRequired | Completed | Denied | Failed

  datatype Outcome =
    | OutcomeCompleted(actionId: string, result: string)
    | OutcomeApprovalRequired(actionId: string, reason: string)
    | OutcomeDenied(actionId: string, reason: string)
    | OutcomeFailed(actionId: string, errorMessage: string)

  datatype ActionRecord = ActionRecord(
    actionId: string, request: string, status: ActionStatus, outcome: Option<Outcome>,
    auditCorrelationId: string, idempotencyKey: string, requestedAt: int, updatedAt: int)

  datatype ActionStoreError =
    | NotFound(actionId: string)
    | AlreadyExists(actionId: string)
    | ActionAlreadyCompleted(actionId: string)

  type Records = map<string, ActionRecord>

  function StatusFromOutcome(outcome: Outcome): ActionStatus {
    match outcome
    case OutcomeCompleted(_, _) => Completed
    case OutcomeApprovalRequired(_, _) => ApprovalRequired
    case OutcomeDenied(_, _) => Denied
    case OutcomeFailed(_, _) => Failed
  }

  function ApplyOutcome(record: ActionRecord, outcome: Outcome, now: int): Result<ActionRecord, ActionStoreError> {
    match record.outcome
    case Some(existing) => if existing == outcome then Ok(record) else Err(ActionAlreadyCompleted(record.actionId))
    case None => Ok(record.(status := StatusFromOutcome(outcome), outcome := Some(outcome), updatedAt := now))
  }

  function InsertIn(records: Records, record: ActionRecord): Result<ActionRecord, ActionStoreError> {
    if record.actionId in records then Err(AlreadyExists(record.actionId)) else Ok(record)
  }

  function RecordOutcomeIn(records: Records, actionId: string, outcome: Outcome,
                           now: int): Result<ActionRecord, ActionStoreError>
  {
    if actionId !in records then Err(NotFound(actionId)) else ApplyOutcome(records[actionId], outcome, now)
  }

  function Stored(records: Records, actionId: string, result: Result<ActionRecord, ActionStoreError>): Records {
    if result.Ok? then records[actionId := result.value] else records
  }

  /** An outcome is stored once: the first one decides the status; the same one again is accepted and
      changes nothing, another one is refused and changes nothing. */
  ghost predicate RecordsOutcome(before: Records, after: Records, actionId: string, outcome: Outcome, now: int,
                                 result: Result<ActionRecord, ActionStoreError>)
  {
    if actionId !in before then after == before && result == Err(NotFound(actionId))
    else
      var record := before[actionId];
      match record.outcome
      case Some(first) =>
        && after == before
        && result == if outcome == first then Ok(record) else Err(ActionAlreadyCompleted(record.actionId))
      case None =>
        && after.Keys == before.Keys && (forall id | id in before && id != actionId :: after[id] == before[id])
        && result == Ok(after[actionId])
        && after[actionId] == record.(status := after[actionId].status, outcome := Some(outcome), updatedAt := now)
        && (after[actionId].status == Completed <==> outcome.OutcomeCompleted?)
        && (after[actionId].status == ApprovalRequired <==> outcome.OutcomeApprovalRequired?)
        && (after[actionId].status == Denied <==> outcome.OutcomeDenied?)
        && (after[actionId].status == Failed <==> outcome.OutcomeFailed?)
  }

  /** A request is stored unless its id is taken. */
  ghost predicate InsertsRequest(before: Records, after: Records, record: ActionRecord,
                                 result: Result<ActionRecord, ActionStoreError>)
  {
    if record.actionId in before then after == before && result == Err(AlreadyExists(record.actionId))
    else after == before[record.actionId := record] && result == Ok(record)
  }

  class MemoryActionStore {
    var records: Records

    constructor ()
      ensures records == map[]
    {
      records := map[];
    }

    method InsertRequest(record: ActionRecord) returns (result: Result<ActionRecord, ActionStoreError>)
      modifies this
      ensures result == InsertIn(old(records), record)
      ensures records == Stored(old(records), record.actionId, result)
      ensures InsertsRequest(old(records), records, record, result)
    {
      if record.actionId in records {
        return Err(AlreadyExists(record.actionId));
      }
      records := records[record.actionId := record];
      return Ok(record);
    }

    method Get(actionId: string) returns (record: Option<ActionRecord>)
      ensures record == if actionId in records then Some(records[actionId]) else None
    {
      record := if actionId in records then Some(records[actionId]) else None;
    }

    method RecordOutcome(actionId: string, outcome: Outcome, now: int)
      returns (result: Result<ActionRecord, ActionStoreError>)
      modifies this
      ensures result == RecordOutcomeIn(old(records), actionId, outcome, now)
      ensures records == Stored(old(records), actionId, result)
      ensures RecordsOutcome(old(records), records, actionId, outcome, now, result)
    {
      if actionId !in records {
        return Err(NotFound(actionId));
      }
      var record := records[actionId];
      if record.outcome.Some? {
        if record.outcome.value == outcome {
          assert records == records[actionId := record];
          return Ok(record);
        }
        return Err(ActionAlreadyCompleted(record.actionId));
      }
      record := record.(status := StatusFromOutcome(outcome), outcome := Some(outcome), updatedAt := now);
      records := records[actionId := record];
      return Ok(record);
    }
  }

  const ACTION_ID_OF: ActionRecord -> string := (r: ActionRecord) => r.actionId

  /** The only legal successor of a logged record: the same action getting its first outcome. */
  const FIRST_OUTCOME: (ActionRecord, ActionRecord) -> bool := (last: ActionRecord, next: ActionRecord) =>
    && last.outcome.None? && next.outcome.Some?
    && next == last.(status := StatusFromOutcome(next.outcome.value),
                     outcome := next.outcome, updatedAt := next.updatedAt)

  function Replay(log: seq<ActionRecord>): Records {
    WriteBehind.Replay(ACTION_ID_OF, log)
  }

  ghost predicate LegalLog(log: seq<ActionRecord>) {
    WriteBehind.LegalLog(ACTION_ID_OF, FIRST_OUTCOME, log)
  }

  /** The JSONL store; a repeated outcome is accepted but not appended again. */
  class JsonlActionStore {
    const memory: MemoryActionStore
    var log: seq<ActionRecord>

    ghost predicate Valid()
      reads this, memory
    {
      Replay(log) == memory.records
    }

    constructor (existing: seq<ActionRecord>)
      ensures Valid() && fresh(memory) && log == existing && memory.records == Replay(existing)
    {
      var m := new MemoryActionStore();
      memory := m;
      log := existing;
      new;
      for i := 0 to |existing|
        invariant log == existing && memory == m
        invariant memory.records == Replay(existing[..i])
      {
        assert existing[..i + 1] == existing[..i] + [existing[i]];
        WriteBehind.ReplayAppend(ACTION_ID_OF, existing[..i], existing[i]);
        memory.records := memory.records[existing[i].actionId := existing[i]];
      }
      assert existing[..|existing|] == existing;
    }

    method InsertRequest(record: ActionRecord) returns (result: Result<ActionRecord, ActionStoreError>)
      requires Valid()
      modifies this, memory
      ensures Valid() && (old(LegalLog(log)) ==> LegalLog(log))
      ensures result == InsertIn(old(memory.records), record)
      ensures memory.records == Stored(old(memory.records), record.actionId, result)
      ensures log == old(log) + if result.Ok? then [record] else []
    {
      hide WriteBehind.LegalLog, WriteBehind.Replay;
      result := memory.InsertRequest(record);
      if result.Ok? {
        WriteBehind.ReplayAppend(ACTION_ID_OF, log, record);
        if LegalLog(log) {
          WriteBehind.LegalLogAppend(ACTION_ID_OF, FIRST_OUTCOME, log, record);
        }
        log := log + [record];
      }
    }

    method RecordOutcome(actionId: string, outcome: Outcome, now: int)
      returns (result: Result<ActionRecord, ActionStoreError>)
      requires Valid()
      modifies this, memory
      ensures Valid() && (old(LegalLog(log)) ==> LegalLog(log))
      ensures result == RecordOutcomeIn(old(memory.records), actionId, outcome, now)
      ensures memory.records == Stored(old(memory.records), actionId, result)
      ensures log == old(log) + if result.Ok? && old(memory.records)[actionId].outcome.None? then [result.value] else []
    {
      hide WriteBehind.LegalLog, WriteBehind.Replay;
      WriteBehind.ReplayIsWellKeyed(ACTION_ID_OF, log);
      var existing := memory.Get(actionId);
      result := memory.RecordOutcome(actionId, outcome, now);
      if result.Err? {
        return;
      }
      var before := if existing.Some? then existing.value.outcome else None;
      if before != result.value.outcome {
        WriteBehind.ReplayAppend(ACTION_ID_OF, log, result.value);
        if LegalLog(log) {
          WriteBehind.LegalLogAppend(ACTION_ID_OF, FIRST_OUTCOME, log, result.value);
        }
        log := log + [result.value];
      }
    }
  }

  // ---------------------------------------------------------------- runs of operations

  datatype ActionOp = Insert(record: ActionRecord) | Outcome(actionId: string, outcome: Outcome, now: int)

  /** The record an operation writes to map and log: nothing when it is refused or repeated. */
  function WriteOf(op: ActionOp, records: Records): Option<ActionRecord> {
    match op
    case Insert(record) => if InsertIn(records, record).Ok? then Some(record) else None
    case Outcome(actionId, outcome, now) =>
      var result := RecordOutcomeIn(records, actionId, outcome, now);
      if result.Ok? && records[actionId].outcome.None? then Some(result.value) else None
  }

  function Writes(op: ActionOp): WriteBehind.Op<ActionRecord> {
    (records: Records) => WriteOf(op, records)
  }

  function AllWrites(ops: seq<ActionOp>): seq<WriteBehind.Op<ActionRecord>> {
    seq(|ops|, i requires 0 <= i < |ops| => Writes(ops[i]))
  }

  lemma ActionOpsRespect(op: ActionOp)
    ensures WriteBehind.Respects(ACTION_ID_OF, FIRST_OUTCOME, Writes(op))
  {
  }

  /** Action log: reopening after any serialised operations gives memory back, a crash between
      the writes of one more operation gives the memory before it, and each log record of an
      action but the first is that action getting its first outcome. */
  lemma ActionLogRefinesMemory(log: seq<ActionRecord>, ops: seq<ActionOp>, last: ActionOp)
    ensures
      var written := log + WriteBehind.LogOf(ACTION_ID_OF, Replay(log), AllWrites(ops));
      var before := WriteBehind.MemoryAfter(ACTION_ID_OF, Replay(log), AllWrites(ops));
      && Replay(written) == before
      && WriteBehind.MemoryAfter(ACTION_ID_OF, Replay(log), AllWrites(ops) + [Writes(last)]) ==
         WriteBehind.Written(ACTION_ID_OF, before, Writes(last)(before))
      && (LegalLog(log) ==> LegalLog(written))
  {
    forall k | 0 <= k < |AllWrites(ops)|
      ensures WriteBehind.Respects(ACTION_ID_OF, FIRST_OUTCOME, AllWrites(ops)[k])
    {
      ActionOpsRespect(ops[k]);
    }
    WriteBehind.ReplayRefinesMemory(ACTION_ID_OF, FIRST_OUTCOME, log, AllWrites(ops));
    WriteBehind.CrashLosesOnlyTheLastOperation(ACTION_ID_OF, log, AllWrites(ops), Writes(last));
  }

  /** An outcome is logged once: after a record with an outcome, the log -- extended by any
      operations, retries included -- holds no further record of that action. */
  lemma OutcomeIsLoggedOnce(log: seq<ActionRecord>, i: nat, j: nat)
    requires LegalLog(log) && i < j < |log|
    requires log[i].outcome.Some?
    ensures log[j].actionId != log[i].actionId
  {
    OutcomeStays(log, i, j);
    ReplacesOnlyPending(log, j);
  }

  lemma ReplacesOnlyPending(log: seq<ActionRecord>, j: nat)
    requires LegalLog(log) && j < |log|
    ensures log[j].actionId in Replay(log[..j]) ==> Replay(log[..j])[log[j].actionId].outcome.None?
  {
  }

  lemma {:induction false} OutcomeStays(log: seq<ActionRecord>, i: nat, j: nat)
    requires LegalLog(log) && i < j <= |log| && log[i].outcome.Some?
    ensures log[i].actionId in Replay(log[..j]) && Replay(log[..j])[log[i].actionId] == log[i]
    decreases j
  {
    hide WriteBehind.Replay, WriteBehind.LegalLog;
    assert log[..j] == log[..j - 1] + [log[j - 1]];
    WriteBehind.ReplayAppend(ACTION_ID_OF, log[..j - 1], log[j - 1]);
    if i < j - 1 {
      OutcomeStays(log, i, j - 1);
      ReplacesOnlyPending(log, j - 1);
    }
  }

  /** The first outcome of an action is never changed, by any operations after it. */
  lemma {:induction false} FirstOutcomeIsFinal(records: Records, ops: seq<ActionOp>, id: string)
    requires WriteBehind.WellKeyed(ACTION_ID_OF, records)
    requires id in records && records[id].outcome.Some?
    ensures
      var after := WriteBehind.MemoryAfter(ACTION_ID_OF, records, AllWrites(ops));
      id in after && after[id] == records[id]
    decreases |ops|
  {
    if ops != [] {
      var written := WriteBehind.Written(ACTION_ID_OF, records, Writes(ops[0])(records));
      assert AllWrites(ops)[1..] == AllWrites(ops[1..]);
      FirstOutcomeIsFinal(written, ops[1..], id);
    }
  }
}
