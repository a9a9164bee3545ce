/** The approval queue, in memory and with its JSONL log
    (crates/agent-runtime/src/approval_queue.rs). Expiry changes memory only: neither
    `pending` nor a refused decision appends anything, so live queue and log drift apart in a
    controlled way. Clock readings are parameters of the operations. */
module ApprovalQueue {
  import opened Wrappers
  import opened Ordering
  import WriteBehind

  datatype ApprovalStatus = Pending | Approved | Denied | Revoked | Expired

  datatype DecisionKind = DecidedApproved | DecidedDenied | DecidedRevoked

  datatype Decision = Decision(kind: DecisionKind, decidedBy: string, reason: string, decidedAt: int)

  datatype ApprovalRequest = ApprovalRequest(
    approvalId: string, actionId: string, conversationId: string, requestedBy: string,
    reason: string, requestedAt: int, expiresAt: Option<int>)

  datatype ApprovalRecord = ApprovalRecord(
    approvalId: string, request: ApprovalRequest, status: ApprovalStatus, decision: Option<Decision>, updatedAt: int)

  datatype ApprovalError =
    | NotFound(approvalId: string)
    | AlreadyExists(approvalId: string)
    | AlreadyDecided(approvalId: string)
    | ApprovalExpired(approvalId: string)

  type Records = map<string, ApprovalRecord>

  predicate IsTerminal(s: ApprovalStatus) {
    s != Pending
  }

  predicate IsExpired(record: ApprovalRecord, now: int) {
    record.request.expiresAt.Some? && record.request.expiresAt.value <= now
  }

  function PendingRecord(request: ApprovalRequest, stamp: int): ApprovalRecord {
    ApprovalRecord(request.approvalId, request, Pending, None, stamp)
  }

  // ---------------------------------------------------------------- operations on values

  /** Every operation with its clock readings: `check` decides expiry, `stamp` is written. The
      expiry pass of `pending` reads the clock for every record, and again to stamp it. */
  datatype ApprovalOp =
    | Enqueue(request: ApprovalRequest, stamp: int)
    | ListPending(checks: string -> int, stamps: string -> int, upto: int)
    | Decide(approvalId: string, status: ApprovalStatus, decision: Decision, check: int, stamp: int)

  datatype Response =
    | Recorded(record: ApprovalRecord)
    | Listed(pending: map<string, ApprovalRecord>)
    | Refused(error: ApprovalError)

  function ExpireOne(record: ApprovalRecord, now: int, stamp: int): ApprovalRecord {
    if record.status == Pending && IsExpired(record, now)
    then record.(status := Expired, updatedAt := stamp)
    else record
  }

  function ExpireAll(records: Records, checks: string -> int, stamps: string -> int): Records {
    map id | id in records :: ExpireOne(records[id], checks(id), stamps(id))
  }

  function PendingIn(records: Records): Records {
    map id | id in records && records[id].status == Pending :: records[id]
  }

  function DecideOn(records: Records, id: string, status: ApprovalStatus, decision: Decision, check: int, stamp: int)
    : (Records, Result<ApprovalRecord, ApprovalError>)
  {
    if id !in records then (records, Err(NotFound(id)))
    else
      var record := records[id];
      if IsTerminal(record.status) then (records, Err(AlreadyDecided(id)))
      else if IsExpired(record, check) then
        (records[id := record.(status := Expired, updatedAt := stamp)], Err(ApprovalExpired(id)))
      else
        var decided := record.(status := status, decision := Some(decision), updatedAt := stamp);
        (records[id := decided], Ok(decided))
  }

  function EnqueueOn(records: Records, request: ApprovalRequest, stamp: int)
    : (Records, Result<ApprovalRecord, ApprovalError>)
  {
    var record := PendingRecord(request, stamp);
    if record.approvalId in records then (records, Err(AlreadyExists(record.approvalId)))
    else (records[record.approvalId := record], Ok(record))
  }

  // ---------------------------------------------------------------- what they promise

  /** A decision on `id`: refused for an unknown id or a decided record, refused with the record
      expired when it comes too late, else stored and answered; other records are untouched. */
  ghost predicate Decides(before: Records, after: Records, id: string, status: ApprovalStatus, decision: Decision,
                          check: int, stamp: int, result: Result<ApprovalRecord, ApprovalError>)
  {
    if id !in before then after == before && result == Err(NotFound(id))
    else
      match before[id]
      case ApprovalRecord(approvalId, request, Pending, _, _) =>
        if request.expiresAt.Some? && request.expiresAt.value <= check then
          && after == before[id := ApprovalRecord(approvalId, request, Expired, before[id].decision, stamp)]
          && result == Err(ApprovalExpired(id))
        else
          && after == before[id := ApprovalRecord(approvalId, request, status, Some(decision), stamp)]
          && result == Ok(after[id])
      case _ => after == before && result == Err(AlreadyDecided(id))
  }

  /** A request becomes a pending record, unless its id is taken. */
  ghost predicate Enqueues(before: Records, after: Records, request: ApprovalRequest, stamp: int,
                           result: Result<ApprovalRecord, ApprovalError>)
  {
    var id := request.approvalId;
    if id in before then after == before && result == Err(AlreadyExists(id))
    else
      && after == before[id := ApprovalRecord(id, request, Pending, None, stamp)]
      && result == Ok(after[id])
  }

  /** Exactly the pending records whose expiry has come are expired, and stamped. */
  ghost predicate Expires(before: Records, after: Records, checks: string -> int, stamps: string -> int) {
    && after.Keys == before.Keys
    && forall id | id in before ::
         var expiry := before[id].request.expiresAt;
         after[id] ==
         if before[id].status == Pending && expiry.Some? && expiry.value <= checks(id)
         then before[id].(status := Expired, updatedAt := stamps(id))
         else before[id]
  }

  // ---------------------------------------------------------------- the queues

  class MemoryApprovalQueue {
    var records: Records

    constructor ()
      ensures records == map[]
    {
      records := map[];
    }

    method Enqueue(request: ApprovalRequest, stamp: int) returns (result: Result<ApprovalRecord, ApprovalError>)
      modifies this
      ensures (records, result) == EnqueueOn(old(records), request, stamp)
      ensures Enqueues(old(records), records, request, stamp, result)
    {
      var record := PendingRecord(request, stamp);
      if record.approvalId in records {
        return Err(AlreadyExists(record.approvalId));
      }
      records := records[record.approvalId := record];
      return Ok(record);
    }

    /** `expire_pending_records`: the map is walked and changed in place. */
    method ExpirePendingRecords(checks: string -> int, stamps: string -> int)
      modifies this
      ensures records == ExpireAll(old(records), checks, stamps)
      ensures Expires(old(records), records, checks, stamps)
    {
      ghost var before := records;
      var todo := records.Keys;
      while todo != {}
        invariant todo <= before.Keys && records.Keys == before.Keys
        invariant forall id | id in before ::
          records[id] == if id in todo then before[id] else ExpireOne(before[id], checks(id), stamps(id))
        decreases |todo|
      {
        var id :| id in todo;
        var record := records[id];
        if record.status == Pending && IsExpired(record, checks(id)) {
          records := records[id := record.(status := Expired, updatedAt := stamps(id))];
        }
        todo := todo - {id};
      }
    }

    /** `pending`: in the order of the ids. */
    method ListPending(checks: string -> int, stamps: string -> int) returns (pending: seq<ApprovalRecord>)
      modifies this
      ensures records == ExpireAll(old(records), checks, stamps)
      ensures Expires(old(records), records, checks, stamps)
      ensures pending == ValuesInOrder(PendingIn(records))
      ensures PendingIn(records) == map id | id in records && records[id].status == Pending :: records[id]
    {
      ExpirePendingRecords(checks, stamps);
      pending := ListInOrder(PendingIn(records));
    }

    method Decide(id: string, status: ApprovalStatus, decision: Decision, check: int, stamp: int)
      returns (result: Result<ApprovalRecord, ApprovalError>)
      modifies this
      ensures (records, result) == DecideOn(old(records), id, status, decision, check, stamp)
      ensures Decides(old(records), records, id, status, decision, check, stamp, result)
    {
      if id !in records {
        return Err(NotFound(id));
      }
      var record := records[id];
      if IsTerminal(record.status) {
        return Err(AlreadyDecided(id));
      }
      if IsExpired(record, check) {
        records := records[id := record.(status := Expired, updatedAt := stamp)];
        return Err(ApprovalExpired(id));
      }
      record := record.(status := status, decision := Some(decision), updatedAt := stamp);
      records := records[id := record];
      return Ok(record);
    }

    method Approve(id: string, decision: Decision, check: int, stamp: int)
      returns (result: Result<ApprovalRecord, ApprovalError>)
      modifies this
      ensures (records, result) == DecideOn(old(records), id, Approved, decision, check, stamp)
      ensures Decides(old(records), records, id, Approved, decision, check, stamp, result)
    {
      result := Decide(id, Approved, decision, check, stamp);
    }

    method Deny(id: string, decision: Decision, check: int, stamp: int)
      returns (result: Result<ApprovalRecord, ApprovalError>)
      modifies this
      ensures (records, result) == DecideOn(old(records), id, Denied, decision, check, stamp)
      ensures Decides(old(records), records, id, Denied, decision, check, stamp, result)
    {
      result := Decide(id, Denied, decision, check, stamp);
    }

    method Revoke(id: string, reason: string, decidedAt: int, check: int, stamp: int)
      returns (result: Result<ApprovalRecord, ApprovalError>)
      modifies this
      ensures (records, result) ==
        DecideOn(old(records), id, Revoked, Decision(DecidedRevoked, "system", reason, decidedAt), check, stamp)
      ensures Decides(old(records), records, id, Revoked, Decision(DecidedRevoked, "system", reason, decidedAt),
                      check, stamp, result)
    {
      result := Decide(id, Revoked, Decision(DecidedRevoked, "system", reason, decidedAt), check, stamp);
    }
  }

  const APPROVAL_ID_OF: ApprovalRecord -> string := (r: ApprovalRecord) => r.approvalId

  function Replay(log: seq<ApprovalRecord>): Records {
    WriteBehind.Replay(APPROVAL_ID_OF, log)
  }

  /** The JSONL queue. `now` in the invariant is a time no later than the present. */
  class JsonlApprovalQueue {
    const memory: MemoryApprovalQueue
    var log: seq<ApprovalRecord>

    /** The log replays to the live queue up to expiry. */
    ghost predicate Valid(now: int)
      reads this, memory
    {
      UpToExpiry(memory.records, Replay(log), now)
    }

    constructor (existing: seq<ApprovalRecord>, ghost now: int)
      ensures Valid(now) && fresh(memory) && log == existing && memory.records == Replay(existing)
    {
      var m := new MemoryApprovalQueue();
      memory := m;
      log := existing;
      new;
      for i := 0 to |existing|
        invariant log == existing && memory == m
        invariant memory.records == Replay(existing[..i])
      {
        assert existing[..i + 1] == existing[..i] + [existing[i]];
        WriteBehind.ReplayAppend(APPROVAL_ID_OF, existing[..i], existing[i]);
        memory.records := memory.records[existing[i].approvalId := existing[i]];
      }
      assert existing[..|existing|] == existing;
    }

    method Enqueue(request: ApprovalRequest, stamp: int, ghost now: int)
      returns (result: Result<ApprovalRecord, ApprovalError>)
      requires Valid(now) && now <= stamp
      modifies this, memory
      ensures Valid(stamp)
      ensures (memory.records, result) == EnqueueOn(old(memory.records), request, stamp)
      ensures log == old(log) + if result.Ok? then [result.value] else []
    {
      hide WriteBehind.Replay;
      result := memory.Enqueue(request, stamp);
      if result.Ok? {
        WriteBehind.ReplayAppend(APPROVAL_ID_OF, log, result.value);
        log := log + [result.value];
      }
    }

    method ListPending(checks: string -> int, stamps: string -> int, ghost upto: int, ghost now: int)
      returns (pending: seq<ApprovalRecord>)
      requires Valid(now) && now <= upto && forall id :: now <= checks(id) <= stamps(id) <= upto
      modifies memory
      ensures Valid(upto)
      ensures memory.records == ExpireAll(old(memory.records), checks, stamps)
      ensures pending == ValuesInOrder(PendingIn(memory.records))
    {
      hide WriteBehind.Replay;
      pending := memory.ListPending(checks, stamps);
    }

    method Decide(id: string, status: ApprovalStatus, decision: Decision, check: int, stamp: int, ghost now: int)
      returns (result: Result<ApprovalRecord, ApprovalError>)
      requires Valid(now) && now <= check <= stamp && status in {Approved, Denied, Revoked}
      modifies this, memory
      ensures Valid(stamp)
      ensures (memory.records, result) == DecideOn(old(memory.records), id, status, decision, check, stamp)
      ensures log == old(log) + if result.Ok? then [result.value] else []
    {
      hide WriteBehind.Replay, UpToExpiry, DecideOn;
      WriteBehind.ReplayIsWellKeyed(APPROVAL_ID_OF, log);
      DecideKeepsUpToExpiry(memory.records, Replay(log), id, status, decision, check, stamp, now);
      result := memory.Decide(id, status, decision, check, stamp);
      if result.Ok? {
        WriteBehind.ReplayAppend(APPROVAL_ID_OF, log, result.value);
        log := log + [result.value];
      }
    }
  }

  // ---------------------------------------------------------------- up to expiry

  /** A live record and the record of the log: equal, or the live one has expired since. */
  ghost predicate SameUpToExpiry(live: ApprovalRecord, logged: ApprovalRecord, now: int) {
    || live == logged
    || (&& live.status == Expired && logged.status in {Pending, Expired}
        && live == logged.(status := Expired, updatedAt := live.updatedAt)
        && (logged.status == Pending ==> IsExpired(logged, now)))
  }

  ghost predicate UpToExpiry(live: Records, logged: Records, now: int) {
    && live.Keys == logged.Keys
    && forall id | id in live :: SameUpToExpiry(live[id], logged[id], now)
  }

  /** What the relation means for an observer: the same ids, the same decided records, and
      pending records that are equal or expired. */
  lemma WhatReopeningGives(live: Records, reopened: Records, now: int)
    requires UpToExpiry(live, reopened, now)
    ensures live.Keys == reopened.Keys
    ensures forall id | id in live ::
              (live[id].status in {Approved, Denied, Revoked} ||
               reopened[id].status in {Approved, Denied, Revoked}) ==> live[id] == reopened[id]
    ensures forall id | id in live ::
              reopened[id].status in {Pending, Expired} <==> live[id].status in {Pending, Expired}
    ensures forall id | id in live && reopened[id].status == Pending ::
              live[id] == reopened[id] || (live[id].status == Expired && IsExpired(reopened[id], now))
  {
    assert forall id | id in live :: SameUpToExpiry(live[id], reopened[id], now);
  }

  lemma ExpiresAlike(live: ApprovalRecord, logged: ApprovalRecord, now: int, at: int, stamp: int)
    requires SameUpToExpiry(live, logged, now) && now <= at
    ensures ExpireOne(live, at, stamp).status == Pending <==> ExpireOne(logged, at, stamp).status == Pending
    ensures ExpireOne(live, at, stamp).status == Pending ==> live == logged
  {
  }

  /** `pending()` answers the same from both, records and not only ids. */
  lemma PendingAgrees(live: Records, reopened: Records, now: int, checks: string -> int, stamps: string -> int)
    requires UpToExpiry(live, reopened, now) && forall id :: now <= checks(id)
    ensures PendingIn(ExpireAll(live, checks, stamps)) == PendingIn(ExpireAll(reopened, checks, stamps))
  {
    hide ExpireOne, SameUpToExpiry;
    var a, b := ExpireAll(live, checks, stamps), ExpireAll(reopened, checks, stamps);
    forall id | id in live
      ensures a[id].status == Pending <==> b[id].status == Pending
      ensures a[id].status == Pending ==> a[id] == b[id]
    {
      ExpiresAlike(live[id], reopened[id], now, checks(id), stamps(id));
    }
  }

  // ---------------------------------------------------------------- runs

  function Apply(records: Records, op: ApprovalOp): (Records, Response) {
    match op
    case Enqueue(request, stamp) =>
      var (after, result) := EnqueueOn(records, request, stamp);
      (after, match result case Ok(r) => Recorded(r) case Err(e) => Refused(e))
    case ListPending(checks, stamps, _) =>
      var after := ExpireAll(records, checks, stamps);
      (after, Listed(PendingIn(after)))
    case Decide(id, status, decision, check, stamp) =>
      var (after, result) := DecideOn(records, id, status, decision, check, stamp);
      (after, match result case Ok(r) => Recorded(r) case Err(e) => Refused(e))
  }

  ghost predicate Starts(op: ApprovalOp, now: int) {
    match op
    case Enqueue(_, stamp) => now <= stamp
    case ListPending(checks, stamps, upto) => now <= upto && forall id :: now <= checks(id) <= stamps(id) <= upto
    case Decide(_, status, _, check, stamp) => now <= check <= stamp && status in {Approved, Denied, Revoked}
  }

  function EndOf(op: ApprovalOp): int {
    match op
    case Enqueue(_, stamp) => stamp
    case ListPending(_, _, upto) => upto
    case Decide(_, _, _, _, stamp) => stamp
  }

  /** The clock never runs backwards along the operations. */
  ghost predicate Timed(ops: seq<ApprovalOp>, now: int)
    decreases |ops|
  {
    ops == [] || (Starts(ops[0], now) && Timed(ops[1..], EndOf(ops[0])))
  }

  function EndOfAll(ops: seq<ApprovalOp>, now: int): int
    decreases |ops|
  {
    if ops == [] then now else EndOfAll(ops[1..], EndOf(ops[0]))
  }

  function After(records: Records, ops: seq<ApprovalOp>): Records
    decreases |ops|
  {
    if ops == [] then records else After(Apply(records, ops[0]).0, ops[1..])
  }

  function Responses(records: Records, ops: seq<ApprovalOp>): seq<Response>
    decreases |ops|
  {
    if ops == [] then [] else [Apply(records, ops[0]).1] + Responses(Apply(records, ops[0]).0, ops[1..])
  }

  /** Everything appended: the records answered by `enqueue`, `approve`, `deny` and `revoke`. */
  function LogOf(records: Records, ops: seq<ApprovalOp>): seq<ApprovalRecord>
    decreases |ops|
  {
    if ops == [] then []
    else
      var (after, response) := Apply(records, ops[0]);
      (if response.Recorded? then [response.record] else []) + LogOf(after, ops[1..])
  }

  lemma DecideKeepsUpToExpiry(live: Records, logged: Records, id: string, status: ApprovalStatus, decision: Decision,
                              check: int, stamp: int, now: int)
    requires UpToExpiry(live, logged, now) && WriteBehind.WellKeyed(APPROVAL_ID_OF, logged)
    requires now <= check <= stamp && status in {Approved, Denied, Revoked}
    ensures
      var (after, result) := DecideOn(live, id, status, decision, check, stamp);
      UpToExpiry(after, if result.Ok? then logged[result.value.approvalId := result.value] else logged, stamp)
  {
    if id in live {
      assert SameUpToExpiry(live[id], logged[id], now);
    }
  }

  lemma StepKeepsUpToExpiry(live: Records, logged: Records, op: ApprovalOp, now: int)
    requires UpToExpiry(live, logged, now) && Starts(op, now) && WriteBehind.WellKeyed(APPROVAL_ID_OF, logged)
    ensures
      var (after, response) := Apply(live, op);
      var logged' := if response.Recorded? then logged[response.record.approvalId := response.record] else logged;
      UpToExpiry(after, logged', EndOf(op))
  {
    if op.Decide? {
      hide DecideOn, UpToExpiry;
      DecideKeepsUpToExpiry(live, logged, op.approvalId, op.status, op.decision, op.check, op.stamp, now);
    }
  }

  lemma StepKeepsLog(live: Records, log: seq<ApprovalRecord>, op: ApprovalOp, now: int)
    requires UpToExpiry(live, Replay(log), now) && Starts(op, now)
    ensures
      var (after, response) := Apply(live, op);
      UpToExpiry(after, Replay(log + if response.Recorded? then [response.record] else []), EndOf(op))
  {
    hide WriteBehind.Replay, UpToExpiry, Apply;
    WriteBehind.ReplayIsWellKeyed(APPROVAL_ID_OF, log);
    StepKeepsUpToExpiry(live, Replay(log), op, now);
    var response := Apply(live, op).1;
    if response.Recorded? {
      WriteBehind.ReplayAppend(APPROVAL_ID_OF, log, response.record);
    } else {
      assert log + [] == log;
    }
  }

  /** Replay up to expiry: after any serialised operations under a monotone clock, the queue
      reopened from the log is the live queue up to expiry (see WhatReopeningGives). */
  lemma {:induction false} ReopenedUpToExpiry(live: Records, log: seq<ApprovalRecord>, ops: seq<ApprovalOp>, now: int)
    requires UpToExpiry(live, Replay(log), now) && Timed(ops, now)
    ensures UpToExpiry(After(live, ops), Replay(log + LogOf(live, ops)), EndOfAll(ops, now))
    decreases |ops|
  {
    hide UpToExpiry, Replay, Apply;
    if ops == [] {
      assert log + [] == log;
    } else {
      var (after, response) := Apply(live, ops[0]);
      var step := if response.Recorded? then [response.record] else [];
      StepKeepsLog(live, log, ops[0], now);
      ReopenedUpToExpiry(after, log + step, ops[1..], EndOf(ops[0]));
      assert log + (step + LogOf(after, ops[1..])) == log + step + LogOf(after, ops[1..]);
    }
  }

  // ---------------------------------------------------------------- who decided

  /** The k-th operation is accepted and decides `id` with this status. */
  ghost predicate AcceptsDecision(records: Records, ops: seq<ApprovalOp>, k: nat, id: string, status: ApprovalStatus)
    requires k < |ops|
  {
    && ops[k].Decide? && ops[k].approvalId == id && ops[k].status == status
    && Apply(After(records, ops[..k]), ops[k]).1.Recorded?
  }

  lemma OneDecision(records: Records, op: ApprovalOp, id: string, status: ApprovalStatus)
    requires status in {Approved, Denied, Revoked}
    ensures
      var after := Apply(records, op).0;
      && (id in records ==> id in after)
      && (id in after && after[id].status == status <==>
            || (id in records && records[id].status == status)
            || (op.Decide? && op.approvalId == id && op.status == status && Apply(records, op).1.Recorded?))
      && (id in records && records[id].status == status ==> after[id] == records[id])
      && (op.Decide? && op.approvalId == id && Apply(records, op).1.Recorded? ==>
            && id in records && after[id].decision == Some(op.decision) && after[id].updatedAt == op.stamp
            && after[id].request == records[id].request)
  {
  }

  /** A record is Denied after a run exactly if it was before, or some operation of the run denied it
      and was accepted; and likewise Approved and Revoked. */
  lemma {:induction false} DecidedExactlyBy(records: Records, ops: seq<ApprovalOp>, id: string, status: ApprovalStatus)
    requires status in {Approved, Denied, Revoked}
    ensures
      var after := After(records, ops);
      id in after && after[id].status == status <==>
        || (id in records && records[id].status == status)
        || exists k | 0 <= k < |ops| :: AcceptsDecision(records, ops, k, id, status)
    decreases |ops|
  {
    hide Apply;
    if ops != [] {
      var next, rest := Apply(records, ops[0]).0, ops[1..];
      OneDecision(records, ops[0], id, status);
      DecidedExactlyBy(next, rest, id, status);
      forall k | 0 < k < |ops|
        ensures AcceptsDecision(records, ops, k, id, status) <==> AcceptsDecision(next, rest, k - 1, id, status)
      {
        assert ops[..k][1..] == rest[..k - 1];
      }
      if k :| 0 <= k < |rest| && AcceptsDecision(next, rest, k, id, status) {
        assert AcceptsDecision(records, ops, k + 1, id, status);
      }
      assert AcceptsDecision(records, ops, 0, id, status) <==>
        ops[0].Decide? && ops[0].approvalId == id && ops[0].status == status && Apply(records, ops[0]).1.Recorded?;
    }
  }

  // ---------------------------------------------------------------- a crash before the append

  lemma {:induction false} LogOfFirst(live: Records, ops: seq<ApprovalOp>, last: ApprovalOp, now: int)
    requires Timed(ops + [last], now)
    ensures Timed(ops, now) && Starts(last, EndOfAll(ops, now))
    ensures After(live, ops + [last]) == Apply(After(live, ops), last).0
    decreases |ops|
  {
    hide Apply, Starts;
    if ops == [] {
      assert ([] + [last])[1..] == [];
    } else {
      assert (ops + [last])[1..] == ops[1..] + [last];
      LogOfFirst(Apply(live, ops[0]).0, ops[1..], last, EndOf(ops[0]));
    }
  }

  /** What a crash before the append of `last` loses, by its answer and the map before it: a request
      becomes unknown; a decision leaves the record as it was, pending and open to either decision
      until it expires; what appends nothing loses nothing. Other records agree up to expiry. */
  ghost predicate LosesOnly(last: ApprovalOp, response: Response, before: Records, atCrash: Records,
                            reopened: Records)
  {
    if !response.Recorded? then UpToExpiry(atCrash, reopened, EndOf(last))
    else
      var id := response.record.approvalId;
      && atCrash == before[id := response.record]
      && UpToExpiry(atCrash - {id}, reopened - {id}, EndOf(last))
      && (last.Enqueue? ==> id == last.request.approvalId && id !in reopened)
      && (last.Decide? ==> id == last.approvalId && id in before && IsUndecided(reopened, id, before[id]))
  }

  ghost predicate IsUndecided(records: Records, id: string, record: ApprovalRecord) {
    && id in records && records[id] == record && record.status == Pending
    && forall status, decision, check, stamp ::
         DecideOn(records, id, status, decision, check, stamp).1.Ok? <==> !IsExpired(record, check)
  }

  /** A crash between the two writes of the last operation loses what it was about to append and
      nothing else. */
  lemma CrashLosesOnlyTheLastAppend(live: Records, log: seq<ApprovalRecord>, ops: seq<ApprovalOp>, last: ApprovalOp,
                                    now: int)
    requires UpToExpiry(live, Replay(log), now) && Timed(ops + [last], now)
    ensures
      var before := After(live, ops);
      LosesOnly(last, Apply(before, last).1, before, After(live, ops + [last]), Replay(log + LogOf(live, ops)))
  {
    hide Apply, UpToExpiry, WriteBehind.Replay, LosesOnly;
    LogOfFirst(live, ops, last, now);
    ReopenedUpToExpiry(live, log, ops, now);
    WriteBehind.ReplayIsWellKeyed(APPROVAL_ID_OF, log + LogOf(live, ops));
    LostAppend(After(live, ops), Replay(log + LogOf(live, ops)), last, EndOfAll(ops, now));
  }

  lemma LostAppend(before: Records, reopened: Records, last: ApprovalOp, now: int)
    requires UpToExpiry(before, reopened, now) && Starts(last, now)
    requires WriteBehind.WellKeyed(APPROVAL_ID_OF, reopened)
    ensures LosesOnly(last, Apply(before, last).1, before, Apply(before, last).0, reopened)
  {
    if last.Decide? {
      LostDecision(before, reopened, last, now);
    } else {
      hide DecideOn;
    }
  }

  lemma LostDecision(before: Records, reopened: Records, last: ApprovalOp, now: int)
    requires UpToExpiry(before, reopened, now) && Starts(last, now) && last.Decide?
    requires WriteBehind.WellKeyed(APPROVAL_ID_OF, reopened)
    ensures LosesOnly(last, Apply(before, last).1, before, Apply(before, last).0, reopened)
  {
    hide IsUndecided;
    var id := last.approvalId;
    if id in before {
      assert SameUpToExpiry(before[id], reopened[id], now);
      if reopened[id] == before[id] && before[id].status == Pending {
        PendingIsUndecided(reopened, id);
      }
    }
  }

  lemma PendingIsUndecided(records: Records, id: string)
    requires id in records && records[id].status == Pending
    ensures IsUndecided(records, id, records[id])
  {
  }

  // ---------------------------------------------------------------- the reopened queue in use

  /** Answers that an observer may tell apart only by the reason of a refusal: the live queue
      says "already decided" where the reopened one says "expired". */
  ghost predicate SameAnswer(live: Response, reopened: Response) {
    || live == reopened
    || (live.Refused? && reopened.Refused? && live.error.AlreadyDecided?
       && reopened.error == ApprovalExpired(live.error.approvalId))
  }

  lemma StepKeepsRelation(live: Records, reopened: Records, op: ApprovalOp, now: int)
    requires UpToExpiry(live, reopened, now) && Starts(op, now)
    ensures UpToExpiry(Apply(live, op).0, Apply(reopened, op).0, EndOf(op))
    ensures SameAnswer(Apply(live, op).1, Apply(reopened, op).1)
  {
    match op {
      case Enqueue(_, _) =>
      case ListPending(checks, stamps, _) => PendingAgrees(live, reopened, now, checks, stamps);
      case Decide(_, _, _, _, _) => DecideKeepsRelation(live, reopened, op, now);
    }
  }

  lemma DecideKeepsRelation(live: Records, reopened: Records, op: ApprovalOp, now: int)
    requires UpToExpiry(live, reopened, now) && Starts(op, now) && op.Decide?
    ensures UpToExpiry(Apply(live, op).0, Apply(reopened, op).0, EndOf(op))
    ensures SameAnswer(Apply(live, op).1, Apply(reopened, op).1)
  {
    if op.approvalId in live {
      assert SameUpToExpiry(live[op.approvalId], reopened[op.approvalId], now);
    }
  }

  /** The reopened queue behaves like the live one for ever: for any further operations, every
      answer is the same except that a refusal may say "expired" for "already decided". */
  lemma {:induction false} ReopenedBehavesLikeLive(live: Records, reopened: Records, ops: seq<ApprovalOp>, now: int)
    requires UpToExpiry(live, reopened, now) && Timed(ops, now)
    ensures |Responses(live, ops)| == |Responses(reopened, ops)| == |ops|
    ensures forall k | 0 <= k < |ops| :: SameAnswer(Responses(live, ops)[k], Responses(reopened, ops)[k])
    ensures UpToExpiry(After(live, ops), After(reopened, ops), EndOfAll(ops, now))
    decreases |ops|
  {
    hide UpToExpiry, Apply, SameAnswer;
    if ops != [] {
      StepKeepsRelation(live, reopened, ops[0], now);
      ReopenedBehavesLikeLive(Apply(live, ops[0]).0, Apply(reopened, ops[0]).0, ops[1..], EndOf(ops[0]));
    }
  }

  /** When the answers differ, exactly: a decision on a record that has expired in the live queue and
      is still pending in the reopened one. */
  lemma AnswersDifferExactlyWhen(live: Records, reopened: Records, op: ApprovalOp, now: int)
    requires UpToExpiry(live, reopened, now) && Starts(op, now)
    ensures Apply(live, op).1 != Apply(reopened, op).1 <==>
            && op.Decide? && op.approvalId in live && op.approvalId in reopened
            && live[op.approvalId].status == Expired && reopened[op.approvalId].status == Pending
    ensures Apply(live, op).1 != Apply(reopened, op).1 ==>
      && Apply(live, op).1 == Refused(AlreadyDecided(op.approvalId))
      && Apply(reopened, op).1 == Refused(ApprovalExpired(op.approvalId))
  {
    if op.ListPending? {
      PendingAgrees(live, reopened, now, op.checks, op.stamps);
    } else if op.Decide? && op.approvalId in live {
      assert SameUpToExpiry(live[op.approvalId], reopened[op.approvalId], now);
    }
  }

  lemma {:induction false} ResponseAt(records: Records, ops: seq<ApprovalOp>, k: nat)
    requires k < |ops|
    ensures |Responses(records, ops)| == |ops|
    ensures Responses(records, ops)[k] == Apply(After(records, ops[..k]), ops[k]).1
    decreases |ops|
  {
    hide Apply;
    if k == 0 {
      assert ops[..0] == [];
      if |ops| > 1 {
        ResponseAt(Apply(records, ops[0]).0, ops[1..], 0);
      }
    } else {
      ResponseAt(Apply(records, ops[0]).0, ops[1..], k - 1);
      assert ops[..k][0] == ops[0] && ops[..k][1..] == ops[1..][..k - 1];
    }
  }

  lemma {:induction false} TimedAt(ops: seq<ApprovalOp>, now: int, k: nat)
    requires Timed(ops, now) && k < |ops|
    ensures Timed(ops[..k], now) && Starts(ops[k], EndOfAll(ops[..k], now))
    decreases |ops|
  {
    if k > 0 {
      TimedAt(ops[1..], EndOf(ops[0]), k - 1);
      assert ops[..k][0] == ops[0] && ops[..k][1..] == ops[1..][..k - 1];
    }
  }

  /** So along any further operations the two queues answer differently at exactly those. */
  lemma RunsDifferExactlyWhen(live: Records, reopened: Records, ops: seq<ApprovalOp>, now: int, k: nat)
    requires UpToExpiry(live, reopened, now) && Timed(ops, now) && k < |ops|
    ensures |Responses(live, ops)| == |Responses(reopened, ops)| == |ops|
    ensures
      var a, b := After(live, ops[..k]), After(reopened, ops[..k]);
      Responses(live, ops)[k] != Responses(reopened, ops)[k] <==>
      && ops[k].Decide? && ops[k].approvalId in a && ops[k].approvalId in b
      && a[ops[k].approvalId].status == Expired && b[ops[k].approvalId].status == Pending
  {
    hide Apply, UpToExpiry, Responses, After, Timed;
    ResponseAt(live, ops, k);
    ResponseAt(reopened, ops, k);
    TimedAt(ops, now, k);
    ReopenedBehavesLikeLive(live, reopened, ops[..k], now);
    AnswersDifferExactlyWhen(After(live, ops[..k]), After(reopened, ops[..k]), ops[k], EndOfAll(ops[..k], now));
  }

  /** Such a record comes about from an empty file as soon as an approval is listed past its expiry. */
  lemma ExpiryIsNotLogged(request: ApprovalRequest, stamp: int, checks: string -> int, stamps: string -> int, upto: int)
    requires request.expiresAt.Some? && request.expiresAt.value <= checks(request.approvalId)
    requires Timed([Enqueue(request, stamp), ListPending(checks, stamps, upto)], stamp)
    ensures
      var ops := [Enqueue(request, stamp), ListPending(checks, stamps, upto)];
      var live, logged := After(map[], ops), Replay(LogOf(map[], ops));
      && request.approvalId in live && live[request.approvalId].status == Expired
      && request.approvalId in logged && logged[request.approvalId].status == Pending
  {
    var ops := [Enqueue(request, stamp), ListPending(checks, stamps, upto)];
    var record := PendingRecord(request, stamp);
    var one := map[request.approvalId := record];
    assert ops[1..] == [ListPending(checks, stamps, upto)];
    assert ops[1..][1..] == [];
    assert EnqueueOn(map[], request, stamp).0 == one;
    assert After(map[], ops) == After(one, ops[1..]) == ExpireAll(one, checks, stamps);
    assert LogOf(map[], ops) == [record] + LogOf(one, ops[1..]) == [record];
    assert [record][..0] == [];
    assert Replay([record]) == Replay([])[request.approvalId := record];
  }

  /** No record past its expiry ever becomes Approved -- nor Denied nor Revoked -- in the live
      queue or in one reopened from any log. */
  lemma {:induction false} NothingIsDecidedAfterExpiry(records: Records, ops: seq<ApprovalOp>, now: int, id: string)
    requires Timed(ops, now)
    requires id in records && records[id].status in {Pending, Expired} && IsExpired(records[id], now)
    ensures id in After(records, ops) && After(records, ops)[id].status in {Pending, Expired}
    ensures After(records, ops)[id].request == records[id].request
    decreases |ops|
  {
    if ops != [] {
      NothingIsDecidedAfterExpiry(Apply(records, ops[0]).0, ops[1..], EndOf(ops[0]), id);
    }
  }

  lemma {:induction false} LogHoldsNoExpiry(live: Records, ops: seq<ApprovalOp>, now: int)
    requires Timed(ops, now)
    ensures forall r | r in LogOf(live, ops) :: r.status != Expired
    decreases |ops|
  {
    if ops != [] {
      LogHoldsNoExpiry(Apply(live, ops[0]).0, ops[1..], EndOf(ops[0]));
    }
  }

  lemma {:induction false} ReplayTakesFromLog(log: seq<ApprovalRecord>, id: string)
    requires id in Replay(log)
    ensures Replay(log)[id] in log
  {
    if log[|log| - 1].approvalId != id {
      ReplayTakesFromLog(log[..|log| - 1], id);
    }
  }

  /** A queue used from an empty file: the log says Pending exactly where the live queue says
      Pending or Expired, and agrees with it everywhere else. */
  lemma LogSaysPendingForExpired(ops: seq<ApprovalOp>, now: int)
    requires Timed(ops, now)
    ensures
      var live, logged := After(map[], ops), Replay(LogOf(map[], ops));
      && live.Keys == logged.Keys
      && forall id | id in live ::
        && (logged[id].status == Pending <==> live[id].status in {Pending, Expired})
        && (live[id].status != Expired ==> live[id] == logged[id])
  {
    ReopenedUpToExpiry(map[], [], ops, now);
    assert [] + LogOf(map[], ops) == LogOf(map[], ops);
    var live, logged := After(map[], ops), Replay(LogOf(map[], ops));
    WhatReopeningGives(live, logged, EndOfAll(ops, now));
    forall id | id in live
      ensures logged[id].status != Expired
    {
      LogHoldsNoExpiry(map[], ops, now);
      ReplayTakesFromLog(LogOf(map[], ops), id);
    }
  }
}
