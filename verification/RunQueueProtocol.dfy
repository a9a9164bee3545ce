/** The lease queue under concurrency: any number of workers, each stepping through the
    non-atomic operations on clones of a queue (crates/agent-runtime/src/run_queue.rs).

    `lease` is lock, list, transition, unlock; `recover_expired_leases` is list, then one
    transition per listed record; `enqueue`, `ack` and `nack` are single store calls, because
    the store's own mutex makes each call atomic. Holders of a lease may also move a run that
    is not queued to any status the store accepts (`Report`). */
module RunQueueProtocol {
  import opened Wrappers
  import opened Ordering
  import opened RunStore
  import opened RunQueue

  type Worker = nat
  type LockId = nat

  /** Where a worker stands inside `lease` or `recover_expired_leases`. */
  datatype Pc =
    | Idle
    | LeaseLocked
    | LeaseChosen(runId: string)
    | LeaseDone
    | Recovering(listed: seq<AgentRunRecord>, now: int)

  /** The store transitions and insertions that happened, in order. */
  datatype Event =
    | Inserted(runId: string, status: RunStatus)
    | Moved(runId: string, from: RunStatus, to: RunStatus, cause: Cause)

  datatype Cause = ByLease | ByAck | ByNack | ByRecovery(snapshot: AgentRunRecord) | ByReport

  datatype State = State(
    records: Records,
    held: map<LockId, Worker>,
    pcs: map<Worker, Pc>,
    now: int,
    history: seq<Event>,
    failedLeases: nat)

  datatype Config = Config(lockOf: Worker -> LockId, timeout: nat)

  datatype Action =
    | Enqueue(record: AgentRunRecord)
    | LeaseLock(w: Worker)
    | LeaseList(w: Worker)
    | LeaseMove(w: Worker)
    | LeaseUnlock(w: Worker)
    | Ack(runId: string)
    | Nack(runId: string)
    | RecoverList(w: Worker)
    | RecoverNext(w: Worker)
    | Report(runId: string, to: RunStatus)
    | Tick(elapsed: nat)

  function PcOf(s: State, w: Worker): Pc {
    if w in s.pcs then s.pcs[w] else Idle
  }

  /** One store transition: the map, and the history when it is accepted. */
  function Move(s: State, runId: string, to: RunStatus, cause: Cause): State {
    match TransitionIn(s.records, runId, to, s.now)
    case Err(_) => s
    case Ok(record) =>
      s.(records := s.records[runId := record],
         history := s.history + [Moved(runId, s.records[runId].status, to, cause)])
  }

  /** One step of one worker; a step that is not enabled changes nothing. */
  ghost function Step(c: Config, s: State, a: Action): State {
    match a
    case Enqueue(record) =>
      if record.runId in s.records then s
      else s.(records := s.records[record.runId := record],
              history := s.history + [Inserted(record.runId, record.status)])
    case LeaseLock(w) =>
      if PcOf(s, w) == Idle && c.lockOf(w) !in s.held then
        s.(held := s.held[c.lockOf(w) := w], pcs := s.pcs[w := LeaseLocked])
      else s
    case LeaseList(w) =>
      if PcOf(s, w) != LeaseLocked then s
      else if QueueOrder(s.records) == [] then s.(pcs := s.pcs[w := LeaseDone])
      else s.(pcs := s.pcs[w := LeaseChosen(QueueOrder(s.records)[0])])
    case LeaseMove(w) =>
      if !PcOf(s, w).LeaseChosen? then s
      else
        var id := PcOf(s, w).runId;
        var moved := Move(s, id, Running, ByLease).(pcs := s.pcs[w := LeaseDone]);
        if TransitionIn(s.records, id, Running, s.now).Err? then moved.(failedLeases := s.failedLeases + 1) else moved
    case LeaseUnlock(w) =>
      if PcOf(s, w) != LeaseDone then s
      else s.(held := s.held - {c.lockOf(w)}, pcs := s.pcs[w := Idle])
    case Ack(runId) => Move(s, runId, Completed, ByAck)
    case Nack(runId) => Move(s, runId, Queued, ByNack)
    case RecoverList(w) =>
      if PcOf(s, w) != Idle then s else s.(pcs := s.pcs[w := Recovering(Values(s.records), s.now)])
    case RecoverNext(w) =>
      if !PcOf(s, w).Recovering? then s
      else
        var pc := PcOf(s, w);
        if pc.listed == [] then s.(pcs := s.pcs[w := Idle])
        else
          var r := pc.listed[0];
          if !Expired(r, c.timeout, pc.now) then s.(pcs := s.pcs[w := pc.(listed := pc.listed[1..])])
          else if TransitionIn(s.records, r.runId, Queued, s.now).Err? then s.(pcs := s.pcs[w := Idle])
          else Move(s, r.runId, Queued, ByRecovery(r)).(pcs := s.pcs[w := pc.(listed := pc.listed[1..])])
    case Report(runId, to) =>
      if runId in s.records && s.records[runId].status != Queued then Move(s, runId, to, ByReport) else s
    case Tick(elapsed) => s.(now := s.now + elapsed)
  }

  const INITIAL := State(map[], map[], map[], 0, [], 0)

  ghost function Exec(c: Config, actions: seq<Action>): State {
    if actions == [] then INITIAL else Step(c, Exec(c, actions[..|actions| - 1]), actions[|actions| - 1])
  }

  // ---------------------------------------------------------------- histories

  /** The status of a run after a history. */
  function StatusAfter(h: seq<Event>, id: string): Option<RunStatus> {
    if h == [] then None
    else
      var e := h[|h| - 1];
      if e.runId != id then StatusAfter(h[..|h| - 1], id)
      else Some(if e.Inserted? then e.status else e.to)
  }

  ghost predicate LegalEvent(h: seq<Event>, e: Event) {
    match e
    case Inserted(id, _) => StatusAfter(h, id) == None
    case Moved(id, from, to, cause) =>
      && StatusAfter(h, id) == Some(from) && IsValidTransition(from, to)
      && (from == Queued ==> cause in {ByLease, ByNack} || cause.ByRecovery?)
      && (cause == ByLease ==> to == Running)
      && (cause == ByAck ==> to == Completed)
      && (cause == ByNack || cause.ByRecovery? ==> to == Queued)
  }

  ghost predicate LegalHistory(h: seq<Event>) {
    forall k | 0 <= k < |h| :: LegalEvent(h[..k], h[k])
  }

  predicate IsLease(e: Event) {
    e.Moved? && e.cause == ByLease
  }

  /** Every lease in the history moved a run that was queued. */
  ghost predicate LeasesTakeQueued(h: seq<Event>) {
    forall k | 0 <= k < |h| && IsLease(h[k]) :: h[k].from == Queued
  }

  // ---------------------------------------------------------------- the invariant

  ghost predicate OneLock(c: Config) {
    forall v: Worker, w: Worker :: c.lockOf(v) == c.lockOf(w)
  }

  predicate InLease(pc: Pc) {
    pc.LeaseLocked? || pc.LeaseChosen? || pc.LeaseDone?
  }

  /** Workers inside `lease` hold their lock. */
  ghost predicate LockDiscipline(c: Config, s: State) {
    && (forall w: Worker | w in s.pcs && InLease(s.pcs[w]) :: c.lockOf(w) in s.held && s.held[c.lockOf(w)] == w)
  }

  ghost predicate StoreMatchesHistory(s: State) {
    && WellKeyed(s.records)
    && (forall id :: StatusAfter(s.history, id) == if id in s.records then Some(s.records[id].status) else None)
    && LegalHistory(s.history)
  }

  /** A run chosen by a lease in progress is still queued. */
  ghost predicate ChosenIsQueued(s: State) {
    forall w: Worker | w in s.pcs && s.pcs[w].LeaseChosen? ::
      s.pcs[w].runId in s.records && s.records[s.pcs[w].runId].status == Queued
  }

  lemma HistoryGrows(h: seq<Event>, e: Event)
    requires LegalHistory(h) && LegalEvent(h, e)
    ensures LegalHistory(h + [e])
    ensures forall id ::
      StatusAfter(h + [e], id) ==
        (if e.runId == id then Some(if e.Inserted? then e.status else e.to) else StatusAfter(h, id))
  {
    assert (h + [e])[..|h|] == h;
    forall k | 0 <= k < |h + [e]|
      ensures LegalEvent((h + [e])[..k], (h + [e])[k])
    {
      assert (h + [e])[..k] == h[..k];
      assert k == |h| ==> h[..k] == h;
    }
  }

  lemma MoveKeeps(s: State, id: string, to: RunStatus, cause: Cause)
    requires StoreMatchesHistory(s)
    requires id in s.records && s.records[id].status == Queued ==>
               cause in {ByLease, ByNack, ByAck} || cause.ByRecovery?
    requires cause == ByLease ==> to == Running
    requires cause == ByAck ==> to == Completed
    requires cause == ByNack || cause.ByRecovery? ==> to == Queued
    ensures StoreMatchesHistory(Move(s, id, to, cause))
  {
    if TransitionIn(s.records, id, to, s.now).Ok? {
      HistoryGrows(s.history, Moved(id, s.records[id].status, to, cause));
    }
  }

  lemma EnqueueKeeps(c: Config, s: State, record: AgentRunRecord)
    requires StoreMatchesHistory(s)
    ensures StoreMatchesHistory(Step(c, s, Enqueue(record)))
  {
    hide StatusAfter, LegalHistory;
    if record.runId !in s.records {
      HistoryGrows(s.history, Inserted(record.runId, record.status));
    }
  }

  lemma RecoverNextKeeps(c: Config, s: State, w: Worker)
    requires StoreMatchesHistory(s)
    ensures StoreMatchesHistory(Step(c, s, RecoverNext(w)))
  {
    hide StatusAfter, LegalHistory, WellKeyed, QueueOrder, Values, Move, TransitionIn, Expired;
    if PcOf(s, w).Recovering? && PcOf(s, w).listed != [] {
      MoveKeeps(s, PcOf(s, w).listed[0].runId, Queued, ByRecovery(PcOf(s, w).listed[0]));
    }
  }

  lemma StepKeepsStore(c: Config, s: State, a: Action)
    requires StoreMatchesHistory(s)
    ensures StoreMatchesHistory(Step(c, s, a))
  {
    hide StatusAfter, LegalHistory, WellKeyed, QueueOrder, Values, Move, TransitionIn, Expired;
    match a {
      case Enqueue(record) => EnqueueKeeps(c, s, record);
      case LeaseMove(w) =>
        if PcOf(s, w).LeaseChosen? {
          MoveKeeps(s, PcOf(s, w).runId, Running, ByLease);
        }
      case Ack(runId) => MoveKeeps(s, runId, Completed, ByAck);
      case Nack(runId) => MoveKeeps(s, runId, Queued, ByNack);
      case RecoverNext(w) => RecoverNextKeeps(c, s, w);
      case Report(runId, to) =>
        if runId in s.records && s.records[runId].status != Queued {
          MoveKeeps(s, runId, to, ByReport);
        }
      case _ =>
    }
  }

  lemma {:induction false} StoreAlwaysMatches(c: Config, actions: seq<Action>)
    ensures StoreMatchesHistory(Exec(c, actions))
  {
    if actions != [] {
      hide Step;
      StoreAlwaysMatches(c, actions[..|actions| - 1]);
      StepKeepsStore(c, Exec(c, actions[..|actions| - 1]), actions[|actions| - 1]);
    }
  }

  lemma StepKeepsLocks(c: Config, s: State, a: Action)
    requires LockDiscipline(c, s)
    ensures LockDiscipline(c, Step(c, s, a))
  {
    hide QueueOrder, Values, IsValidTransition;
  }

  /** A queued run stays queued through every step but the lease step that moves it. */
  lemma OnlyLeaseLeavesQueued(c: Config, s: State, a: Action, id: string)
    requires id in s.records && s.records[id].status == Queued
    requires !(a.LeaseMove? && PcOf(s, a.w) == LeaseChosen(id))
    ensures id in Step(c, s, a).records && Step(c, s, a).records[id].status == Queued
  {
    hide QueueOrder, Values;
  }

  /** Under one lock, two workers are never both inside `lease`. */
  lemma SoleLessee(c: Config, s: State)
    requires OneLock(c) && LockDiscipline(c, s)
    ensures forall v: Worker, w: Worker | v in s.pcs && w in s.pcs && InLease(s.pcs[v]) && InLease(s.pcs[w]) :: v == w
  {
    forall v: Worker, w: Worker | v in s.pcs && w in s.pcs && InLease(s.pcs[v]) && InLease(s.pcs[w])
      ensures v == w
    {
      assert c.lockOf(v) == c.lockOf(w);
    }
  }

  /** What a worker has just chosen is the head of the queue, and so queued. */
  lemma ChoosesQueued(c: Config, s: State, a: Action, w: Worker)
    requires WellKeyed(s.records)
    requires PcOf(Step(c, s, a), w).LeaseChosen? && PcOf(Step(c, s, a), w) != PcOf(s, w)
    ensures
      var t := Step(c, s, a);
      t.pcs[w].runId in t.records && t.records[t.pcs[w].runId].status == Queued
  {
    hide QueueOrder, Values, IsValidTransition, WellKeyed;
    if QueueOrder(s.records) != [] {
      LeaseTakesTheHead(s.records, s.now);
    }
  }

  lemma LeaseMovesTheChosen(c: Config, s: State, a: Action)
    requires ChosenIsQueued(s) && LeasesTakeQueued(s.history)
    ensures LeasesTakeQueued(Step(c, s, a).history) && Step(c, s, a).failedLeases == s.failedLeases
  {
    hide QueueOrder, Values;
  }

  lemma StepKeepsChosen(c: Config, s: State, a: Action)
    requires OneLock(c) && LockDiscipline(c, s) && ChosenIsQueued(s) && WellKeyed(s.records)
      && LeasesTakeQueued(s.history)
    ensures ChosenIsQueued(Step(c, s, a)) && LeasesTakeQueued(Step(c, s, a).history)
    ensures Step(c, s, a).failedLeases == s.failedLeases
  {
    hide Step, WellKeyed;
    var t := Step(c, s, a);
    SoleLessee(c, s);
    LeaseMovesTheChosen(c, s, a);
    forall w: Worker | w in t.pcs && t.pcs[w].LeaseChosen?
      ensures t.pcs[w].runId in t.records && t.records[t.pcs[w].runId].status == Queued
    {
      if PcOf(s, w) == t.pcs[w] {
        ChosenStaysQueued(c, s, a, w);
      } else {
        ChoosesQueued(c, s, a, w);
      }
    }
  }

  lemma ChosenStaysQueued(c: Config, s: State, a: Action, w: Worker)
    requires OneLock(c) && LockDiscipline(c, s) && ChosenIsQueued(s)
    requires PcOf(s, w).LeaseChosen? && PcOf(Step(c, s, a), w) == PcOf(s, w)
    ensures
      var t := Step(c, s, a);
      PcOf(s, w).runId in t.records && t.records[PcOf(s, w).runId].status == Queued
  {
    hide QueueOrder, Values, IsValidTransition;
    SoleLessee(c, s);
    OnlyLeaseLeavesQueued(c, s, a, PcOf(s, w).runId);
  }

  lemma {:induction false} InvariantHolds(c: Config, actions: seq<Action>)
    requires OneLock(c)
    ensures LockDiscipline(c, Exec(c, actions)) && ChosenIsQueued(Exec(c, actions))
      && Exec(c, actions).failedLeases == 0
    ensures LeasesTakeQueued(Exec(c, actions).history)
  {
    if actions != [] {
      hide Step;
      var s := Exec(c, actions[..|actions| - 1]);
      InvariantHolds(c, actions[..|actions| - 1]);
      StoreAlwaysMatches(c, actions[..|actions| - 1]);
      StepKeepsLocks(c, s, actions[|actions| - 1]);
      StepKeepsChosen(c, s, actions[|actions| - 1]);
    }
  }

  // ---------------------------------------------------------------- main results

  /** A lease in progress always finds its run still queued, so its transition succeeds, in
      every interleaving of any number of workers on clones that share the lock. */
  lemma LeaseFindsItsRunQueued(c: Config, actions: seq<Action>, w: Worker)
    requires OneLock(c)
    requires PcOf(Exec(c, actions), w).LeaseChosen?
    ensures
      var s := Exec(c, actions);
      var id := PcOf(s, w).runId;
      && id in s.records && s.records[id].status == Queued
      && TransitionIn(s.records, id, Running, s.now).Ok?
      && Step(c, s, LeaseMove(w)).history == s.history + [Moved(id, Queued, Running, ByLease)]
  {
    hide Exec, QueueOrder, Values, StatusAfter, LegalHistory, LockDiscipline, WellKeyed;
    InvariantHolds(c, actions);
    StoreAlwaysMatches(c, actions);
    MoveOfQueued(c, Exec(c, actions), w);
  }

  lemma MoveOfQueued(c: Config, s: State, w: Worker)
    requires PcOf(s, w).LeaseChosen? && PcOf(s, w).runId in s.records
    requires WellKeyed(s.records) && s.records[PcOf(s, w).runId].status == Queued
    ensures
      var id := PcOf(s, w).runId;
      && TransitionIn(s.records, id, Running, s.now).Ok?
      && Step(c, s, LeaseMove(w)).history == s.history + [Moved(id, Queued, Running, ByLease)]
  {
  }

  /** The last event of a legal history, by the status it left and the status before. */
  lemma LastEvent(h: seq<Event>, id: string, b: nat)
    requires LegalHistory(h) && 0 < b <= |h|
    ensures h[b - 1].runId != id ==> StatusAfter(h[..b], id) == StatusAfter(h[..b - 1], id)
    ensures h[b - 1].runId == id && StatusAfter(h[..b - 1], id).Some? ==>
        && h[b - 1].Moved? && StatusAfter(h[..b - 1], id) == Some(h[b - 1].from)
        && StatusAfter(h[..b], id) == Some(h[b - 1].to)
        && IsValidTransition(h[b - 1].from, h[b - 1].to)
  {
    assert h[..b][..b - 1] == h[..b - 1];
    assert LegalEvent(h[..b - 1], h[b - 1]);
  }

  lemma {:induction false} ReturnsToQueued(h: seq<Event>, id: string, a: nat, b: nat)
    requires LegalHistory(h) && a <= b <= |h|
    requires StatusAfter(h[..a], id).Some? && StatusAfter(h[..a], id) != Some(Queued)
    requires StatusAfter(h[..b], id) == Some(Queued)
    ensures exists k :: a <= k < b && h[k].Moved? && h[k].runId == id && h[k].from == Running && h[k].to == Queued
    decreases b
  {
    hide StatusAfter, LegalHistory;
    assert a < b;
    LastEvent(h, id, b);
    StatusStays(h, id, a, b - 1);
    if h[b - 1].runId != id || h[b - 1].from == Queued {
      ReturnsToQueued(h, id, a, b - 1);
    }
  }

  /** Runs are never removed. */
  lemma {:induction false} StatusStays(h: seq<Event>, id: string, a: nat, b: nat)
    requires a <= b <= |h| && StatusAfter(h[..a], id).Some?
    ensures StatusAfter(h[..b], id).Some?
    decreases b
  {
    if a < b {
      assert h[..b][..b - 1] == h[..b - 1];
      StatusStays(h, id, a, b - 1);
    }
  }

  /** Between two events of one run it moved from Running back to Queued. */
  ghost predicate ReturnsBetween(h: seq<Event>, i: nat, j: nat)
    requires i < j < |h|
  {
    exists k | i < k < j :: h[k].Moved? && h[k].runId == h[i].runId && h[k].from == Running && h[k].to == Queued
  }

  /** No run is leased again before it returned to the queue. */
  ghost predicate LeasesAreSeparated(h: seq<Event>) {
    forall i, j | 0 <= i < j < |h| && IsLease(h[i]) && IsLease(h[j]) && h[i].runId == h[j].runId ::
      ReturnsBetween(h, i, j)
  }

  /** Between two leases of the same run there is a move of that run from Running to Queued. */
  lemma SuccessiveLeasesAreSeparated(c: Config, actions: seq<Action>)
    requires OneLock(c)
    ensures LeasesAreSeparated(Exec(c, actions).history)
  {
    hide Exec, LegalHistory, StatusAfter;
    InvariantHolds(c, actions);
    StoreAlwaysMatches(c, actions);
    var h := Exec(c, actions).history;
    forall i, j | 0 <= i < j < |h| && IsLease(h[i]) && IsLease(h[j]) && h[i].runId == h[j].runId
      ensures ReturnsBetween(h, i, j)
    {
      LastEventAt(h, i);
      LastEventAt(h, j);
      ReturnsToQueued(h, h[i].runId, i + 1, j);
    }
  }

  /** A move in a legal history, by the statuses before and after it. */
  lemma LastEventAt(h: seq<Event>, i: nat)
    requires LegalHistory(h) && i < |h| && h[i].Moved?
    ensures StatusAfter(h[..i], h[i].runId) == Some(h[i].from) && StatusAfter(h[..i + 1], h[i].runId) == Some(h[i].to)
    ensures IsLease(h[i]) ==> h[i].to == Running
  {
    assert h[..i + 1][..i] == h[..i];
    assert LegalEvent(h[..i], h[i]);
  }

  lemma {:induction false} TerminalStays(h: seq<Event>, id: string, a: nat, b: nat)
    requires LegalHistory(h) && a <= b <= |h|
    requires StatusAfter(h[..a], id).Some? && IsTerminal(StatusAfter(h[..a], id).value)
    ensures StatusAfter(h[..b], id) == StatusAfter(h[..a], id)
    decreases b
  {
    hide StatusAfter, LegalHistory;
    if a < b {
      TerminalStays(h, id, a, b - 1);
      LastEvent(h, id, b);
    }
  }

  /** A completed run is never leased again -- whatever locks the workers use. */
  lemma CompletedIsNeverLeased(c: Config, actions: seq<Action>, i: nat, j: nat)
    requires i < j < |Exec(c, actions).history|
    requires Exec(c, actions).history[i].Moved? && IsTerminal(Exec(c, actions).history[i].to)
    requires IsLease(Exec(c, actions).history[j])
    ensures Exec(c, actions).history[j].runId != Exec(c, actions).history[i].runId
  {
    hide Exec;
    StoreAlwaysMatches(c, actions);
    var h := Exec(c, actions).history;
    assert h[..i + 1][..i] == h[..i];
    assert LegalEvent(h[..j], h[j]);
    if h[j].runId == h[i].runId {
      TerminalStays(h, h[i].runId, i + 1, j);
    }
  }

  // ---------------------------------------------------------------- what the lock is for

  lemma OneQueuedRun(records: Records, id: string)
    requires id in records && records[id].status == Queued
    requires forall other | other in records && other != id :: records[other].status != Queued
    ensures QueueOrder(records) == [id]
  {
    var k := Key(records[id].createdAt, id);
    assert QueueKeys(records) == {k};
    assert Least({k}) == k;
    assert {k} - {k} == {};
    assert InOrder({k}) == [k] + InOrder({});
  }

  const FRESH_RUN := AgentRunRecord("r", RunRequest("", "", ""), Queued, 0, 0, None)

  lemma Unroll(c: Config, actions: seq<Action>, a: Action)
    ensures Exec(c, actions + [a]) == Step(c, Exec(c, actions), a)
  {
    assert (actions + [a])[..|actions|] == actions;
  }

  lemma Start(c: Config)
    ensures Exec(c, []) == INITIAL
  {
  }

  /** The actions by which two workers with different locks choose the same run. */
  function BothChoose(v: Worker, w: Worker): seq<Action> {
    [Enqueue(FRESH_RUN)] + [LeaseLock(v)] + [LeaseLock(w)] + [LeaseList(v)] + [LeaseList(w)]
  }

  lemma TwoLocksBothChoose(c: Config, v: Worker, w: Worker)
    requires c.lockOf(v) != c.lockOf(w)
    ensures Exec(c, BothChoose(v, w)) ==
      State(map["r" := FRESH_RUN], map[c.lockOf(v) := v, c.lockOf(w) := w],
            map[v := LeaseChosen("r"), w := LeaseChosen("r")], 0, [Inserted("r", Queued)], 0)
  {
    hide QueueOrder, Exec;
    Start(c);
    assert [] + [Enqueue(FRESH_RUN)] == [Enqueue(FRESH_RUN)];
    Unroll(c, [], Enqueue(FRESH_RUN));
    OneQueuedRun(map["r" := FRESH_RUN], "r");
    Unroll(c, [Enqueue(FRESH_RUN)], LeaseLock(v));
    Unroll(c, [Enqueue(FRESH_RUN)] + [LeaseLock(v)], LeaseLock(w));
    Unroll(c, [Enqueue(FRESH_RUN)] + [LeaseLock(v)] + [LeaseLock(w)], LeaseList(v));
    Unroll(c, [Enqueue(FRESH_RUN)] + [LeaseLock(v)] + [LeaseLock(w)] + [LeaseList(v)], LeaseList(w));
  }

  /** Any two workers with different locks can lease one run twice in a row: the second transition
      is the accepted Running-to-Running move. */
  lemma TwoLocksLeaseTwice(c: Config, v: Worker, w: Worker)
    requires c.lockOf(v) != c.lockOf(w)
    ensures Exec(c, BothChoose(v, w) + [LeaseMove(v)] + [LeaseMove(w)]).history ==
            [Inserted("r", Queued), Moved("r", Queued, Running, ByLease), Moved("r", Running, Running, ByLease)]
  {
    hide QueueOrder, Exec, BothChoose;
    TwoLocksBothChoose(c, v, w);
    Unroll(c, BothChoose(v, w), LeaseMove(v));
    Unroll(c, BothChoose(v, w) + [LeaseMove(v)], LeaseMove(w));
  }

  /** Lease exclusivity, exactly: every lease of every run of the protocol takes a queued run, and
      no run is leased again before it returned to the queue, if and only if all workers share one
      lock. */
  lemma LeasesAreExclusiveExactlyUnderOneLock(c: Config)
    ensures (forall actions :: LeasesTakeQueued(Exec(c, actions).history)) <==> OneLock(c)
    ensures (forall actions :: LeasesAreSeparated(Exec(c, actions).history)) <==> OneLock(c)
  {
    hide Exec;
    if OneLock(c) {
      forall actions
        ensures LeasesTakeQueued(Exec(c, actions).history) && LeasesAreSeparated(Exec(c, actions).history)
      {
        InvariantHolds(c, actions);
        SuccessiveLeasesAreSeparated(c, actions);
      }
    } else {
      var v: Worker, w: Worker :| c.lockOf(v) != c.lockOf(w);
      TwoLocksLeaseTwice(c, v, w);
      TwoLeasesInARow(Exec(c, BothChoose(v, w) + [LeaseMove(v)] + [LeaseMove(w)]).history);
    }
  }

  lemma TwoLeasesInARow(h: seq<Event>)
    requires h == [Inserted("r", Queued), Moved("r", Queued, Running, ByLease), Moved("r", Running, Running, ByLease)]
    ensures !LeasesTakeQueued(h) && !LeasesAreSeparated(h)
  {
    assert IsLease(h[1]) && IsLease(h[2]) && h[2].from != Queued;
    assert !ReturnsBetween(h, 1, 2);
  }

  const HELD_RUN := FRESH_RUN.(status := Running)

  // ---------------------------------------------------------------- recovery under concurrency

  /** A requeueing step of `recover_expired_leases`: when the stored record is still the one it
      listed, the lease it takes away has expired; when the record changed in between, it takes
      the lease away exactly by its old reading, expired or not. */
  lemma RecoveryRequeues(c: Config, actions: seq<Action>, w: Worker)
    requires PcOf(Exec(c, actions), w).Recovering? && PcOf(Exec(c, actions), w).listed != []
    ensures
      var s := Exec(c, actions);
      var pc := PcOf(s, w);
      var r := pc.listed[0];
      var s' := Step(c, s, RecoverNext(w));
      && (s'.history != s.history <==>
            Expired(r, c.timeout, pc.now) && TransitionIn(s.records, r.runId, Queued, s.now).Ok?)
      && (s'.history != s.history ==>
            && s'.records[r.runId].status == Queued
            && pc.now <= s.now
            && (s.records[r.runId] == r ==> Expired(s.records[r.runId], c.timeout, s.now)))
  {
    ClockRunsForward(c, actions);
  }

  ghost predicate ReadingsArePast(s: State) {
    forall w: Worker | w in s.pcs && s.pcs[w].Recovering? :: s.pcs[w].now <= s.now
  }

  lemma StepKeepsReadings(c: Config, s: State, a: Action)
    requires ReadingsArePast(s)
    ensures ReadingsArePast(Step(c, s, a))
  {
    hide QueueOrder, Values, IsValidTransition;
  }

  lemma {:induction false} ClockRunsForward(c: Config, actions: seq<Action>)
    ensures ReadingsArePast(Exec(c, actions))
  {
    if actions != [] {
      hide Step;
      ClockRunsForward(c, actions[..|actions| - 1]);
      StepKeepsReadings(c, Exec(c, actions[..|actions| - 1]), actions[|actions| - 1]);
    }
  }

  lemma OneValue(records: Records, id: string)
    requires records.Keys == {id} && records[id].runId == id
    ensures Values(records) == [records[id]]
  {
    var ids := IdsInOrder(records.Keys);
    assert IdKeys({id}) == {Key(0, id)};
    assert Least({Key(0, id)}) == Key(0, id);
    assert {Key(0, id)} - {Key(0, id)} == {};
    assert InOrder({Key(0, id)}) == [Key(0, id)] + InOrder({});
    assert ids == [id];
  }

  // ---------------------------------------------------------------- run alone

  lemma RecordsAreWellKeyed(c: Config, actions: seq<Action>)
    ensures WellKeyed(Exec(c, actions).records)
  {
    StoreAlwaysMatches(c, actions);
  }

  /** The operations of one step are the store's own: an ack moves the run to Completed and a nack to
      Queued if the store allows it, a worker reports any other move of a run that is not queued. */
  lemma StepsAreTheCalls(c: Config, s: State, record: AgentRunRecord, id: string, to: RunStatus)
    ensures exists r :: Inserts(s.records, Step(c, s, Enqueue(record)).records, record, r)
    ensures exists r :: Moves(s.records, Step(c, s, Ack(id)).records, id, Completed, s.now, r)
    ensures exists r :: Moves(s.records, Step(c, s, Nack(id)).records, id, Queued, s.now, r)
    ensures id in s.records && s.records[id].status != Queued ==>
              exists r :: Moves(s.records, Step(c, s, Report(id, to)).records, id, to, s.now, r)
  {
    hide Step, Move, Moves, Inserts, TransitionIn, InsertIn;
    StepsAreMoves(c, s, record, id, to);
    MoveIsTheCall(s, id, Completed, ByAck);
    MoveIsTheCall(s, id, Queued, ByNack);
    MoveIsTheCall(s, id, to, ByReport);
  }

  lemma StepsAreMoves(c: Config, s: State, record: AgentRunRecord, id: string, to: RunStatus)
    ensures Inserts(s.records, Step(c, s, Enqueue(record)).records, record, InsertIn(s.records, record))
    ensures Step(c, s, Ack(id)) == Move(s, id, Completed, ByAck) && Step(c, s, Nack(id)) == Move(s, id, Queued, ByNack)
    ensures id in s.records && s.records[id].status != Queued ==>
              Step(c, s, Report(id, to)) == Move(s, id, to, ByReport)
  {
    hide Move;
  }

  lemma MoveIsTheCall(s: State, id: string, to: RunStatus, cause: Cause)
    ensures Moves(s.records, Move(s, id, to, cause).records, id, to, s.now, TransitionIn(s.records, id, to, s.now))
  {
    hide IsValidTransition;
    if id in s.records {
      TransitionsExactly(s.records[id].status, to);
    }
  }

  lemma LeaseStepsAlone(c: Config, s: State, w: Worker)
    requires PcOf(s, w) == Idle && c.lockOf(w) !in s.held && WellKeyed(s.records)
    ensures
      var t := Step(c, Step(c, Step(c, Step(c, s, LeaseLock(w)), LeaseList(w)), LeaseMove(w)), LeaseUnlock(w));
      && PcOf(t, w) == Idle && t.held == s.held && t.now == s.now
      && (forall v: Worker | v != w :: PcOf(t, v) == PcOf(s, v))
      && (if QueueOrder(s.records) == [] then t.records == s.records
          else
            && QueueOrder(s.records)[0] in s.records
            && t.records == LeasedIn(s.records, QueueOrder(s.records)[0], s.now))
  {
    hide QueueOrder, Values, WellKeyed, Move, TransitionIn, LeasedIn;
    var s1 := Step(c, s, LeaseLock(w));
    var s2 := Step(c, s1, LeaseList(w));
    var s3 := Step(c, s2, LeaseMove(w));
    if QueueOrder(s.records) != [] {
      MoveOfTheHead(c, s2, w);
    }
    assert s3.held == s.held[c.lockOf(w) := w];
    assert s3.held - {c.lockOf(w)} == s.held;
  }

  /** The head of the queue can be leased. */
  lemma MoveOfTheHead(c: Config, s: State, w: Worker)
    requires WellKeyed(s.records) && QueueOrder(s.records) != []
    requires PcOf(s, w) == LeaseChosen(QueueOrder(s.records)[0])
    ensures
      var id := QueueOrder(s.records)[0];
      var t := Step(c, s, LeaseMove(w));
      && id in s.records && t.records == LeasedIn(s.records, id, s.now)
      && t.held == s.held && t.now == s.now && t.pcs == s.pcs[w := LeaseDone]
  {
    hide QueueOrder, Values, WellKeyed;
    LeaseTakesTheHead(s.records, s.now);
  }

  /** Stepped without interference, `lease` does what the sequential method does. */
  lemma LeaseAlone(c: Config, actions: seq<Action>, w: Worker)
    requires PcOf(Exec(c, actions), w) == Idle && c.lockOf(w) !in Exec(c, actions).held
    ensures
      var s := Exec(c, actions);
      var s' := Exec(c, actions + [LeaseLock(w)] + [LeaseList(w)] + [LeaseMove(w)] + [LeaseUnlock(w)]);
      && PcOf(s', w) == Idle && s'.held == s.held && s'.now == s.now
      && (forall v: Worker | v != w :: PcOf(s', v) == PcOf(s, v))
      && (if QueueOrder(s.records) == [] then s'.records == s.records
          else
            && QueueOrder(s.records)[0] in s.records
            && s'.records == LeasedIn(s.records, QueueOrder(s.records)[0], s.now))
  {
    hide QueueOrder, Exec, Step, LeasedIn;
    var s := Exec(c, actions);
    Unroll(c, actions, LeaseLock(w));
    Unroll(c, actions + [LeaseLock(w)], LeaseList(w));
    Unroll(c, actions + [LeaseLock(w)] + [LeaseList(w)], LeaseMove(w));
    Unroll(c, actions + [LeaseLock(w)] + [LeaseList(w)] + [LeaseMove(w)], LeaseUnlock(w));
    RecordsAreWellKeyed(c, actions);
    LeaseStepsAlone(c, s, w);
  }

  /** The worker's next `n` recovery steps. */
  ghost function RecoverSteps(c: Config, s: State, w: Worker, n: nat): State {
    if n == 0 then s else Step(c, RecoverSteps(c, s, w, n - 1), RecoverNext(w))
  }

  /** One recovery step on a record that is still the listed one. */
  lemma RecoverStep(c: Config, s: State, w: Worker, before: Records, done: set<string>, stamps: string -> int)
    requires PcOf(s, w).Recovering? && PcOf(s, w).listed != [] && PcOf(s, w).now == s.now
    requires s.records == RecoveredIn(before, done, stamps) && forall id :: stamps(id) == s.now
    requires
      var r := PcOf(s, w).listed[0];
      r.runId in before && before[r.runId] == r && r.runId !in done
    ensures
      var pc := PcOf(s, w);
      var t := Step(c, s, RecoverNext(w));
      && PcOf(t, w) == Recovering(pc.listed[1..], pc.now) && t.now == s.now
      && t.records ==
         RecoveredIn(before, done + if Expired(pc.listed[0], c.timeout, s.now) then {pc.listed[0].runId} else {},
                     stamps)
  {
    hide QueueOrder, Values;
  }

  lemma {:induction false} RecoverFirst(c: Config, s: State, w: Worker, n: nat, stamps: string -> int)
    requires WellKeyed(s.records) && PcOf(s, w) == Idle && forall id :: stamps(id) == s.now
    requires n <= |Values(s.records)|
    ensures
      var listed := Values(s.records);
      var t := RecoverSteps(c, Step(c, s, RecoverList(w)), w, n);
      && PcOf(t, w) == Recovering(listed[n..], s.now) && t.now == s.now
      && t.records == RecoveredIn(s.records, ExpiredAmong(listed[..n], c.timeout, s.now), stamps)
  {
    hide Step, Values, ExpiredAmong, WellKeyed, RecoveredIn, Expired;
    var listed := Values(s.records);
    if n == 0 {
      RecoverStarts(c, s, w, stamps);
    } else {
      RecoverFirst(c, s, w, n - 1, stamps);
      NextExpired(s.records, listed, n - 1, c.timeout, s.now);
      var t := RecoverSteps(c, Step(c, s, RecoverList(w)), w, n - 1);
      assert listed[n - 1..][0] == listed[n - 1] && listed[n - 1..][1..] == listed[n..];
      RecoverStep(c, t, w, s.records, ExpiredAmong(listed[..n - 1], c.timeout, s.now), stamps);
    }
  }

  lemma RecoverStarts(c: Config, s: State, w: Worker, stamps: string -> int)
    requires PcOf(s, w) == Idle
    ensures
      var listed := Values(s.records);
      var t := Step(c, s, RecoverList(w));
      && PcOf(t, w) == Recovering(listed[0..], s.now) && t.now == s.now
      && t.records == RecoveredIn(s.records, ExpiredAmong(listed[..0], c.timeout, s.now), stamps)
  {
    assert Values(s.records)[0..] == Values(s.records);
    assert Values(s.records)[..0] == [];
    assert ExpiredAmong([], c.timeout, s.now) == {};
  }

  /** Stepped without interference, a recovery requeues exactly the expired runs, like the
      sequential method. */
  lemma RecoverAlone(c: Config, s: State, w: Worker, stamps: string -> int)
    requires WellKeyed(s.records) && PcOf(s, w) == Idle && forall id :: stamps(id) == s.now
    ensures
      var t := RecoverSteps(c, Step(c, s, RecoverList(w)), w, |Values(s.records)| + 1);
      PcOf(t, w) == Idle && t.records == RecoveredIn(s.records, ExpiredIds(s.records, c.timeout, s.now), stamps)
  {
    hide Values, ExpiredAmong, ExpiredIds, WellKeyed, RecoveredIn;
    var n := |Values(s.records)|;
    RecoverFirst(c, s, w, n, stamps);
    AllExpired(s.records, c.timeout, s.now);
    assert Values(s.records)[n..] == [];
  }

  /** The first worker leases, and the clock passes the timeout of its lease. */
  lemma LeaseExpires(c: Config) returns (actions: seq<Action>)
    ensures
      var s := Exec(c, actions);
      s.records == map["r" := HELD_RUN] && s.held == map[] && s.now == c.timeout
        && forall w: Worker :: PcOf(s, w) == Idle
  {
    hide QueueOrder, Exec;
    Start(c);
    Unroll(c, [], Enqueue(FRESH_RUN));
    OneQueuedRun(map["r" := FRESH_RUN], "r");
    LeaseAlone(c, [] + [Enqueue(FRESH_RUN)], 0);
    var leased := [] + [Enqueue(FRESH_RUN)] + [LeaseLock(0)] + [LeaseList(0)] + [LeaseMove(0)] + [LeaseUnlock(0)];
    Unroll(c, leased, Tick(c.timeout));
    actions := leased + [Tick(c.timeout)];
    forall w: Worker
      ensures PcOf(Exec(c, actions), w) == Idle
    {
      assert PcOf(Exec(c, leased), w) == Idle;
    }
  }

  /** A recovery lists the expired lease, and then its holder gives it back. */
  lemma ListedThenNacked(c: Config, before: seq<Action>) returns (actions: seq<Action>)
    requires
      var s := Exec(c, before);
      s.records == map["r" := HELD_RUN] && s.held == map[] && s.now == c.timeout
        && forall w: Worker :: PcOf(s, w) == Idle
    ensures
      var s := Exec(c, actions);
      && s.records == map["r" := FRESH_RUN.(updatedAt := c.timeout)] && s.held == map[] && s.now == c.timeout
      && PcOf(s, 1) == Idle && PcOf(s, 2) == Recovering([HELD_RUN], c.timeout)
  {
    hide QueueOrder, Exec, Values;
    OneValue(map["r" := HELD_RUN], "r");
    Unroll(c, before, RecoverList(2));
    Unroll(c, before + [RecoverList(2)], Nack("r"));
    actions := before + [RecoverList(2)] + [Nack("r")];
    assert PcOf(Exec(c, before), 1) == Idle && PcOf(Exec(c, before), 2) == Idle;
  }

  /** The worker's next recovery step requeues a running run whose lease has not expired. */
  predicate TakesFreshLease(c: Config, s: State, w: Worker) {
    && PcOf(s, w).Recovering? && PcOf(s, w).listed != []
    && Expired(PcOf(s, w).listed[0], c.timeout, PcOf(s, w).now)
    && PcOf(s, w).listed[0].runId in s.records
    && s.records[PcOf(s, w).listed[0].runId].status == Running
    && !Expired(s.records[PcOf(s, w).listed[0].runId], c.timeout, s.now)
  }

  /** That is what the predicate says of the step. */
  lemma FreshLeaseIsTaken(c: Config, s: State, w: Worker)
    requires WellKeyed(s.records) && TakesFreshLease(c, s, w)
    ensures
      var id := PcOf(s, w).listed[0].runId;
      var t := Step(c, s, RecoverNext(w));
      id in t.records && t.records[id].status == Queued && t.history != s.history
  {
    hide QueueOrder, Values;
  }

  /** The race, for any positive timeout and any locks: a recovery that listed an expired lease
      requeues the fresh lease another worker obtained in the meantime. */
  lemma RecoveryCanTakeAFreshLease(c: Config) returns (actions: seq<Action>)
    requires c.timeout >= 1
    ensures TakesFreshLease(c, Exec(c, actions), 2)
  {
    hide QueueOrder, Exec, Values;
    var before := LeaseExpires(c);
    var nacked := ListedThenNacked(c, before);
    OneQueuedRun(Exec(c, nacked).records, "r");
    LeaseAlone(c, nacked, 1);
    actions := nacked + [LeaseLock(1)] + [LeaseList(1)] + [LeaseMove(1)] + [LeaseUnlock(1)];
  }

  /** A listed record is still the stored one, or the stored one has been changed since, in the
      past. */
  ghost predicate ListedOrChanged(s: State) {
    forall w: Worker, i | w in s.pcs && s.pcs[w].Recovering? && 0 <= i < |s.pcs[w].listed| ::
      var r := s.pcs[w].listed[i];
      r.runId in s.records && (s.records[r.runId] == r || s.records[r.runId].updatedAt <= s.now)
  }

  lemma StepKeepsRecord(c: Config, s: State, a: Action, r: AgentRunRecord)
    requires WellKeyed(s.records)
    requires r.runId in s.records && (s.records[r.runId] == r || s.records[r.runId].updatedAt <= s.now)
    ensures
      var t := Step(c, s, a);
      r.runId in t.records && (t.records[r.runId] == r || t.records[r.runId].updatedAt <= t.now)
  {
    hide QueueOrder, Values, Move, TransitionIn, Expired, WellKeyed;
    match a {
      case LeaseMove(w) =>
        if PcOf(s, w).LeaseChosen? {
          MoveStamps(s, PcOf(s, w).runId, Running, ByLease, r);
        }
      case Ack(runId) => MoveStamps(s, runId, Completed, ByAck, r);
      case Nack(runId) => MoveStamps(s, runId, Queued, ByNack, r);
      case RecoverNext(w) => RecoverNextKeepsRecord(c, s, w, r);
      case Report(runId, to) => MoveStamps(s, runId, to, ByReport, r);
      case _ =>
    }
  }

  lemma RecoverNextKeepsRecord(c: Config, s: State, w: Worker, r: AgentRunRecord)
    requires WellKeyed(s.records)
    requires r.runId in s.records && (s.records[r.runId] == r || s.records[r.runId].updatedAt <= s.now)
    ensures
      var t := Step(c, s, RecoverNext(w));
      r.runId in t.records && (t.records[r.runId] == r || t.records[r.runId].updatedAt <= t.now)
  {
    hide QueueOrder, Values, Move, TransitionIn, Expired, WellKeyed;
    if PcOf(s, w).Recovering? && PcOf(s, w).listed != [] {
      MoveStamps(s, PcOf(s, w).listed[0].runId, Queued, ByRecovery(PcOf(s, w).listed[0]), r);
    }
  }

  /** A transition stamps the record it changes with the present. */
  lemma MoveStamps(s: State, id: string, to: RunStatus, cause: Cause, r: AgentRunRecord)
    requires WellKeyed(s.records)
    requires r.runId in s.records && (s.records[r.runId] == r || s.records[r.runId].updatedAt <= s.now)
    ensures
      var t := Move(s, id, to, cause);
      && t.now == s.now && r.runId in t.records
      && (t.records[r.runId] == r || t.records[r.runId].updatedAt <= t.now)
  {
    hide IsValidTransition;
  }

  /** A recovering worker listed all records, or has some of its list left. */
  lemma StepListed(c: Config, s: State, a: Action, w: Worker)
    requires PcOf(Step(c, s, a), w).Recovering?
    ensures
      var listed := PcOf(Step(c, s, a), w).listed;
      || (a == RecoverList(w) && listed == Values(s.records) && Step(c, s, a).records == s.records)
      || (PcOf(s, w).Recovering? && forall r | r in listed :: r in PcOf(s, w).listed)
  {
    hide QueueOrder, IsValidTransition, Values;
  }

  lemma StepKeepsListed(c: Config, s: State, a: Action)
    requires WellKeyed(s.records) && ListedOrChanged(s)
    ensures ListedOrChanged(Step(c, s, a))
  {
    hide Step, Values;
    var t := Step(c, s, a);
    ValuesAreTheRecords(s.records);
    forall w: Worker, i | w in t.pcs && t.pcs[w].Recovering? && 0 <= i < |t.pcs[w].listed|
      ensures
        var r := t.pcs[w].listed[i];
        r.runId in t.records && (t.records[r.runId] == r || t.records[r.runId].updatedAt <= t.now)
    {
      var r := t.pcs[w].listed[i];
      assert r in t.pcs[w].listed;
      StepListed(c, s, a, w);
      if PcOf(s, w).Recovering? && r in PcOf(s, w).listed {
        var j :| 0 <= j < |s.pcs[w].listed| && s.pcs[w].listed[j] == r;
      }
      StepKeepsRecord(c, s, a, r);
    }
  }

  lemma {:induction false} ListedStays(c: Config, actions: seq<Action>)
    ensures ListedOrChanged(Exec(c, actions))
  {
    if actions != [] {
      hide Step;
      ListedStays(c, actions[..|actions| - 1]);
      RecordsAreWellKeyed(c, actions[..|actions| - 1]);
      StepKeepsListed(c, Exec(c, actions[..|actions| - 1]), actions[|actions| - 1]);
    }
  }

  /** Exactly the queues with a positive lease timeout admit the race: with timeout 0 every lease a
      recovery takes has expired, in every interleaving. */
  lemma RecoveryIsSafeExactlyWithoutTimeout(c: Config)
    ensures (forall actions, w :: !TakesFreshLease(c, Exec(c, actions), w)) <==> c.timeout == 0
  {
    hide Exec;
    if c.timeout == 0 {
      forall actions, w
        ensures !TakesFreshLease(c, Exec(c, actions), w)
      {
        ListedStays(c, actions);
        ClockRunsForward(c, actions);
      }
    } else {
      var actions := RecoveryCanTakeAFreshLease(c);
    }
  }
}
