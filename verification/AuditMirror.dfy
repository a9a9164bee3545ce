/** The enterprise mirror of the audit log: every event goes to the local log first, then into a
    shared buffer that is drained into a batch when it is full (crates/audit-log/src/lib.rs).
    Any number of `record` calls run concurrently. */
module AuditMirror {
  import opened Wrappers
  import opened AuditChain

  datatype Batch = Batch(events: seq<AuditEvent>) {
    function AuditIds(): seq<string> {
      seq(|events|, i requires 0 <= i < |events| => events[i].auditId)
    }
  }

  datatype SinkStatus = Accepted | PartiallyAccepted | Rejected | TransientFailure

  /** What `send_batch` answers. */
  datatype Answer = Answered(status: SinkStatus) | PermanentError | TransientError

  datatype DeliveryFailure = DeliveryFailure(auditIds: seq<string>, transient: bool)

  predicate IsTransient(answer: Answer) {
    answer == Answered(TransientFailure) || answer == TransientError
  }

  /** The critical section of `record`: the new buffer, and the batch drained from it. */
  function Pushed(pending: seq<AuditEvent>, batchSize: nat, event: AuditEvent): (seq<AuditEvent>, Option<Batch>) {
    var full := pending + [event];
    if |full| >= batchSize then ([], Some(Batch(full))) else (full, None)
  }

  /** The shared fields of the mirror. */
  class EnterpriseMirrorAuditLog {
    const batchSize: nat
    var pending: seq<AuditEvent>
    var deliveryFailures: seq<DeliveryFailure>

    constructor (batchSize: nat)
      ensures this.batchSize == if batchSize < 1 then 1 else batchSize
      ensures pending == [] && deliveryFailures == []
    {
      this.batchSize := if batchSize < 1 then 1 else batchSize;
      pending := [];
      deliveryFailures := [];
    }

    method Push(event: AuditEvent) returns (batch: Option<Batch>)
      modifies this`pending
      ensures (pending, batch) == Pushed(old(pending), batchSize, event)
      ensures (pending, batch) ==
              if |old(pending)| + 1 < batchSize then (old(pending) + [event], None)
              else ([], Some(Batch(old(pending) + [event])))
    {
      pending := pending + [event];
      if |pending| >= batchSize {
        batch := Some(Batch(pending));
        pending := [];
      } else {
        batch := None;
      }
    }

    /** After the sink has answered: anything but `Accepted` is kept as a failure. */
    method FinishBatch(batch: Batch, answer: Answer)
      modifies this`deliveryFailures
      ensures deliveryFailures == old(deliveryFailures) +
                                  if answer == Answered(Accepted) then []
                                  else [DeliveryFailure(batch.AuditIds(), IsTransient(answer))]
      ensures answer != Answered(Accepted) ==>
        var failure := deliveryFailures[|deliveryFailures| - 1];
        && (failure.transient <==> answer in {Answered(TransientFailure), TransientError})
        && |failure.auditIds| == |batch.events|
        && forall i | 0 <= i < |batch.events| :: failure.auditIds[i] == batch.events[i].auditId
    {
      match answer {
        case Answered(Accepted) =>
        case Answered(status) => RecordDeliveryFailure(batch, status == TransientFailure);
        case PermanentError => RecordDeliveryFailure(batch, false);
        case TransientError => RecordDeliveryFailure(batch, true);
      }
    }

    method RecordDeliveryFailure(batch: Batch, transient: bool)
      modifies this`deliveryFailures
      ensures deliveryFailures == old(deliveryFailures) + [DeliveryFailure(batch.AuditIds(), transient)]
    {
      deliveryFailures := deliveryFailures + [DeliveryFailure(batch.AuditIds(), transient)];
    }
  }

  // ---------------------------------------------------------------- interleavings

  /** Where a `record` call stands: before the local write, before the critical section, or
      waiting for the sink. */
  datatype Pc = Idle | RecordedLocally(event: AuditEvent) | Sending(batch: Batch)

  /** The shared state, and what has happened: the events pushed, the batches drained, and the
      sink's answers, in order. */
  datatype State = State(
    pcs: seq<Pc>,
    localLog: seq<AuditEvent>,
    pending: seq<AuditEvent>,
    failures: seq<DeliveryFailure>,
    pushed: seq<AuditEvent>,
    drained: seq<Batch>,
    answered: seq<(Batch, Answer)>)

  /** One step of one call; a local write that fails ends its call. */
  datatype Action =
    | RecordLocal(w: nat, event: AuditEvent, ok: bool)
    | PushAndDrain(w: nat)
    | Receive(w: nat, answer: Answer)

  ghost function Step(batchSize: nat, s: State, a: Action): State {
    match a
    case RecordLocal(w, event, ok) =>
      if w < |s.pcs| && s.pcs[w].Idle? && ok then
        s.(pcs := s.pcs[w := RecordedLocally(event)], localLog := s.localLog + [event])
      else s
    case PushAndDrain(w) =>
      if w < |s.pcs| && s.pcs[w].RecordedLocally? then
        var event := s.pcs[w].event;
        var (pending, batch) := Pushed(s.pending, batchSize, event);
        var t := s.(pending := pending, pushed := s.pushed + [event]);
        match batch
        case None => t.(pcs := s.pcs[w := Idle])
        case Some(b) => t.(pcs := s.pcs[w := Sending(b)], drained := s.drained + [b])
      else s
    case Receive(w, answer) =>
      if w < |s.pcs| && s.pcs[w].Sending? then
        var batch := s.pcs[w].batch;
        s.(pcs := s.pcs[w := Idle],
           answered := s.answered + [(batch, answer)],
           failures := if answer == Answered(Accepted) then s.failures
                       else s.failures + [DeliveryFailure(batch.AuditIds(), IsTransient(answer))])
      else s
  }

  ghost function Start(workers: nat): State {
    State(seq(workers, _ => Idle), [], [], [], [], [], [])
  }

  ghost function Run(workers: nat, batchSize: nat, actions: seq<Action>): State {
    if actions == [] then Start(workers)
    else Step(batchSize, Run(workers, batchSize, actions[..|actions| - 1]), actions[|actions| - 1])
  }

  /** The batches the sink accepted, */
  function AcceptedOf(answered: seq<(Batch, Answer)>): seq<Batch> {
    if answered == [] then []
    else
      var (batch, answer) := answered[|answered| - 1];
      AcceptedOf(answered[..|answered| - 1]) + if answer == Answered(Accepted) then [batch] else []
  }

  /** the others, */
  function FailedOf(answered: seq<(Batch, Answer)>): seq<Batch> {
    if answered == [] then []
    else
      var (batch, answer) := answered[|answered| - 1];
      FailedOf(answered[..|answered| - 1]) + if answer == Answered(Accepted) then [] else [batch]
  }

  /** and for each of those whether the failure is worth another try. */
  function TransientOf(answered: seq<(Batch, Answer)>): seq<bool> {
    if answered == [] then []
    else
      var (_, answer) := answered[|answered| - 1];
      TransientOf(answered[..|answered| - 1]) +
      if answer == Answered(Accepted) then [] else [answer in {Answered(TransientFailure), TransientError}]
  }

  /** What the calls in progress hold, all together. */
  ghost function Held<T>(at: Pc -> multiset<T>, pcs: seq<Pc>): multiset<T> {
    if pcs == [] then multiset{} else Held(at, pcs[..|pcs| - 1]) + at(pcs[|pcs| - 1])
  }

  /** An event written locally whose call has not reached the buffer yet. */
  function Waiting(pc: Pc): multiset<AuditEvent> {
    if pc.RecordedLocally? then multiset{pc.event} else multiset{}
  }

  function InFlight(pc: Pc): multiset<Batch> {
    if pc.Sending? then multiset{pc.batch} else multiset{}
  }

  function InFlightEvents(pc: Pc): multiset<AuditEvent> {
    if pc.Sending? then multiset(pc.batch.events) else multiset{}
  }

  function Concat(batches: seq<Batch>): seq<AuditEvent> {
    if batches == [] then [] else Concat(batches[..|batches| - 1]) + batches[|batches| - 1].events
  }

  lemma Exchange<T>(a: multiset<T>, b: multiset<T>, c: multiset<T>, d: multiset<T>, e: multiset<T>)
    requires a + b == c + d
    ensures a + e + b == c + e + d
  {
    assert a + e + b == a + b + e;
    assert c + e + d == c + d + e;
  }

  lemma {:induction false} HeldAfterChange<T>(at: Pc -> multiset<T>, pcs: seq<Pc>, w: nat, pc: Pc)
    requires w < |pcs|
    ensures Held(at, pcs[w := pc]) + at(pcs[w]) == Held(at, pcs) + at(pc)
  {
    var n := |pcs| - 1;
    var changed := pcs[w := pc];
    if w == n {
      assert changed[..n] == pcs[..n];
      assert Held(at, pcs[..n]) + at(pc) + at(pcs[n]) == Held(at, pcs[..n]) + at(pcs[n]) + at(pc);
    } else {
      assert changed[..n] == pcs[..n][w := pc];
      HeldAfterChange(at, pcs[..n], w, pc);
      Exchange(Held(at, pcs[..n][w := pc]), at(pcs[w]), Held(at, pcs[..n]), at(pc), at(pcs[n]));
    }
  }

  /** The same, by what the call held before and after. */
  lemma HeldBy<T>(at: Pc -> multiset<T>, pcs: seq<Pc>, w: nat, pc: Pc)
    requires w < |pcs|
    ensures at(pcs[w]) == multiset{} ==> Held(at, pcs[w := pc]) == Held(at, pcs) + at(pc)
    ensures at(pc) == multiset{} ==> Held(at, pcs[w := pc]) + at(pcs[w]) == Held(at, pcs)
    ensures at(pcs[w]) == multiset{} && at(pc) == multiset{} ==> Held(at, pcs[w := pc]) == Held(at, pcs)
  {
    hide Held;
    HeldAfterChange(at, pcs, w, pc);
    var before, after := Held(at, pcs), Held(at, pcs[w := pc]);
    assert before + multiset{} == before;
    assert after + multiset{} == after;
  }

  lemma {:induction false} HeldByIdle<T>(at: Pc -> multiset<T>, pcs: seq<Pc>)
    requires at(Idle) == multiset{} && forall i | 0 <= i < |pcs| :: pcs[i] == Idle
    ensures Held(at, pcs) == multiset{}
  {
    if pcs != [] {
      HeldByIdle(at, pcs[..|pcs| - 1]);
    }
  }

  lemma {:induction false} ConcatSize(batches: seq<Batch>, size: nat)
    requires forall b | b in batches :: |b.events| == size
    ensures |Concat(batches)| == |batches| * size
  {
    if batches != [] {
      var n := |batches| - 1;
      ConcatSize(batches[..n], size);
      assert (n + 1) * size == n * size + size;
    }
  }

  lemma ConcatAppend(batches: seq<Batch>, b: Batch)
    ensures Concat(batches + [b]) == Concat(batches) + b.events
  {
    assert (batches + [b])[..|batches|] == batches;
  }

  /** What the buffer does, seen from outside the critical section: the drained batches and the
      buffer are the pushed events in push order; every batch is full, the buffer never is. */
  ghost predicate BufferIsQueue(batchSize: nat, s: State) {
    && Concat(s.drained) + s.pending == s.pushed
    && (forall b | b in s.drained :: |b.events| == batchSize)
    && |s.pending| < batchSize
  }

  /** An event of the local log is still on its way to the buffer, or was pushed: exactly once. */
  ghost predicate LocalFirst(s: State) {
    multiset(s.localLog) == Held(Waiting, s.pcs) + multiset(s.pushed)
  }

  /** A drained batch is in flight, accepted or failed: exactly once. */
  ghost predicate SentOnce(s: State) {
    multiset(s.drained) == Held(InFlight, s.pcs) + (multiset(AcceptedOf(s.answered)) + multiset(FailedOf(s.answered)))
  }

  /** The same for the events in the batches. */
  ghost predicate EventsSentOnce(s: State) {
    multiset(Concat(s.drained)) == Held(InFlightEvents, s.pcs) +
      (multiset(Concat(AcceptedOf(s.answered))) + multiset(Concat(FailedOf(s.answered))))
  }

  ghost predicate Conserved(s: State) {
    LocalFirst(s) && SentOnce(s) && EventsSentOnce(s)
  }

  /** `x` joins what is held, */
  lemma Joins<T>(total: multiset<T>, held: multiset<T>, rest: multiset<T>, x: multiset<T>)
    requires total == held + rest
    ensures total + x == held + x + rest
  {
  }

  /** or leaves it for the rest. */
  lemma Leaves<T>(total: multiset<T>, held: multiset<T>, x: multiset<T>, a: multiset<T>, b: multiset<T>)
    requires total == held + x + (a + b)
    ensures total == held + (a + x + b) && total == held + (a + (b + x))
  {
  }

  /** The failure list is the failed batches, in order, with the right flag each. */
  ghost predicate FailuresListed(s: State) {
    && |s.failures| == |FailedOf(s.answered)| == |TransientOf(s.answered)|
    && forall i | 0 <= i < |s.failures| ::
         s.failures[i] == DeliveryFailure(FailedOf(s.answered)[i].AuditIds(), TransientOf(s.answered)[i])
  }

  lemma AnsweredGrows(answered: seq<(Batch, Answer)>, batch: Batch, answer: Answer)
    ensures
      var longer := answered + [(batch, answer)];
      && AcceptedOf(longer) == AcceptedOf(answered) + (if answer == Answered(Accepted) then [batch] else [])
      && FailedOf(longer) == FailedOf(answered) + (if answer == Answered(Accepted) then [] else [batch])
      && TransientOf(longer) == TransientOf(answered) +
         (if answer == Answered(Accepted) then [] else [IsTransient(answer)])
  {
    assert (answered + [(batch, answer)])[..|answered|] == answered;
  }

  lemma FullBufferIsDrained(batchSize: nat, drained: seq<Batch>, full: seq<AuditEvent>)
    requires forall b | b in drained :: |b.events| == batchSize
    requires |full| == batchSize
    ensures Concat(drained + [Batch(full)]) + [] == Concat(drained) + full
    ensures forall b | b in drained + [Batch(full)] :: |b.events| == batchSize
  {
    ConcatAppend(drained, Batch(full));
  }

  lemma PushKeepsQueue(batchSize: nat, s: State, w: nat)
    requires batchSize >= 1 && BufferIsQueue(batchSize, s)
    ensures BufferIsQueue(batchSize, Step(batchSize, s, PushAndDrain(w)))
  {
    hide Concat;
    if w < |s.pcs| && s.pcs[w].RecordedLocally? {
      var event := s.pcs[w].event;
      var full := s.pending + [event];
      assert Concat(s.drained) + full == Concat(s.drained) + s.pending + [event];
      if |full| >= batchSize {
        FullBufferIsDrained(batchSize, s.drained, full);
      }
    }
  }

  lemma RecordLocalConserves(batchSize: nat, s: State, w: nat, event: AuditEvent, ok: bool)
    requires Conserved(s)
    ensures Conserved(Step(batchSize, s, RecordLocal(w, event, ok)))
  {
    hide Held, Concat;
    if w < |s.pcs| && s.pcs[w].Idle? && ok {
      var pc := RecordedLocally(event);
      HeldBy(Waiting, s.pcs, w, pc);
      HeldBy(InFlight, s.pcs, w, pc);
      HeldBy(InFlightEvents, s.pcs, w, pc);
      Joins(multiset(s.localLog), Held(Waiting, s.pcs), multiset(s.pushed), multiset{event});
    }
  }

  lemma PushKeepsLocalFirst(batchSize: nat, s: State, w: nat)
    requires LocalFirst(s)
    ensures LocalFirst(Step(batchSize, s, PushAndDrain(w)))
  {
    hide Held, Concat;
    if w < |s.pcs| && s.pcs[w].RecordedLocally? {
      var t := Step(batchSize, s, PushAndDrain(w));
      HeldBy(Waiting, s.pcs, w, t.pcs[w]);
      Leaves(multiset(s.localLog), Held(Waiting, t.pcs), multiset{s.pcs[w].event}, multiset(s.pushed), multiset{});
      assert multiset(t.pushed) == multiset(s.pushed) + multiset{s.pcs[w].event} + multiset{};
    }
  }

  lemma PushKeepsSentOnce(batchSize: nat, s: State, w: nat)
    requires SentOnce(s) && EventsSentOnce(s)
    ensures SentOnce(Step(batchSize, s, PushAndDrain(w))) && EventsSentOnce(Step(batchSize, s, PushAndDrain(w)))
  {
    hide Held, Concat;
    if w < |s.pcs| && s.pcs[w].RecordedLocally? {
      var t := Step(batchSize, s, PushAndDrain(w));
      HeldBy(InFlight, s.pcs, w, t.pcs[w]);
      HeldBy(InFlightEvents, s.pcs, w, t.pcs[w]);
      if t.pcs[w].Sending? {
        var b := t.pcs[w].batch;
        ConcatAppend(s.drained, b);
        Joins(multiset(s.drained), Held(InFlight, s.pcs),
              multiset(AcceptedOf(s.answered)) + multiset(FailedOf(s.answered)), multiset{b});
        Joins(multiset(Concat(s.drained)), Held(InFlightEvents, s.pcs),
              multiset(Concat(AcceptedOf(s.answered))) + multiset(Concat(FailedOf(s.answered))), multiset(b.events));
      }
    }
  }

  lemma ReceiveKeepsLocalFirst(batchSize: nat, s: State, w: nat, answer: Answer)
    requires LocalFirst(s)
    ensures LocalFirst(Step(batchSize, s, Receive(w, answer)))
  {
    hide Held;
    if w < |s.pcs| && s.pcs[w].Sending? {
      HeldBy(Waiting, s.pcs, w, Idle);
    }
  }

  lemma ReceiveKeepsSentOnce(batchSize: nat, s: State, w: nat, answer: Answer)
    requires SentOnce(s)
    ensures SentOnce(Step(batchSize, s, Receive(w, answer)))
  {
    hide Held, AcceptedOf, FailedOf;
    if w < |s.pcs| && s.pcs[w].Sending? {
      var pcs := s.pcs[w := Idle];
      HeldBy(InFlight, s.pcs, w, Idle);
      AnsweredGrows(s.answered, s.pcs[w].batch, answer);
      Leaves(multiset(s.drained), Held(InFlight, pcs), multiset{s.pcs[w].batch},
             multiset(AcceptedOf(s.answered)), multiset(FailedOf(s.answered)));
    }
  }

  lemma ReceiveKeepsEventsSentOnce(batchSize: nat, s: State, w: nat, answer: Answer)
    requires EventsSentOnce(s)
    ensures EventsSentOnce(Step(batchSize, s, Receive(w, answer)))
  {
    hide Held, Concat, AcceptedOf, FailedOf;
    if w < |s.pcs| && s.pcs[w].Sending? {
      var b := s.pcs[w].batch;
      var pcs := s.pcs[w := Idle];
      HeldBy(InFlightEvents, s.pcs, w, Idle);
      AnsweredGrows(s.answered, b, answer);
      ConcatAppend(AcceptedOf(s.answered), b);
      ConcatAppend(FailedOf(s.answered), b);
      assert AcceptedOf(s.answered) + [] == AcceptedOf(s.answered) && FailedOf(s.answered) + [] == FailedOf(s.answered);
      Leaves(multiset(Concat(s.drained)), Held(InFlightEvents, pcs), multiset(b.events),
             multiset(Concat(AcceptedOf(s.answered))), multiset(Concat(FailedOf(s.answered))));
    }
  }

  lemma ReceiveKeepsFailures(batchSize: nat, s: State, w: nat, answer: Answer)
    requires FailuresListed(s)
    ensures FailuresListed(Step(batchSize, s, Receive(w, answer)))
  {
    hide AcceptedOf, FailedOf, TransientOf;
    if w < |s.pcs| && s.pcs[w].Sending? {
      AnsweredGrows(s.answered, s.pcs[w].batch, answer);
    }
  }

  /** Every interleaving of any number of `record` calls keeps all three. */
  lemma {:induction false} MirrorConservesEvents(workers: nat, batchSize: nat, actions: seq<Action>)
    requires batchSize >= 1
    ensures
      var s := Run(workers, batchSize, actions);
      BufferIsQueue(batchSize, s) && Conserved(s) && FailuresListed(s) && |s.pcs| == workers
  {
    hide BufferIsQueue, LocalFirst, SentOnce, EventsSentOnce, AcceptedOf, FailedOf, TransientOf;
    if actions == [] {
      StartIsConserved(workers, batchSize);
    } else {
      MirrorConservesEvents(workers, batchSize, actions[..|actions| - 1]);
      var s := Run(workers, batchSize, actions[..|actions| - 1]);
      match actions[|actions| - 1] {
        case RecordLocal(w, event, ok) =>
          RecordLocalConserves(batchSize, s, w, event, ok);
          OthersKeepQueue(batchSize, s, actions[|actions| - 1]);
        case PushAndDrain(w) =>
          PushKeepsLocalFirst(batchSize, s, w);
          PushKeepsSentOnce(batchSize, s, w);
          PushKeepsQueue(batchSize, s, w);
        case Receive(w, answer) =>
          ReceiveKeepsLocalFirst(batchSize, s, w, answer);
          ReceiveKeepsSentOnce(batchSize, s, w, answer);
          ReceiveKeepsEventsSentOnce(batchSize, s, w, answer);
          ReceiveKeepsFailures(batchSize, s, w, answer);
          OthersKeepQueue(batchSize, s, actions[|actions| - 1]);
      }
    }
  }

  lemma StartIsConserved(workers: nat, batchSize: nat)
    requires batchSize >= 1
    ensures BufferIsQueue(batchSize, Start(workers)) && Conserved(Start(workers)) && FailuresListed(Start(workers))
  {
    HeldByIdle(Waiting, Start(workers).pcs);
    HeldByIdle(InFlight, Start(workers).pcs);
    HeldByIdle(InFlightEvents, Start(workers).pcs);
  }

  lemma OthersKeepQueue(batchSize: nat, s: State, a: Action)
    requires !a.PushAndDrain? && BufferIsQueue(batchSize, s)
    ensures BufferIsQueue(batchSize, Step(batchSize, s, a))
  {
  }

  /** Counting the mirrored events: at every moment the events that were pushed are exactly those
      in accepted, failed and in-flight batches and in the buffer, and all of them are in the
      local log. */
  lemma MirroredEventsAreAccountedFor(workers: nat, batchSize: nat, actions: seq<Action>)
    requires batchSize >= 1
    ensures
      var s := Run(workers, batchSize, actions);
      && multiset(s.pushed) == multiset(Concat(AcceptedOf(s.answered))) + multiset(Concat(FailedOf(s.answered))) +
         Held(InFlightEvents, s.pcs) + multiset(s.pending)
      && multiset(s.pushed) <= multiset(s.localLog)
  {
    MirrorConservesEvents(workers, batchSize, actions);
    var s := Run(workers, batchSize, actions);
    assert multiset(Concat(s.drained) + s.pending) == multiset(Concat(s.drained)) + multiset(s.pending);
  }

  /** When no call is in progress, the local log is exactly the delivered and failed batches and
      the buffer: whole batches, and a remainder smaller than one. */
  lemma RemainderAtRest(workers: nat, batchSize: nat, actions: seq<Action>)
    requires batchSize >= 1
    requires forall w | 0 <= w < |Run(workers, batchSize, actions).pcs| ::
      Run(workers, batchSize, actions).pcs[w] == Idle
    ensures
      var s := Run(workers, batchSize, actions);
      && multiset(s.localLog) == multiset(Concat(AcceptedOf(s.answered))) + multiset(Concat(FailedOf(s.answered))) +
         multiset(s.pending)
      && |s.localLog| == (|AcceptedOf(s.answered)| + |FailedOf(s.answered)|) * batchSize + |s.pending|
      && |s.pending| < batchSize
  {
    hide Run, Concat, AcceptedOf, FailedOf, TransientOf, FailuresListed;
    var s := Run(workers, batchSize, actions);
    MirrorConservesEvents(workers, batchSize, actions);
    MirroredEventsAreAccountedFor(workers, batchSize, actions);
    HeldByIdle(Waiting, s.pcs);
    HeldByIdle(InFlight, s.pcs);
    HeldByIdle(InFlightEvents, s.pcs);
    ConcatSize(s.drained, batchSize);
    assert multiset(s.localLog) == multiset(s.pushed);
    assert |multiset(s.localLog)| == |multiset(s.pushed)|;
    assert |multiset(s.drained)| == |multiset(AcceptedOf(s.answered))| + |multiset(FailedOf(s.answered))|;
    assert |s.drained| == |AcceptedOf(s.answered)| + |FailedOf(s.answered)|;
  }
}
