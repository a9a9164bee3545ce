/** Concurrent records of one audit log (crates/audit-log/src/lib.rs): `record` reads the last hash
    of the file and appends its envelope in two steps that no lock holds together. Every record is
    these two steps, and the steps of all records interleave in any way. */
module AuditInterleaving {
  import opened Wrappers
  import opened AuditChain
  import ConcurrentAppends

  /** A record between its two steps: its event, the hash it read, and the length of the file then. */
  datatype Writing = Writing(event: AuditEvent, head: Option<string>, readAt: nat)

  datatype State = State(lines: seq<Line>, writing: seq<Writing>)

  /** `Append(k)` is the second step of the k-th record in progress. */
  datatype Action = ReadHead(event: AuditEvent) | Append(k: nat)

  function Step(h: Hashing, s: State, a: Action): State {
    match a
    case ReadHead(event) => s.(writing := s.writing + [Writing(event, WriterHead(s.lines), |s.lines|)])
    case Append(k) =>
      if k >= |s.writing| then s
      else State(s.lines + [Sealed(NewEnvelope(h, s.writing[k].event, s.writing[k].head))],
                 s.writing[..k] + s.writing[k + 1..])
  }

  function Run(h: Hashing, lines: seq<Line>, actions: seq<Action>): State {
    if actions == [] then State(lines, [])
    else Step(h, Run(h, lines, actions[..|actions| - 1]), actions[|actions| - 1])
  }

  predicate Appends(s: State, a: Action) {
    a.Append? && a.k < |s.writing|
  }

  // ---------------------------------------------------------------- no event is lost

  /** The events of the records begun, and those appended, in order. */
  function Begun(actions: seq<Action>): seq<AuditEvent> {
    if actions == [] then []
    else
      Begun(actions[..|actions| - 1]) +
      if actions[|actions| - 1].ReadHead? then [actions[|actions| - 1].event] else []
  }

  function Appended(h: Hashing, lines: seq<Line>, actions: seq<Action>): seq<AuditEvent> {
    if actions == [] then []
    else
      var s, a := Run(h, lines, actions[..|actions| - 1]), actions[|actions| - 1];
      Appended(h, lines, actions[..|actions| - 1]) + if Appends(s, a) then [s.writing[a.k].event] else []
  }

  function EventsOf(writing: seq<Writing>): (events: seq<AuditEvent>)
    ensures |events| == |writing| && forall k | 0 <= k < |events| :: events[k] == writing[k].event
  {
    seq(|writing|, k requires 0 <= k < |writing| => writing[k].event)
  }

  lemma EventsWithout(writing: seq<Writing>, k: nat)
    requires k < |writing|
    ensures EventsOf(writing[..k] + writing[k + 1..]) == EventsOf(writing)[..k] + EventsOf(writing)[k + 1..]
  {
  }

  lemma AppendedLine(h: Hashing, lines: seq<Line>, w: Writing)
    ensures
      var longer := lines + [Sealed(NewEnvelope(h, w.event, w.head))];
      && ListOf(longer) == (if ListOf(lines).Ok? then Ok(ListOf(lines).value + [w.event]) else ListOf(lines))
      && ScanOf(h, longer).eventCount == ScanOf(h, lines).eventCount + 1
      && ScanOf(h, longer).issues == ScanOf(h, lines).issues +
         (if w.head == ScanOf(h, lines).previous then []
          else [PreviousHashMismatch(w.event.auditId, ScanOf(h, lines).previous, w.head)])
      && !LastLineUnparseable(longer)
  {
    assert (lines + [Sealed(NewEnvelope(h, w.event, w.head))])[..|lines|] == lines;
  }

  /** `list` returns the old events followed by those appended, the verifier counts them, and every
      record begun is appended or in progress. */
  ghost predicate AllAccountedFor(h: Hashing, lines: seq<Line>, begun: seq<AuditEvent>, appended: seq<AuditEvent>,
                                  s: State)
  {
    && ListOf(s.lines) == (if ListOf(lines).Ok? then Ok(ListOf(lines).value + appended) else ListOf(lines))
    && ScanOf(h, s.lines).eventCount == ScanOf(h, lines).eventCount + |appended|
    && multiset(begun) == multiset(appended) + multiset(EventsOf(s.writing))
  }

  lemma AppendAccounts(h: Hashing, lines: seq<Line>, begun: seq<AuditEvent>, appended: seq<AuditEvent>,
                       s: State, k: nat)
    requires AllAccountedFor(h, lines, begun, appended, s) && k < |s.writing|
    ensures AllAccountedFor(h, lines, begun, appended + [s.writing[k].event], Step(h, s, Append(k)))
  {
    hide ListOf, ScanOf, NewEnvelope;
    AppendedLine(h, s.lines, s.writing[k]);
    ConcurrentAppends.OneLess(EventsOf(s.writing), k);
    EventsWithout(s.writing, k);
    if ListOf(lines).Ok? {
      assert ListOf(lines).value + (appended + [s.writing[k].event]) ==
             ListOf(lines).value + appended + [s.writing[k].event];
    }
  }

  lemma ReadAccounts(h: Hashing, lines: seq<Line>, begun: seq<AuditEvent>, appended: seq<AuditEvent>,
                     s: State, event: AuditEvent)
    requires AllAccountedFor(h, lines, begun, appended, s)
    ensures AllAccountedFor(h, lines, begun + [event], appended, Step(h, s, ReadHead(event)))
  {
    hide ListOf, ScanOf;
    var t := Step(h, s, ReadHead(event));
    assert EventsOf(t.writing) == EventsOf(s.writing) + [event];
  }

  /** In every interleaving no event is lost and none is doubled. */
  lemma {:induction false} EveryEventIsListed(h: Hashing, lines: seq<Line>, actions: seq<Action>)
    ensures AllAccountedFor(h, lines, Begun(actions), Appended(h, lines, actions), Run(h, lines, actions))
  {
    if actions == [] {
      assert ListOf(lines).Ok? ==> ListOf(lines).value + [] == ListOf(lines).value;
    } else {
      hide AllAccountedFor;
      var front, a := actions[..|actions| - 1], actions[|actions| - 1];
      var s := Run(h, lines, front);
      EveryEventIsListed(h, lines, front);
      match a {
        case ReadHead(event) =>
          ReadAccounts(h, lines, Begun(front), Appended(h, lines, front), s, event);
          assert Appended(h, lines, actions) == Appended(h, lines, front);
        case Append(k) =>
          assert Begun(actions) == Begun(front);
          if k < |s.writing| {
            AppendAccounts(h, lines, Begun(front), Appended(h, lines, front), s, k);
          } else {
            assert Appended(h, lines, actions) == Appended(h, lines, front);
          }
      }
    }
  }

  // ---------------------------------------------------------------- when the chain stays whole

  /** The record appends under another hash than the verifier expects there. */
  predicate ForksChain(h: Hashing, s: State, a: Action) {
    Appends(s, a) && s.writing[a.k].head != ScanOf(h, s.lines).previous
  }

  ghost predicate NothingForks(h: Hashing, lines: seq<Line>, actions: seq<Action>) {
    forall i | 0 <= i < |actions| :: !ForksChain(h, Run(h, lines, actions[..i]), actions[i])
  }

  /** The verifier's issues grow by one at every append under another hash, and never otherwise. */
  lemma StepAddsIssue(h: Hashing, s: State, a: Action)
    ensures
      |ScanOf(h, Step(h, s, a).lines).issues| == |ScanOf(h, s.lines).issues| + if ForksChain(h, s, a) then 1 else 0
  {
    hide ScanOf, ListOf, NewEnvelope;
    if Appends(s, a) {
      AppendedLine(h, s.lines, s.writing[a.k]);
    }
  }

  lemma {:induction false} IssuesCountForks(h: Hashing, lines: seq<Line>, actions: seq<Action>)
    ensures |ScanOf(h, Run(h, lines, actions).lines).issues| >= |ScanOf(h, lines).issues|
    ensures |ScanOf(h, Run(h, lines, actions).lines).issues| == |ScanOf(h, lines).issues| <==>
            NothingForks(h, lines, actions)
  {
    hide ScanOf, ForksChain, Step;
    if actions != [] {
      var front, a := actions[..|actions| - 1], actions[|actions| - 1];
      IssuesCountForks(h, lines, front);
      StepAddsIssue(h, Run(h, lines, front), a);
      assert forall i | 0 <= i < |front| :: front[..i] == actions[..i];
      assert actions[..|front|] == front;
    }
  }

  /** Another record appended between this one's read and its append. */
  predicate IsOvertaken(s: State, a: Action) {
    Appends(s, a) && s.writing[a.k].readAt < |s.lines|
  }

  ghost predicate NobodyIsOvertaken(h: Hashing, lines: seq<Line>, actions: seq<Action>) {
    forall i | 0 <= i < |actions| :: !IsOvertaken(Run(h, lines, actions[..i]), actions[i])
  }

  /** The file grows by envelopes only, and every record in progress holds the hash it read. */
  ghost predicate ReadsAreTrue(lines: seq<Line>, s: State) {
    && lines <= s.lines && (forall i | |lines| <= i < |s.lines| :: s.lines[i].Sealed?)
    && forall k | 0 <= k < |s.writing| ::
         |lines| <= s.writing[k].readAt <= |s.lines| && s.writing[k].head == WriterHead(s.lines[..s.writing[k].readAt])
  }

  lemma StepReadsTruly(h: Hashing, lines: seq<Line>, s: State, a: Action)
    requires ReadsAreTrue(lines, s)
    ensures ReadsAreTrue(lines, Step(h, s, a))
  {
    hide WriterHead;
    assert s.lines[..|s.lines|] == s.lines;
    if Appends(s, a) {
      var t := Step(h, s, a);
      forall k | 0 <= k < |t.writing|
        ensures |lines| <= t.writing[k].readAt <= |t.lines|
        ensures t.writing[k].head == WriterHead(t.lines[..t.writing[k].readAt])
      {
        assert t.writing[k] == s.writing[if k < a.k then k else k + 1];
        assert t.lines[..t.writing[k].readAt] == s.lines[..t.writing[k].readAt];
      }
    }
  }

  lemma {:induction false} AllReadsAreTrue(h: Hashing, lines: seq<Line>, actions: seq<Action>)
    ensures ReadsAreTrue(lines, Run(h, lines, actions))
  {
    if actions != [] {
      hide ReadsAreTrue, Step;
      AllReadsAreTrue(h, lines, actions[..|actions| - 1]);
      StepReadsTruly(h, lines, Run(h, lines, actions[..|actions| - 1]), actions[|actions| - 1]);
    }
  }

  /** The two scans agree on every file that grew by envelopes from one on which they agree. */
  lemma {:induction false} ScansStayInAgreement(h: Hashing, lines: seq<Line>, longer: seq<Line>)
    requires WriterHead(lines) == ScanOf(h, lines).previous && lines <= longer
    requires forall i | |lines| <= i < |longer| :: longer[i].Sealed?
    ensures WriterHead(longer) == ScanOf(h, longer).previous
  {
    if longer == lines {
      assert longer == lines;
    } else {
      assert longer[|longer| - 1].Sealed?;
    }
  }

  /** Whoever is not overtaken appends under the hash the verifier expects. */
  lemma NotOvertakenDoesNotFork(h: Hashing, lines: seq<Line>, s: State, a: Action)
    requires ReadsAreTrue(lines, s) && WriterHead(lines) == ScanOf(h, lines).previous
    ensures ForksChain(h, s, a) ==> IsOvertaken(s, a)
  {
    hide WriterHead, ScanOf;
    ScansStayInAgreement(h, lines, s.lines);
    assert s.lines[..|s.lines|] == s.lines;
  }

  /** If nobody is overtaken, the records add no issue to a file on which the scans agree. */
  lemma UnlessOvertakenNothingForks(h: Hashing, lines: seq<Line>, actions: seq<Action>)
    requires WriterHead(lines) == ScanOf(h, lines).previous && NobodyIsOvertaken(h, lines, actions)
    ensures NothingForks(h, lines, actions)
    ensures |ScanOf(h, Run(h, lines, actions).lines).issues| == |ScanOf(h, lines).issues|
  {
    hide WriterHead, ScanOf, ForksChain, IsOvertaken, ReadsAreTrue;
    forall i | 0 <= i < |actions|
      ensures !ForksChain(h, Run(h, lines, actions[..i]), actions[i])
    {
      AllReadsAreTrue(h, lines, actions[..i]);
      NotOvertakenDoesNotFork(h, lines, Run(h, lines, actions[..i]), actions[i]);
    }
    IssuesCountForks(h, lines, actions);
  }

  // ---------------------------------------------------------------- and not otherwise

  lemma {:induction false} CountGrows(h: Hashing, lines: seq<Line>, k: nat)
    requires k < |lines| && forall i | k <= i < |lines| :: lines[i].Sealed?
    ensures ScanOf(h, lines).eventCount > ScanOf(h, lines[..k]).eventCount
    decreases |lines|
  {
    var front := lines[..|lines| - 1];
    assert lines[|lines| - 1].Sealed?;
    if k < |front| {
      assert front[..k] == lines[..k];
      CountGrows(h, front, k);
    } else {
      assert front == lines[..k];
    }
  }

  /** A clean file that returned to the hash of one of its shorter beginnings contains two texts
      with one hash: the chain head binds the number of events. */
  lemma ReturningHeadCollides(h: Hashing, lines: seq<Line>, k: nat) returns (texts: (string, string))
    requires h.Valid() && ScanOf(h, lines).issues == [] && k < |lines|
    requires forall i | k <= i < |lines| :: lines[i].Sealed?
    requires ScanOf(h, lines[..k]).previous == ScanOf(h, lines).previous
    ensures h.Collision(texts)
  {
    hide ScanOf, ListOf, DifferingInputs;
    CleanPrefix(h, lines, k);
    ChainHeadBindsTheHistory(h, lines[..k], lines);
    CountGrows(h, lines, k);
    texts := DifferingInputs(h, EnvelopesOf(lines[..k]), EnvelopesOf(lines)).value;
  }

  lemma CleanScansAgree(h: Hashing, lines: seq<Line>)
    requires ScanOf(h, lines).issues == []
    ensures WriterHead(lines) == ScanOf(h, lines).previous
  {
    CleanExactlyWhenChained(h, lines);
    NotUnparseable(lines);
    ScansAgree(h, lines);
  }

  lemma {:induction false} NotUnparseable(lines: seq<Line>)
    requires OnlyEnvelopes(lines)
    ensures !LastLineUnparseable(lines)
  {
    if lines != [] {
      assert lines[|lines| - 1].Blank? || lines[|lines| - 1].Sealed?;
      NotUnparseable(lines[..|lines| - 1]);
    }
  }

  /** Records in progress together leave a clean file clean exactly when no envelope is appended
      between a record's read of the last hash and its own append -- or two texts of the run share
      a hash, and are shown. */
  lemma CleanExactlyWhenNobodyIsOvertaken(h: Hashing, lines: seq<Line>, actions: seq<Action>)
    returns (texts: (string, string))
    requires h.Valid() && ScanOf(h, lines).issues == []
    ensures NobodyIsOvertaken(h, lines, actions) ==> ScanOf(h, Run(h, lines, actions).lines).issues == []
    ensures ScanOf(h, Run(h, lines, actions).lines).issues == [] ==>
              NobodyIsOvertaken(h, lines, actions) || h.Collision(texts)
  {
    hide ScanOf, WriterHead, Step, ForksChain, IsOvertaken;
    texts := ("", "");
    CleanScansAgree(h, lines);
    IssuesCountForks(h, lines, actions);
    if NobodyIsOvertaken(h, lines, actions) {
      UnlessOvertakenNothingForks(h, lines, actions);
    } else if ScanOf(h, Run(h, lines, actions).lines).issues == [] {
      var i :| 0 <= i < |actions| && IsOvertaken(Run(h, lines, actions[..i]), actions[i]);
      NothingForksBefore(h, lines, actions, i);
      IssuesCountForks(h, lines, actions[..i]);
      AllReadsAreTrue(h, lines, actions[..i]);
      texts := OvertakenUnnoticed(h, lines, Run(h, lines, actions[..i]), actions[i]);
    }
  }

  lemma NothingForksBefore(h: Hashing, lines: seq<Line>, actions: seq<Action>, i: nat)
    requires NothingForks(h, lines, actions) && i < |actions|
    ensures NothingForks(h, lines, actions[..i]) && !ForksChain(h, Run(h, lines, actions[..i]), actions[i])
  {
    hide ForksChain;
    assert forall j | 0 <= j < i :: actions[..i][..j] == actions[..j];
  }

  lemma OvertakenUnnoticed(h: Hashing, lines: seq<Line>, s: State, a: Action) returns (texts: (string, string))
    requires h.Valid() && ScanOf(h, s.lines).issues == [] && ReadsAreTrue(lines, s)
    requires IsOvertaken(s, a) && !ForksChain(h, s, a)
    ensures h.Collision(texts)
  {
    hide ScanOf, WriterHead;
    var k := s.writing[a.k].readAt;
    CleanPrefix(h, s.lines, k);
    CleanScansAgree(h, s.lines[..k]);
    texts := ReturningHeadCollides(h, s.lines, k);
  }

  lemma RunSteps(h: Hashing, lines: seq<Line>, actions: seq<Action>, a: Action)
    ensures Run(h, lines, actions + [a]) == Step(h, Run(h, lines, actions), a)
  {
    assert (actions + [a])[..|actions|] == actions;
  }

  /** Undisturbed, the two steps are the sink's `record`. */
  lemma RecordAlone(h: Hashing, lines: seq<Line>, event: AuditEvent)
    ensures Run(h, lines, [ReadHead(event)] + [Append(0)]) == State(Recorded(h, lines, event), [])
  {
    hide Run, WriterHead, NewEnvelope;
    NothingDone(h, lines);
    assert [] + [ReadHead(event)] == [ReadHead(event)];
    RunSteps(h, lines, [], ReadHead(event));
    RunSteps(h, lines, [ReadHead(event)], Append(0));
  }

  lemma BothReadOneAppends(h: Hashing, lines: seq<Line>, first: AuditEvent, second: AuditEvent)
    ensures
      var head := WriterHead(lines);
      Run(h, lines, [ReadHead(first)] + [ReadHead(second)] + [Append(0)]) ==
      State(lines + [Sealed(NewEnvelope(h, first, head))], [Writing(second, head, |lines|)])
  {
    hide Run, WriterHead, NewEnvelope;
    NothingDone(h, lines);
    assert [] + [ReadHead(first)] == [ReadHead(first)];
    RunSteps(h, lines, [], ReadHead(first));
    RunSteps(h, lines, [ReadHead(first)], ReadHead(second));
    RunSteps(h, lines, [ReadHead(first)] + [ReadHead(second)], Append(0));
  }

  lemma NothingDone(h: Hashing, lines: seq<Line>)
    ensures Run(h, lines, []) == State(lines, [])
  {
  }

  /** Two records that both read before either appends: the second is reported as unlinked, unless
      the envelope of the first hashes to the very hash it was chained to. */
  lemma ConcurrentRecordsFork(h: Hashing, lines: seq<Line>, first: AuditEvent, second: AuditEvent)
    requires WriterHead(lines) == ScanOf(h, lines).previous
    ensures
      var head := WriterHead(lines);
      var forked := Some(NewEnvelope(h, first, head).chainHash);
      ScanOf(h, Run(h, lines, [ReadHead(first)] + [ReadHead(second)] + [Append(0)] + [Append(0)]).lines).issues ==
      ScanOf(h, lines).issues + if head == forked then [] else [PreviousHashMismatch(second.auditId, forked, head)]
  {
    hide Run, ScanOf, WriterHead, NewEnvelope, ListOf;
    var head := WriterHead(lines);
    var longer := lines + [Sealed(NewEnvelope(h, first, head))];
    BothReadOneAppends(h, lines, first, second);
    RunSteps(h, lines, [ReadHead(first)] + [ReadHead(second)] + [Append(0)], Append(0));
    AppendedLine(h, lines, Writing(first, head, |lines|));
    AppendedLine(h, longer, Writing(second, head, |lines|));
    LastEnvelopeIsHead(h, lines, NewEnvelope(h, first, head));
  }

  lemma LastEnvelopeIsHead(h: Hashing, lines: seq<Line>, e: Envelope)
    ensures ScanOf(h, lines + [Sealed(e)]).previous == Some(e.chainHash)
  {
  }
}
