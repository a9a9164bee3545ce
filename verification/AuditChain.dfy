/** The hash chain of the JSONL audit log: envelope, writer and verifier
    (crates/audit-log/src/lib.rs). SHA-256 in hexadecimal is any function with 64-character
    results; the JSON of an event is any injective function. */
module AuditChain {
  import opened Wrappers

  datatype AuditEvent = AuditEvent(
    auditId: string,
    actionId: string,
    actionKind: string,
    requestedBy: string,
    approvedBy: Option<string>,
    inputSummary: string,
    sideEffect: string,
    policyDecision: string,
    resultStatus: string,
    resultSummary: Option<string>,
    conversationId: Option<string>,
    messageId: Option<string>,
    timestamp: int)

  datatype Hashing = Hashing(sha: string -> string, json: AuditEvent -> string) {
    ghost predicate Valid() {
      && (forall text :: |sha(text)| == 64)
      && (forall a, b | json(a) == json(b) :: a == b)
    }

    function EventHash(event: AuditEvent): string {
      sha(json(event))
    }

    function ChainHash(previous: Option<string>, eventHash: string): string {
      sha(ChainInput(previous, eventHash))
    }

    /** Two different texts with the same hash. */
    predicate Collision(texts: (string, string)) {
      texts.0 != texts.1 && sha(texts.0) == sha(texts.1)
    }
  }

  function ChainInput(previous: Option<string>, eventHash: string): string {
    (if previous.Some? then previous.value else "") + "\n" + eventHash
  }

  datatype Envelope = Envelope(
    schemaVersion: nat,
    event: AuditEvent,
    eventHash: string,
    previousEventHash: Option<string>,
    chainHash: string)

  const CURRENT_SCHEMA_VERSION := 1

  function NewEnvelope(h: Hashing, event: AuditEvent, previous: Option<string>): Envelope {
    Envelope(CURRENT_SCHEMA_VERSION, event, h.EventHash(event), previous, h.ChainHash(previous, h.EventHash(event)))
  }

  datatype Issue =
    | ParseError(line: nat, reason: string)
    | LegacyEventWithoutIntegrity(line: nat, auditId: string)
    | EventHashMismatch(auditId: string, expectedHash: string, actualHash: string)
    | PreviousHashMismatch(auditId: string, expected: Option<string>, actual: Option<string>)
    | ChainHashMismatch(auditId: string, expectedHash: string, actualHash: string)

  /** The issues of one envelope, in the order they are pushed. */
  function EnvelopeIssues(h: Hashing, e: Envelope, expected: Option<string>): seq<Issue> {
    var eventHash := h.EventHash(e.event);
    var chainHash := h.ChainHash(e.previousEventHash, e.eventHash);
    (if e.eventHash != eventHash then [EventHashMismatch(e.event.auditId, e.eventHash, eventHash)] else []) +
    (if e.previousEventHash != expected
     then [PreviousHashMismatch(e.event.auditId, expected, e.previousEventHash)] else []) +
    (if e.chainHash != chainHash then [ChainHashMismatch(e.event.auditId, e.chainHash, chainHash)] else [])
  }

  /** A trimmed line of the file, as `parse_audit_line` reads it. */
  datatype Line = Blank | Sealed(envelope: Envelope) | Legacy(event: AuditEvent) | Garbage(reason: string)

  /** The three variables of the verifier's loop. */
  datatype Scan = Scan(issues: seq<Issue>, eventCount: nat, previous: Option<string>)

  function ScanLine(h: Hashing, s: Scan, line: Line, number: nat): Scan {
    match line
    case Blank => s
    case Sealed(e) => Scan(s.issues + EnvelopeIssues(h, e, s.previous), s.eventCount + 1, Some(e.chainHash))
    case Legacy(event) => Scan(s.issues + [LegacyEventWithoutIntegrity(number, event.auditId)], s.eventCount + 1, None)
    case Garbage(reason) => s.(issues := s.issues + [ParseError(number, reason)])
  }

  /** The forward scan of a whole file. */
  function ScanOf(h: Hashing, lines: seq<Line>): Scan {
    if lines == [] then Scan([], 0, None)
    else ScanLine(h, ScanOf(h, lines[..|lines| - 1]), lines[|lines| - 1], |lines|)
  }

  /** The writer's backward scan: the last non-blank line decides. */
  function WriterHead(lines: seq<Line>): Option<string> {
    if lines == [] then None
    else
      match lines[|lines| - 1]
      case Blank => WriterHead(lines[..|lines| - 1])
      case Sealed(e) => Some(e.chainHash)
      case Legacy(_) => None
      case Garbage(_) => None
  }

  /** The events `list` returns: any unparseable line fails it. */
  function ListOf(lines: seq<Line>): Result<seq<AuditEvent>, string> {
    if lines == [] then Ok([])
    else
      var front := ListOf(lines[..|lines| - 1]);
      if front.Err? then front
      else
        match lines[|lines| - 1]
        case Blank => front
        case Sealed(e) => Ok(front.value + [e.event])
        case Legacy(event) => Ok(front.value + [event])
        case Garbage(reason) => Err(reason)
  }

  function Recorded(h: Hashing, lines: seq<Line>, event: AuditEvent): seq<Line> {
    lines + [Sealed(NewEnvelope(h, event, WriterHead(lines)))]
  }

  datatype Report = Report(verified: bool, eventCount: nat, issues: seq<Issue>)

  /** The sink; a missing file reads like an empty one. */
  class JsonlAuditSink {
    const h: Hashing
    var lines: seq<Line>

    constructor (h: Hashing)
      ensures this.h == h && lines == []
    {
      this.h := h;
      lines := [];
    }

    method Verify() returns (report: Report)
      ensures report == Report(ScanOf(h, lines).issues == [], ScanOf(h, lines).eventCount, ScanOf(h, lines).issues)
      ensures forall issue :: issue in report.issues <==> exists k | 0 <= k < |lines| :: IsIssueAt(h, lines, k, issue)
    {
      forall issue
        ensures issue in ScanOf(h, lines).issues <==> exists k | 0 <= k < |lines| :: IsIssueAt(h, lines, k, issue)
      {
        ReportsExactly(h, lines, issue);
      }
      var issues, eventCount, previous := [], 0, None;
      for index := 0 to |lines|
        invariant Scan(issues, eventCount, previous) == ScanOf(h, lines[..index])
      {
        var lineNo := index + 1;
        assert lines[..index + 1][..index] == lines[..index];
        match lines[index] {
          case Blank =>
          case Sealed(envelope) =>
            eventCount := eventCount + 1;
            issues := issues + EnvelopeIssues(h, envelope, previous);
            previous := Some(envelope.chainHash);
          case Legacy(event) =>
            eventCount := eventCount + 1;
            issues := issues + [LegacyEventWithoutIntegrity(lineNo, event.auditId)];
            previous := None;
          case Garbage(reason) =>
            issues := issues + [ParseError(lineNo, reason)];
        }
      }
      assert lines[..|lines|] == lines;
      report := Report(issues == [], eventCount, issues);
    }

    method PreviousChainHash() returns (head: Option<string>)
      ensures head == WriterHead(lines) && IsWriterHead(lines, head)
    {
      WriterHeadIsLast(lines, WriterHead(lines));
      var i := |lines|;
      assert lines[..|lines|] == lines;
      while i > 0
        invariant 0 <= i <= |lines|
        invariant WriterHead(lines[..i]) == WriterHead(lines)
      {
        i := i - 1;
        assert lines[..i + 1][..i] == lines[..i];
        if lines[i].Blank? {
          continue;
        }
        if lines[i].Sealed? {
          return Some(lines[i].envelope.chainHash);
        }
        return None;
      }
      return None;
    }

    /** One envelope is appended, sealed under the hash that the backward scan finds. */
    method Record(event: AuditEvent)
      modifies this
      ensures lines == Recorded(h, old(lines), event)
      ensures |lines| == |old(lines)| + 1 && old(lines) <= lines && lines[|lines| - 1].Sealed?
      ensures
        var e := lines[|lines| - 1].envelope;
        && e.schemaVersion == 1 && e.event == event && IsWriterHead(old(lines), e.previousEventHash)
        && e.eventHash == h.sha(h.json(event))
        && e.chainHash ==
           h.sha((if e.previousEventHash.Some? then e.previousEventHash.value else "") + "\n" + e.eventHash)
    {
      WriterHeadIsLast(lines, WriterHead(lines));
      var previous := PreviousChainHash();
      lines := lines + [Sealed(NewEnvelope(h, event, previous))];
    }

    /** The events of all lines but the blank ones, in order, envelopes and legacy lines alike; or the
        reason of the first line that does not parse. */
    method List() returns (events: Result<seq<AuditEvent>, string>)
      ensures events == ListOf(lines)
      ensures
        match events
        case Ok(found) => ListsEvents(lines, found)
        case Err(reason) => FailsFirst(lines, reason)
    {
      ListIsTheEvents(lines);
      var found: seq<AuditEvent> := [];
      for index := 0 to |lines|
        invariant ListOf(lines[..index]) == Ok(found)
      {
        assert lines[..index + 1][..index] == lines[..index];
        match lines[index] {
          case Blank =>
          case Sealed(envelope) => found := found + [envelope.event];
          case Legacy(event) => found := found + [event];
          case Garbage(reason) =>
            ListFails(lines, index + 1);
            return Err(reason);
        }
      }
      assert lines[..|lines|] == lines;
      return Ok(found);
    }
  }

  /** The first unparseable line decides the error. */
  lemma {:induction false} ListFails(lines: seq<Line>, k: nat)
    requires k <= |lines| && ListOf(lines[..k]).Err?
    ensures ListOf(lines) == ListOf(lines[..k])
    decreases |lines|
  {
    if k < |lines| {
      assert lines[..|lines| - 1][..k] == lines[..k];
      ListFails(lines[..|lines| - 1], k);
    } else {
      assert lines[..k] == lines;
    }
  }

  // ---------------------------------------------------------------- what is listed and reported

  function NonBlank(lines: seq<Line>): nat {
    if lines == [] then 0 else NonBlank(lines[..|lines| - 1]) + if lines[|lines| - 1].Blank? then 0 else 1
  }

  /** The event of a line, sealed or legacy. */
  function EventIn(line: Line): Option<AuditEvent> {
    match line
    case Sealed(e) => Some(e.event)
    case Legacy(event) => Some(event)
    case _ => None
  }

  /** Every line parses or is blank, and the events are those of the lines that are not blank. */
  ghost predicate ListsEvents(lines: seq<Line>, events: seq<AuditEvent>) {
    && (forall k | 0 <= k < |lines| :: !lines[k].Garbage?)
    && |events| == NonBlank(lines)
    && forall k | 0 <= k < |lines| :: ListsLine(lines, k, events)
  }

  ghost predicate ListsLine(lines: seq<Line>, k: nat, events: seq<AuditEvent>)
    requires k < |lines|
  {
    !lines[k].Blank? ==>
      NonBlank(lines[..k]) < |events| && EventIn(lines[k]) == Some(events[NonBlank(lines[..k])])
  }

  /** The first line that does not parse fails with this reason. */
  ghost predicate FailsFirst(lines: seq<Line>, reason: string) {
    exists k | 0 <= k < |lines| :: lines[k] == Garbage(reason) && forall j | 0 <= j < k :: !lines[j].Garbage?
  }

  lemma OneMoreListed(lines: seq<Line>, events: seq<AuditEvent>)
    requires lines != [] && ListsEvents(lines[..|lines| - 1], events)
    ensures
      var last := lines[|lines| - 1];
      match last
      case Blank => ListsEvents(lines, events)
      case Garbage(reason) => FailsFirst(lines, reason)
      case _ => EventIn(last).Some? && ListsEvents(lines, events + [EventIn(last).value])
  {
    hide EventIn;
    var n := |lines| - 1;
    EventOfLine(lines[n]);
    var longer := events + if EventIn(lines[n]).Some? then [EventIn(lines[n]).value] else [];
    forall k | 0 <= k < n
      ensures !lines[k].Garbage? && ListsLine(lines, k, longer)
    {
      assert lines[k] == lines[..n][k];
      assert ListsLine(lines[..n], k, events);
      assert lines[..n][..k] == lines[..k];
    }
    assert events + [] == events;
  }

  lemma EventOfLine(line: Line)
    ensures line.Sealed? || line.Legacy? <==> EventIn(line).Some?
  {
  }

  lemma FailureStays(lines: seq<Line>, reason: string)
    requires lines != [] && FailsFirst(lines[..|lines| - 1], reason)
    ensures FailsFirst(lines, reason)
  {
    var n := |lines| - 1;
    var k :| 0 <= k < n && lines[..n][k] == Garbage(reason) && forall j | 0 <= j < k :: !lines[..n][j].Garbage?;
    assert lines[k] == Garbage(reason);
    assert forall j | 0 <= j < k :: lines[j] == lines[..n][j];
  }

  /** `list` fails exactly on files with a line that does not parse, with the reason of the first;
      else the k-th event is that of the k-th line that is not blank. */
  lemma {:induction false} ListIsTheEvents(lines: seq<Line>)
    ensures
      match ListOf(lines)
      case Ok(events) => ListsEvents(lines, events)
      case Err(reason) => FailsFirst(lines, reason)
  {
    hide ListsEvents, FailsFirst;
    if lines == [] {
      NothingListed();
    } else {
      ListIsTheEvents(lines[..|lines| - 1]);
      match ListOf(lines[..|lines| - 1])
      case Ok(events) => OneMoreListed(lines, events);
      case Err(reason) => FailureStays(lines, reason);
    }
  }

  lemma NothingListed()
    ensures ListsEvents([], [])
  {
  }

  /** When `list` succeeds, it returns as many events as the verifier counts. */
  lemma {:induction false} ListCountsAsVerified(h: Hashing, lines: seq<Line>)
    ensures ListOf(lines).Ok? ==> |ListOf(lines).value| == ScanOf(h, lines).eventCount
  {
    if lines != [] {
      ListCountsAsVerified(h, lines[..|lines| - 1]);
    }
  }

  /** The hash a chain continues from: that of the last line, if it is sealed; `skips` are the lines
      that do not count. */
  ghost predicate IsLastHash(lines: seq<Line>, skips: Line -> bool, head: Option<string>) {
    match head
    case Some(hash) =>
      exists k | 0 <= k < |lines| ::
        lines[k].Sealed? && lines[k].envelope.chainHash == hash && SkippedAfter(lines, k, skips)
    case None =>
      forall k | 0 <= k < |lines| && lines[k].Sealed? :: !SkippedAfter(lines, k, skips)
  }

  ghost predicate SkippedAfter(lines: seq<Line>, k: int, skips: Line -> bool) {
    forall i | 0 <= i < |lines| && k < i :: skips(lines[i])
  }

  const BLANK: Line -> bool := (line: Line) => line.Blank?

  const BLANK_OR_GARBAGE: Line -> bool := (line: Line) => line.Blank? || line.Garbage?

  ghost predicate IsWriterHead(lines: seq<Line>, head: Option<string>) {
    IsLastHash(lines, BLANK, head)
  }

  /** The verifier expects the hash of the last line that parses, if that is sealed. */
  ghost predicate IsVerifierHead(lines: seq<Line>, head: Option<string>) {
    IsLastHash(lines, BLANK_OR_GARBAGE, head)
  }

  lemma LastHashStep(lines: seq<Line>, skips: Line -> bool, head: Option<string>)
    requires lines != [] && forall line: Line | skips(line) :: !line.Sealed?
    ensures
      var last := lines[|lines| - 1];
      IsLastHash(lines, skips, head) <==>
      if last.Sealed? then head == Some(last.envelope.chainHash)
      else if skips(last) then IsLastHash(lines[..|lines| - 1], skips, head)
      else head == None
  {
    var n := |lines| - 1;
    var front := lines[..n];
    forall k | 0 <= k < n
      ensures SkippedAfter(lines, k, skips) <==> SkippedAfter(front, k, skips) && skips(lines[n])
    {
      assert forall i | 0 <= i < n :: front[i] == lines[i];
    }
    assert SkippedAfter(lines, n, skips);
    if skips(lines[n]) && !lines[n].Sealed? && IsLastHash(front, skips, head) && head.Some? {
      var k :| 0 <= k < n && front[k].Sealed? && front[k].envelope.chainHash == head.value &&
        SkippedAfter(front, k, skips);
      assert lines[k].Sealed? && SkippedAfter(lines, k, skips);
    }
  }

  lemma {:induction false} WriterHeadIsLast(lines: seq<Line>, head: Option<string>)
    ensures WriterHead(lines) == head <==> IsWriterHead(lines, head)
  {
    if lines != [] {
      WriterHeadIsLast(lines[..|lines| - 1], head);
      LastHashStep(lines, BLANK, head);
    }
  }

  lemma {:induction false} VerifierHeadIsLast(h: Hashing, lines: seq<Line>, head: Option<string>)
    ensures ScanOf(h, lines).previous == head <==> IsVerifierHead(lines, head)
  {
    if lines != [] {
      VerifierHeadIsLast(h, lines[..|lines| - 1], head);
      LastHashStep(lines, BLANK_OR_GARBAGE, head);
    }
  }

  /** What is wrong with line `k`, by the bytes of the file. */
  ghost predicate IsIssueAt(h: Hashing, lines: seq<Line>, k: nat, issue: Issue)
    requires k < |lines|
  {
    match issue
    case ParseError(number, reason) => number == k + 1 && lines[k] == Garbage(reason)
    case LegacyEventWithoutIntegrity(number, id) =>
      number == k + 1 && lines[k].Legacy? && lines[k].event.auditId == id
    case EventHashMismatch(id, expected, actual) =>
      && lines[k].Sealed? && id == lines[k].envelope.event.auditId && expected == lines[k].envelope.eventHash
      && actual == h.sha(h.json(lines[k].envelope.event)) && expected != actual
    case PreviousHashMismatch(id, expected, actual) =>
      && lines[k].Sealed? && id == lines[k].envelope.event.auditId
      && IsVerifierHead(lines[..k], expected) && actual == lines[k].envelope.previousEventHash && expected != actual
    case ChainHashMismatch(id, expected, actual) =>
      && lines[k].Sealed? && id == lines[k].envelope.event.auditId && expected == lines[k].envelope.chainHash
      && actual == h.sha((match lines[k].envelope.previousEventHash case Some(p) => p case None => "") + "\n" +
                         lines[k].envelope.eventHash)
      && expected != actual
  }

  /** The verifier reports exactly what is wrong. */
  lemma {:induction false} ReportsExactly(h: Hashing, lines: seq<Line>, issue: Issue)
    ensures issue in ScanOf(h, lines).issues <==> exists k | 0 <= k < |lines| :: IsIssueAt(h, lines, k, issue)
  {
    if lines != [] {
      hide IsVerifierHead;
      var n := |lines| - 1;
      var front := lines[..n];
      ReportsExactly(h, front, issue);
      forall k | 0 <= k < n
        ensures IsIssueAt(h, lines, k, issue) <==> IsIssueAt(h, front, k, issue)
      {
        assert front[..k] == lines[..k];
      }
      NewIssues(h, lines, issue);
    }
  }

  lemma EnvelopeReports(h: Hashing, e: Envelope, head: Option<string>, issue: Issue)
    ensures issue in EnvelopeIssues(h, e, head) <==>
      match issue
      case EventHashMismatch(id, expected, actual) =>
        id == e.event.auditId && expected == e.eventHash && actual == h.sha(h.json(e.event)) && expected != actual
      case PreviousHashMismatch(id, expected, actual) =>
        id == e.event.auditId && expected == head && actual == e.previousEventHash && expected != actual
      case ChainHashMismatch(id, expected, actual) =>
        && id == e.event.auditId && expected == e.chainHash && expected != actual
        && actual == h.sha((match e.previousEventHash case Some(p) => p case None => "") + "\n" + e.eventHash)
      case _ => false
  {
    hide ChainInput;
    var chained := (match e.previousEventHash case Some(p) => p case None => "") + "\n" + e.eventHash;
    assert ChainInput(e.previousEventHash, e.eventHash) == chained by {
      ChainInputUnfold(e.previousEventHash, e.eventHash);
    }
  }

  lemma ChainInputUnfold(previous: Option<string>, eventHash: string)
    ensures ChainInput(previous, eventHash) == (match previous case Some(p) => p case None => "") + "\n" + eventHash
  {
  }

  lemma NewIssues(h: Hashing, lines: seq<Line>, issue: Issue)
    requires lines != []
    ensures
      var n := |lines| - 1;
      issue in ScanOf(h, lines).issues <==>
      issue in ScanOf(h, lines[..n]).issues || IsIssueAt(h, lines, n, issue)
  {
    hide IsVerifierHead, EnvelopeIssues;
    var n := |lines| - 1;
    if lines[n].Sealed? {
      EnvelopeReports(h, lines[n].envelope, ScanOf(h, lines[..n]).previous, issue);
    }
    if issue.PreviousHashMismatch? {
      VerifierHeadIsLast(h, lines[..n], issue.expected);
    }
  }

  // ---------------------------------------------------------------- writer against verifier

  predicate LastLineUnparseable(lines: seq<Line>) {
    lines != [] &&
    if lines[|lines| - 1].Blank? then LastLineUnparseable(lines[..|lines| - 1]) else lines[|lines| - 1].Garbage?
  }

  /** The two scans agree on the head unless the last non-blank line does not parse while the
      forward scan still carries a hash over it. */
  lemma {:induction false} ScansAgree(h: Hashing, lines: seq<Line>)
    ensures WriterHead(lines) == ScanOf(h, lines).previous <==>
            !(LastLineUnparseable(lines) && ScanOf(h, lines).previous.Some?)
    ensures LastLineUnparseable(lines) ==> WriterHead(lines).None?
  {
    if lines != [] && lines[|lines| - 1].Blank? {
      ScansAgree(h, lines[..|lines| - 1]);
    }
  }

  lemma RecordOnce(h: Hashing, lines: seq<Line>, event: AuditEvent)
    ensures
      var before := ScanOf(h, lines);
      var after := ScanOf(h, Recorded(h, lines, event));
      && after.eventCount == before.eventCount + 1
      && after.issues == before.issues +
         (if LastLineUnparseable(lines) && before.previous.Some?
          then [PreviousHashMismatch(event.auditId, before.previous, None)] else [])
    ensures
      ListOf(Recorded(h, lines, event)) ==
      if ListOf(lines).Ok? then Ok(ListOf(lines).value + [event]) else ListOf(lines)
    ensures !LastLineUnparseable(Recorded(h, lines, event))
  {
    var longer := Recorded(h, lines, event);
    assert longer[..|lines|] == lines;
    ScansAgree(h, lines);
    var before := ScanOf(h, lines);
    assert before.issues + [] == before.issues;
  }

  function RecordedAll(h: Hashing, lines: seq<Line>, events: seq<AuditEvent>): seq<Line>
    decreases |events|
  {
    if events == [] then lines else RecordedAll(h, Recorded(h, lines, events[0]), events[1..])
  }

  /** Recording any events raises the verifier's count by their number, makes `list` return the
      old events followed by the new ones (or fail as it did), and leaves the reported issues as
      they were -- except when the last non-blank line did not parse and a chain was running
      before it: then exactly one mismatch is added, at the first new event. */
  lemma {:induction false} WriterAndVerifierAgree(h: Hashing, lines: seq<Line>, events: seq<AuditEvent>)
    ensures
      var before := ScanOf(h, lines);
      var after := ScanOf(h, RecordedAll(h, lines, events));
      && after.eventCount == before.eventCount + |events|
      && after.issues == before.issues +
         if events != [] && LastLineUnparseable(lines) && before.previous.Some?
         then [PreviousHashMismatch(events[0].auditId, before.previous, None)] else []
    ensures
      ListOf(RecordedAll(h, lines, events)) ==
      if ListOf(lines).Ok? then Ok(ListOf(lines).value + events) else ListOf(lines)
    decreases |events|
  {
    hide ScanOf, ListOf, LastLineUnparseable, Recorded;
    var before := ScanOf(h, lines);
    if events == [] {
      assert before.issues + [] == before.issues;
      assert ListOf(lines).Ok? ==> ListOf(lines).value + events == ListOf(lines).value;
    } else {
      RecordOnce(h, lines, events[0]);
      WriterAndVerifierAgree(h, Recorded(h, lines, events[0]), events[1..]);
      assert events == [events[0]] + events[1..];
      assert ListOf(lines).Ok? ==>
          ListOf(lines).value + [events[0]] + events[1..] == ListOf(lines).value + events;
      assert before.issues + [] == before.issues;
    }
  }

  /** So recording adds no issue exactly when the two scans start in agreement. */
  lemma NoIssueIsAddedExactlyWhenScansAgree(h: Hashing, lines: seq<Line>, events: seq<AuditEvent>)
    requires events != []
    ensures ScanOf(h, RecordedAll(h, lines, events)).issues == ScanOf(h, lines).issues <==>
            !(LastLineUnparseable(lines) && ScanOf(h, lines).previous.Some?)
  {
    WriterAndVerifierAgree(h, lines, events);
  }

  /** One torn line after a good one is enough to make the next record look tampered with. */
  lemma UnparseableLineBreaksTheChain(h: Hashing, first: AuditEvent, next: AuditEvent)
    ensures
      var torn := Recorded(h, [], first) + [Garbage("eof")];
      ScanOf(h, Recorded(h, torn, next)).issues ==
      [ParseError(2, "eof"), PreviousHashMismatch(next.auditId, Some(NewEnvelope(h, first, None).chainHash), None)]
  {
    hide ScanOf;
    var good := Recorded(h, [], first);
    var torn := good + [Garbage("eof")];
    RecordOnce(h, [], first);
    assert torn[..1] == good;
    ScanUnfold(h, torn);
    ScanUnfold(h, good);
    ScanUnfold(h, []);
    RecordOnce(h, torn, next);
  }

  lemma ScanUnfold(h: Hashing, lines: seq<Line>)
    ensures ScanOf(h, lines) ==
            if lines == [] then Scan([], 0, None)
            else ScanLine(h, ScanOf(h, lines[..|lines| - 1]), lines[|lines| - 1], |lines|)
  {
  }

  // ---------------------------------------------------------------- what the head binds

  /** The envelopes of a file, in order. */
  function EnvelopesOf(lines: seq<Line>): seq<Envelope> {
    if lines == [] then []
    else
      EnvelopesOf(lines[..|lines| - 1]) +
      if lines[|lines| - 1].Sealed? then [lines[|lines| - 1].envelope] else []
  }

  function EventsIn(envelopes: seq<Envelope>): (events: seq<AuditEvent>)
    ensures |events| == |envelopes|
    ensures forall i | 0 <= i < |events| :: events[i] == envelopes[i].event
  {
    seq(|envelopes|, i requires 0 <= i < |envelopes| => envelopes[i].event)
  }

  function HeadOf(envelopes: seq<Envelope>): Option<string> {
    if envelopes == [] then None else Some(envelopes[|envelopes| - 1].chainHash)
  }

  /** The envelope is the one the writer makes from its event and this hash. */
  predicate Linked(h: Hashing, e: Envelope, head: Option<string>) {
    && e.previousEventHash == head && e.eventHash == h.EventHash(e.event)
    && e.chainHash == h.ChainHash(e.previousEventHash, e.eventHash)
  }

  lemma NoIssueExactlyWhenLinked(h: Hashing, e: Envelope, head: Option<string>)
    ensures EnvelopeIssues(h, e, head) == [] <==> Linked(h, e, head)
  {
  }

  /** Every envelope is linked to its predecessor. */
  ghost predicate Chained(h: Hashing, envelopes: seq<Envelope>) {
    forall i | 0 <= i < |envelopes| :: Linked(h, envelopes[i], HeadOf(envelopes[..i]))
  }

  lemma ChainedFront(h: Hashing, envelopes: seq<Envelope>)
    requires envelopes != []
    ensures Chained(h, envelopes) <==>
      && Chained(h, envelopes[..|envelopes| - 1])
      && Linked(h, envelopes[|envelopes| - 1], HeadOf(envelopes[..|envelopes| - 1]))
  {
    hide Linked, HeadOf;
    var front := envelopes[..|envelopes| - 1];
    assert forall i | 0 <= i < |front| :: front[..i] == envelopes[..i];
  }

  ghost predicate OnlyEnvelopes(lines: seq<Line>) {
    forall i | 0 <= i < |lines| :: lines[i].Blank? || lines[i].Sealed?
  }

  /** The verifier reports no issue exactly on files of envelopes (and blank lines) that form one
      chain; then its count, its last hash and `list` are those of the chain. */
  lemma {:induction false} CleanExactlyWhenChained(h: Hashing, lines: seq<Line>)
    ensures ScanOf(h, lines).issues == [] <==> OnlyEnvelopes(lines) && Chained(h, EnvelopesOf(lines))
    ensures OnlyEnvelopes(lines) ==>
      && ScanOf(h, lines).previous == HeadOf(EnvelopesOf(lines))
      && ScanOf(h, lines).eventCount == |EnvelopesOf(lines)|
      && ListOf(lines) == Ok(EventsIn(EnvelopesOf(lines)))
  {
    hide EnvelopeIssues, Chained, EventsIn, OnlyEnvelopes;
    if lines == [] {
      EmptyChain(h);
    } else {
      var last := lines[|lines| - 1];
      CleanExactlyWhenChained(h, lines[..|lines| - 1]);
      OnlyEnvelopesFront(lines);
      if last.Sealed? {
        EnvelopesGrow(h, lines);
        NoIssueExactlyWhenLinked(h, last.envelope, ScanOf(h, lines[..|lines| - 1]).previous);
      } else {
        assert EnvelopesOf(lines) == EnvelopesOf(lines[..|lines| - 1]);
      }
    }
  }

  lemma EmptyChain(h: Hashing)
    ensures OnlyEnvelopes([]) && Chained(h, []) && EventsIn([]) == []
  {
  }

  lemma OnlyEnvelopesFront(lines: seq<Line>)
    requires lines != []
    ensures OnlyEnvelopes(lines) <==>
            OnlyEnvelopes(lines[..|lines| - 1]) && (lines[|lines| - 1].Blank? || lines[|lines| - 1].Sealed?)
  {
    assert lines == lines[..|lines| - 1] + [lines[|lines| - 1]];
  }

  lemma EnvelopesGrow(h: Hashing, lines: seq<Line>)
    requires lines != [] && lines[|lines| - 1].Sealed?
    ensures
      var front, e := EnvelopesOf(lines[..|lines| - 1]), lines[|lines| - 1].envelope;
      && EnvelopesOf(lines) == front + [e] && HeadOf(EnvelopesOf(lines)) == Some(e.chainHash)
      && EventsIn(EnvelopesOf(lines)) == EventsIn(front) + [e.event]
      && (Chained(h, EnvelopesOf(lines)) <==> Chained(h, front) && Linked(h, e, HeadOf(front)))
  {
    hide Chained, Linked, EventsIn;
    ChainGrows(h, EnvelopesOf(lines[..|lines| - 1]), lines[|lines| - 1].envelope);
  }

  lemma ChainGrows(h: Hashing, front: seq<Envelope>, e: Envelope)
    ensures EventsIn(front + [e]) == EventsIn(front) + [e.event]
    ensures Chained(h, front + [e]) <==> Chained(h, front) && Linked(h, e, HeadOf(front))
  {
    hide Linked, HeadOf;
    assert (front + [e])[..|front|] == front;
    ChainedFront(h, front + [e]);
  }

  /** Two texts to compare when two chains with the same head hold different events: walking both
      back from the end, the first pair of hash inputs that differ. */
  function DifferingInputs(h: Hashing, a: seq<Envelope>, b: seq<Envelope>): Option<(string, string)> {
    if a == [] || b == [] then None
    else
      var ea, eb := a[|a| - 1], b[|b| - 1];
      var chainA := ChainInput(ea.previousEventHash, ea.eventHash);
      var chainB := ChainInput(eb.previousEventHash, eb.eventHash);
      if chainA != chainB then Some((chainA, chainB))
      else if h.json(ea.event) != h.json(eb.event) then Some((h.json(ea.event), h.json(eb.event)))
      else DifferingInputs(h, a[..|a| - 1], b[..|b| - 1])
  }

  /** Equal chain inputs come from equal hashes: the event hash is the last 64 characters, and no
      chain hash is empty. */
  lemma ChainInputIsInjective(p: Option<string>, q: Option<string>, a: string, b: string)
    requires |a| == 64 && |b| == 64
    requires p.Some? ==> |p.value| == 64
    requires q.Some? ==> |q.value| == 64
    requires ChainInput(p, a) == ChainInput(q, b)
    ensures p == q && a == b
  {
    var x, y := ChainInput(p, a), ChainInput(q, b);
    assert x[|x| - 64..] == a && y[|y| - 64..] == b;
    assert |x| == |y|;
    assert p.Some? ==> x[..64] == p.value;
    assert q.Some? ==> y[..64] == q.value;
  }

  /** Two last envelopes made from the same chain input point back to the same head. */
  lemma SameLastLink(h: Hashing, a: seq<Envelope>, b: seq<Envelope>)
    requires h.Valid() && Chained(h, a) && Chained(h, b) && a != [] && b != []
    requires
      ChainInput(a[|a| - 1].previousEventHash, a[|a| - 1].eventHash) ==
      ChainInput(b[|b| - 1].previousEventHash, b[|b| - 1].eventHash)
    ensures HeadOf(a[..|a| - 1]) == HeadOf(b[..|b| - 1])
    ensures h.EventHash(a[|a| - 1].event) == h.EventHash(b[|b| - 1].event)
  {
    hide Chained, ChainInput;
    ChainedFront(h, a);
    ChainedFront(h, b);
    HeadHasHashLength(h, a[..|a| - 1]);
    HeadHasHashLength(h, b[..|b| - 1]);
    ChainInputIsInjective(a[|a| - 1].previousEventHash, b[|b| - 1].previousEventHash,
                          a[|a| - 1].eventHash, b[|b| - 1].eventHash);
  }

  lemma LastEvent(envelopes: seq<Envelope>)
    requires envelopes != []
    ensures EventsIn(envelopes) == EventsIn(envelopes[..|envelopes| - 1]) + [envelopes[|envelopes| - 1].event]
  {
  }

  lemma {:induction false} ChainsWithOneHead(h: Hashing, a: seq<Envelope>, b: seq<Envelope>)
    requires h.Valid() && Chained(h, a) && Chained(h, b) && HeadOf(a) == HeadOf(b)
    ensures DifferingInputs(h, a, b).None? ==> EventsIn(a) == EventsIn(b)
    ensures DifferingInputs(h, a, b).Some? ==> h.Collision(DifferingInputs(h, a, b).value)
    decreases |a|
  {
    hide Chained, ChainInput, EventsIn;
    if a != [] && b != [] {
      var ea, eb := a[|a| - 1], b[|b| - 1];
      ChainedFront(h, a);
      ChainedFront(h, b);
      if ChainInput(ea.previousEventHash, ea.eventHash) == ChainInput(eb.previousEventHash, eb.eventHash) {
        SameLastLink(h, a, b);
        if h.json(ea.event) == h.json(eb.event) {
          ChainsWithOneHead(h, a[..|a| - 1], b[..|b| - 1]);
          LastEvent(a);
          LastEvent(b);
        }
      }
    }
  }

  lemma HeadHasHashLength(h: Hashing, envelopes: seq<Envelope>)
    requires h.Valid() && Chained(h, envelopes)
    ensures HeadOf(envelopes).Some? ==> |HeadOf(envelopes).value| == 64
  {
  }

  /** The chain head binds the whole history: two files that verify with no issue and end in the
      same chain hash hold the same events in the same order and number, or the two files
      themselves exhibit two different texts with one hash. */
  lemma ChainHeadBindsTheHistory(h: Hashing, a: seq<Line>, b: seq<Line>)
    requires h.Valid()
    requires ScanOf(h, a).issues == [] && ScanOf(h, b).issues == []
    requires ScanOf(h, a).previous == ScanOf(h, b).previous
    ensures
      var texts := DifferingInputs(h, EnvelopesOf(a), EnvelopesOf(b));
      if texts.Some? then h.Collision(texts.value)
      else ListOf(a).Ok? && ListOf(a) == ListOf(b) && ScanOf(h, a).eventCount == ScanOf(h, b).eventCount
  {
    CleanExactlyWhenChained(h, a);
    CleanExactlyWhenChained(h, b);
    ChainsWithOneHead(h, EnvelopesOf(a), EnvelopesOf(b));
  }

  lemma {:induction false} HeadIsAFunctionOfEvents(h: Hashing, a: seq<Envelope>, b: seq<Envelope>)
    requires Chained(h, a) && Chained(h, b) && EventsIn(a) == EventsIn(b)
    ensures HeadOf(a) == HeadOf(b)
    decreases |a|
  {
    if a != [] {
      var frontA, frontB := a[..|a| - 1], b[..|b| - 1];
      ChainedFront(h, a);
      ChainedFront(h, b);
      assert EventsIn(frontA) == EventsIn(a)[..|frontA|];
      assert EventsIn(frontB) == EventsIn(b)[..|frontB|];
      HeadIsAFunctionOfEvents(h, frontA, frontB);
      assert a[|a| - 1].event == EventsIn(a)[|a| - 1] == b[|b| - 1].event;
    }
  }

  /** The other direction: clean files with the same events end in the same hash. */
  lemma SameHistorySameHead(h: Hashing, a: seq<Line>, b: seq<Line>)
    requires ScanOf(h, a).issues == [] && ScanOf(h, b).issues == []
    requires ListOf(a) == ListOf(b)
    ensures ScanOf(h, a).previous == ScanOf(h, b).previous
  {
    CleanExactlyWhenChained(h, a);
    CleanExactlyWhenChained(h, b);
    HeadIsAFunctionOfEvents(h, EnvelopesOf(a), EnvelopesOf(b));
  }

  // ---------------------------------------------------------------- tampering

  lemma CleanFront(h: Hashing, lines: seq<Line>)
    requires lines != [] && ScanOf(h, lines).issues == []
    ensures ScanOf(h, lines[..|lines| - 1]).issues == [] && !lines[|lines| - 1].Legacy? && !lines[|lines| - 1].Garbage?
    ensures lines[|lines| - 1].Sealed? ==>
        EnvelopeIssues(h, lines[|lines| - 1].envelope, ScanOf(h, lines[..|lines| - 1]).previous) == []
  {
    var front := ScanOf(h, lines[..|lines| - 1]).issues;
    assert |ScanOf(h, lines).issues| >= |front|;
  }

  /** Replacing the event inside one envelope of a clean file is reported at that envelope and
      nowhere else -- or the two events share a hash and nothing is reported at all. */
  lemma {:induction false} TamperedEventIsReported(h: Hashing, lines: seq<Line>, k: nat, event: AuditEvent)
    requires ScanOf(h, lines).issues == [] && k < |lines| && lines[k].Sealed?
    ensures
      var envelope := lines[k].envelope;
      var found := if h.EventHash(event) == envelope.eventHash then []
                   else [EventHashMismatch(event.auditId, envelope.eventHash, h.EventHash(event))];
      ScanOf(h, lines[k := Sealed(envelope.(event := event))]) == ScanOf(h, lines).(issues := found)
  {
    var n := |lines| - 1;
    var tampered := lines[k := Sealed(lines[k].envelope.(event := event))];
    CleanFront(h, lines);
    if k == n {
      assert tampered[..n] == lines[..n];
    } else {
      assert tampered[..n] == lines[..n][k := Sealed(lines[k].envelope.(event := event))];
      TamperedEventIsReported(h, lines[..n], k, event);
    }
  }

  lemma {:induction false} BlankLinesChangeNothing(h: Hashing, lines: seq<Line>, blanks: seq<Line>)
    requires forall i | 0 <= i < |blanks| :: blanks[i].Blank?
    ensures ScanOf(h, lines + blanks) == ScanOf(h, lines)
  {
    if blanks == [] {
      assert lines + blanks == lines;
    } else {
      assert (lines + blanks)[..|lines| + |blanks| - 1] == lines + blanks[..|blanks| - 1];
      BlankLinesChangeNothing(h, lines, blanks[..|blanks| - 1]);
    }
  }

  /** Removing an envelope from a clean file is reported at the next envelope and nowhere else. */
  lemma {:induction false} RemovedEnvelopeIsReported(h: Hashing, lines: seq<Line>, k: nat, next: nat)
    requires ScanOf(h, lines).issues == [] && k < next < |lines| && lines[k].Sealed? && lines[next].Sealed?
    requires forall i | k < i < next :: lines[i].Blank?
    ensures
      var before := ScanOf(h, lines[..k]).previous;
      var removed := Some(lines[k].envelope.chainHash);
      ScanOf(h, lines[..k] + lines[k + 1..]).issues ==
      if before == removed then [] else [PreviousHashMismatch(lines[next].envelope.event.auditId, before, removed)]
    ensures ScanOf(h, lines[..k] + lines[k + 1..]).previous == ScanOf(h, lines).previous
    decreases |lines|
  {
    hide ScanOf;
    var n := |lines| - 1;
    var shorter := lines[..k] + lines[k + 1..];
    var front := lines[..n];
    CleanFront(h, lines);
    ScanUnfold(h, lines);
    ScanUnfold(h, shorter);
    if next < n {
      assert shorter[..n - 1] == front[..k] + front[k + 1..];
      assert front[..k] == lines[..k];
      RemovedEnvelopeIsReported(h, front, k, next);
    } else {
      assert shorter[..n - 1] == lines[..k] + lines[k + 1..n];
      BlankLinesChangeNothing(h, lines[..k], lines[k + 1..n]);
      assert front == lines[..k + 1] + lines[k + 1..n];
      BlankLinesChangeNothing(h, lines[..k + 1], lines[k + 1..n]);
      ScanUnfold(h, lines[..k + 1]);
      assert lines[..k + 1][..k] == lines[..k];
      CleanPrefix(h, lines, k);
    }
  }

  /** Cutting off the end is not reported: every beginning of a clean file is clean. */
  lemma {:induction false} CleanPrefix(h: Hashing, lines: seq<Line>, k: nat)
    requires ScanOf(h, lines).issues == [] && k <= |lines|
    ensures ScanOf(h, lines[..k]).issues == []
    decreases |lines|
  {
    if k < |lines| {
      CleanFront(h, lines);
      assert lines[..|lines| - 1][..k] == lines[..k];
      CleanPrefix(h, lines[..|lines| - 1], k);
    } else {
      assert lines[..k] == lines;
    }
  }
}
