/** What is computed from a journal's events: the recovery report of the run journal and the
    grouping of kernel events (crates/agent-runtime/src/run_journal.rs,
    crates/agentos-kernel/src/event_store.rs). */
module EventReports {
  import opened Wrappers
  import opened Ordering
  import opened EventLog

  datatype RunEventKind =
    | RunRequested | RunStarted
    | ModelCallStarted | ModelCallCompleted | ModelCallFailed
    | ToolCallRequested | ApprovalRequested | ApprovalGranted | ApprovalDenied
    | ToolCallStarted | ToolCallCompleted | ToolCallFailed
    | AssistantOutputDelta | AssistantOutputFinalized
    | RunCompleted | RunFailed | RunCancelled | RunTimedOut
    | RetryScheduled | RecoveryCheckpointed | RecoveryNeeded

  datatype RecoveryAction = Resume | RestorePendingApproval | NeedsInspection | MarkCancelledAfterRestart

  datatype RunEvent = RunEvent(runId: string, kind: RunEventKind)

  datatype RecoverableRun = RecoverableRun(runId: string, lastKind: RunEventKind, action: RecoveryAction)

  predicate IsTerminalKind(kind: RunEventKind) {
    kind.RunCompleted? || kind.RunFailed? || kind.RunCancelled? || kind.RunTimedOut?
  }

  function ActionFor(kind: RunEventKind): Option<RecoveryAction> {
    match kind
    case RunCompleted | RunFailed | RunCancelled | RunTimedOut => None
    case ApprovalRequested => Some(RestorePendingApproval)
    case ToolCallStarted | ToolCallRequested | ApprovalGranted => Some(NeedsInspection)
    case RunStarted | ModelCallStarted | AssistantOutputDelta => Some(MarkCancelledAfterRestart)
    case _ => Some(Resume)
  }

  /** What a run's last event calls for: nothing once it ended, its approval back if it waits for one, a
      look if a tool may have run or be about to, an end if the model was at work, else going on. */
  lemma ActionByKind(kind: RunEventKind)
    ensures ActionFor(kind).None? <==> kind in {RunCompleted, RunFailed, RunCancelled, RunTimedOut}
    ensures ActionFor(kind) == Some(RestorePendingApproval) <==> kind == ApprovalRequested
    ensures ActionFor(kind) == Some(NeedsInspection) <==> kind in {ToolCallRequested, ToolCallStarted, ApprovalGranted}
    ensures ActionFor(kind) == Some(MarkCancelledAfterRestart) <==>
            kind in {RunStarted, ModelCallStarted, AssistantOutputDelta}
    ensures ActionFor(kind) == Some(Resume) <==>
            kind in {RunRequested, ModelCallCompleted, ModelCallFailed, ApprovalDenied, ToolCallCompleted,
                     ToolCallFailed, AssistantOutputFinalized, RetryScheduled, RecoveryCheckpointed, RecoveryNeeded}
    ensures IsTerminalKind(kind) <==> ActionFor(kind).None?
  {
  }

  /** The event at `k` is its run's last. */
  ghost predicate IsLastOfItsRun(events: seq<Event<RunEvent>>, k: nat)
    requires k < |events|
  {
    forall j | k < j < |events| :: events[j].content.runId != events[k].content.runId
  }

  function RunIds(events: seq<Event<RunEvent>>): set<string> {
    set i | 0 <= i < |events| :: events[i].content.runId
  }

  /** Run ids strictly increase along the report. */
  ghost predicate SortedByRun(report: seq<RecoverableRun>) {
    forall i, j | 0 <= i < j < |report| :: Lt(Key(0, report[i].runId), Key(0, report[j].runId))
  }

  /** The event recorded for each run is the last one the run has. */
  ghost predicate LatestOf(events: seq<Event<RunEvent>>, latest: map<string, Event<RunEvent>>) {
    && latest.Keys == RunIds(events)
    && forall id | id in latest ::
         exists k | 0 <= k < |events| ::
           events[k] == latest[id] && events[k].content.runId == id && IsLastOfItsRun(events, k)
  }

  lemma LatestOfAppend(events: seq<Event<RunEvent>>, latest: map<string, Event<RunEvent>>, e: Event<RunEvent>)
    requires LatestOf(events, latest)
    ensures LatestOf(events + [e], latest[e.content.runId := e])
  {
    var longer := events + [e];
    var updated := latest[e.content.runId := e];
    assert longer[|events|] == e;
    assert forall i | 0 <= i < |events| :: longer[i] == events[i];
    assert RunIds(longer) == RunIds(events) + {e.content.runId} by {
      forall id
        ensures id in RunIds(longer) <==> id in RunIds(events) + {e.content.runId}
      {
        if id in RunIds(events) {
          var i :| 0 <= i < |events| && events[i].content.runId == id;
          assert longer[i].content.runId == id;
        }
      }
    }
    forall id | id in updated
      ensures exists k | 0 <= k < |longer| ::
          longer[k] == updated[id] && longer[k].content.runId == id && IsLastOfItsRun(longer, k)
    {
      if id == e.content.runId {
        assert IsLastOfItsRun(longer, |events|);
      } else {
        var k :| 0 <= k < |events| && events[k] == latest[id] && events[k].content.runId == id
          && IsLastOfItsRun(events, k);
        assert IsLastOfItsRun(longer, k);
      }
    }
  }

  /** The first loop of `build_recovery_report`. */
  method LatestByRun(events: seq<Event<RunEvent>>) returns (latest: map<string, Event<RunEvent>>)
    ensures LatestOf(events, latest)
  {
    latest := map[];
    for i := 0 to |events|
      invariant LatestOf(events[..i], latest)
    {
      LatestOfAppend(events[..i], latest, events[i]);
      assert events[..i + 1] == events[..i] + [events[i]];
      latest := latest[events[i].content.runId := events[i]];
    }
    assert events[..|events|] == events;
  }

  /** What the `filter_map` over the latest events collects from runs listed in some order. */
  function EntriesOf(ids: seq<string>, latest: map<string, Event<RunEvent>>): seq<RecoverableRun>
    requires forall id | id in ids :: id in latest
  {
    if ids == [] then []
    else
      var front := ids[..|ids| - 1];
      var id := ids[|ids| - 1];
      var action := ActionFor(latest[id].content.kind);
      EntriesOf(front, latest) +
      if action.None? then [] else [RecoverableRun(id, latest[id].content.kind, action.value)]
  }

  predicate Names(report: seq<RecoverableRun>, id: string) {
    exists r | r in report :: r.runId == id
  }

  /** Each entry describes its run's latest event. */
  lemma {:induction false} EntriesDescribeLatest(ids: seq<string>, latest: map<string, Event<RunEvent>>)
    requires forall id | id in ids :: id in latest
    ensures forall r | r in EntriesOf(ids, latest) ::
        r.runId in ids && r.lastKind == latest[r.runId].content.kind && ActionFor(r.lastKind) == Some(r.action)
  {
    if ids != [] {
      EntriesDescribeLatest(ids[..|ids| - 1], latest);
    }
  }

  /** A listed run has an entry exactly when its latest event does not end it. */
  lemma {:induction false} EntriesNameUnfinished(ids: seq<string>, latest: map<string, Event<RunEvent>>, id: string)
    requires forall other | other in ids :: other in latest
    requires id in ids
    ensures Names(EntriesOf(ids, latest), id) <==> !IsTerminalKind(latest[id].content.kind)
  {
    EntriesDescribeLatest(ids, latest);
    var front := ids[..|ids| - 1];
    var entries := EntriesOf(ids, latest);
    if id in front {
      EntriesNameUnfinished(front, latest, id);
      assert EntriesOf(front, latest) <= entries;
      if r :| r in EntriesOf(front, latest) && r.runId == id {
        assert r in entries;
      }
    } else if !IsTerminalKind(latest[id].content.kind) {
      assert entries[|entries| - 1].runId == id;
    }
  }

  lemma {:induction false} EntriesAreSorted(ids: seq<string>, latest: map<string, Event<RunEvent>>)
    requires forall id | id in ids :: id in latest
    requires forall i, j | 0 <= i < j < |ids| :: Lt(Key(0, ids[i]), Key(0, ids[j]))
    ensures SortedByRun(EntriesOf(ids, latest))
  {
    if ids != [] {
      var front := ids[..|ids| - 1];
      EntriesAreSorted(front, latest);
      EntriesDescribeLatest(front, latest);
      var entries := EntriesOf(front, latest);
      forall j | 0 <= j < |entries|
        ensures Lt(Key(0, entries[j].runId), Key(0, ids[|ids| - 1]))
      {
        assert entries[j] in entries;
      }
    }
  }

  /** The report names, in run order and once each, exactly the runs whose last event does not
      end them, each with that event's kind and the action the kind calls for. */
  method BuildRecoveryReport(events: seq<Event<RunEvent>>) returns (report: seq<RecoverableRun>)
    ensures SortedByRun(report)
    ensures forall k | 0 <= k < |events| && IsLastOfItsRun(events, k) ::
        Names(report, events[k].content.runId) <==> !IsTerminalKind(events[k].content.kind)
    ensures forall r | r in report ::
        exists k | 0 <= k < |events| && IsLastOfItsRun(events, k) ::
          events[k].content == RunEvent(r.runId, r.lastKind) && ActionFor(r.lastKind) == Some(r.action)
  {
    hide IdsInOrder, SortedByRun, EntriesOf, Names, IsTerminalKind, ActionFor;
    var latest := LatestByRun(events);
    var ids := SortIds(latest.Keys);
    IdsInOrderAreTheIds(latest.Keys);
    report := EntriesOf(ids, latest);
    EntriesAreSorted(ids, latest);
    EntriesDescribeLatest(ids, latest);
    forall k | 0 <= k < |events| && IsLastOfItsRun(events, k)
      ensures Names(report, events[k].content.runId) <==> !IsTerminalKind(events[k].content.kind)
    {
      LastEventIsLatest(events, latest, k);
      EntriesNameUnfinished(ids, latest, events[k].content.runId);
    }
  }

  lemma LastEventIsLatest(events: seq<Event<RunEvent>>, latest: map<string, Event<RunEvent>>, k: nat)
    requires k < |events| && LatestOf(events, latest) && IsLastOfItsRun(events, k)
    ensures events[k].content.runId in latest && latest[events[k].content.runId] == events[k]
  {
    var id := events[k].content.runId;
    assert id in RunIds(events);
    var n :| 0 <= n < |events| && events[n] == latest[id] && events[n].content.runId == id && IsLastOfItsRun(events, n);
  }

  // ---------------------------------------------------------------- grouping

  /** The filter behind `events_for_aggregate`. */
  ghost function EventsFor<A, T>(aggregateOf: T -> A, events: seq<Event<T>>, aggregate: A): seq<Event<T>> {
    if events == [] then []
    else
      var last := events[|events| - 1];
      EventsFor(aggregateOf, events[..|events| - 1], aggregate) +
      if aggregateOf(last.content) == aggregate then [last] else []
  }

  /** The events of an aggregate are selected, all of them and in order: the one at place `k` stands
      behind those selected before it, and nothing else is selected. */
  lemma {:induction false} EventsForSelects<A, T>(aggregateOf: T -> A, events: seq<Event<T>>, aggregate: A, k: nat)
    requires k < |events|
    ensures
      var selected, before := EventsFor(aggregateOf, events, aggregate), EventsFor(aggregateOf, events[..k], aggregate);
      && (forall e | e in selected :: aggregateOf(e.content) == aggregate)
      && |before| <= |selected| && before == selected[..|before|]
      && (aggregateOf(events[k].content) == aggregate ==> |before| < |selected| && selected[|before|] == events[k])
      && (k == 0 ==> before == [])
      && (k == |events| - 1 ==>
            |selected| == |before| + if aggregateOf(events[k].content) == aggregate then 1 else 0)
    decreases |events|
  {
    var front := events[..|events| - 1];
    if k < |front| {
      assert front[..k] == events[..k];
      EventsForSelects(aggregateOf, front, aggregate, k);
    } else {
      assert events[..k] == front;
      if front != [] {
        EventsForSelects(aggregateOf, front, aggregate, |front| - 1);
      }
    }
  }

  ghost predicate Occurs<A, T>(aggregateOf: T -> A, events: seq<Event<T>>, aggregate: A) {
    exists i | 0 <= i < |events| :: aggregateOf(events[i].content) == aggregate
  }

  /** Grouping agrees with selecting: every aggregate that occurs has a group, no other has, and
      its group is what `events_for_aggregate` selects, in order. */
  ghost predicate GroupsOf<A(!new), T>(aggregateOf: T -> A, events: seq<Event<T>>, grouped: map<A, seq<Event<T>>>) {
    && (forall a :: a in grouped <==> Occurs(aggregateOf, events, a))
    && forall a :: EventsFor(aggregateOf, events, a) == if a in grouped then grouped[a] else []
  }

  lemma GroupsOfAppend<A(!new), T>(aggregateOf: T -> A, events: seq<Event<T>>, grouped: map<A, seq<Event<T>>>,
                                       e: Event<T>)
    requires GroupsOf(aggregateOf, events, grouped)
    ensures
      var a := aggregateOf(e.content);
      GroupsOf(aggregateOf, events + [e], grouped[a := (if a in grouped then grouped[a] else []) + [e]])
  {
    var longer := events + [e];
    assert longer[..|events|] == events;
    assert longer[|events|] == e;
    forall a
      ensures Occurs(aggregateOf, longer, a) <==> a == aggregateOf(e.content) || Occurs(aggregateOf, events, a)
    {
      if i :| 0 <= i < |events| && aggregateOf(events[i].content) == a {
        assert aggregateOf(longer[i].content) == a;
      }
    }
  }

  method GroupByAggregate<A(==,!new), T>(aggregateOf: T -> A, events: seq<Event<T>>)
    returns (grouped: map<A, seq<Event<T>>>)
    ensures GroupsOf(aggregateOf, events, grouped)
  {
    hide GroupsOf;
    grouped := map[];
    assert GroupsOf(aggregateOf, events[..0], grouped) by {
      GroupsOfNothing<A, T>(aggregateOf);
    }
    for i := 0 to |events|
      invariant GroupsOf(aggregateOf, events[..i], grouped)
    {
      var a := aggregateOf(events[i].content);
      GroupsOfAppend(aggregateOf, events[..i], grouped, events[i]);
      assert events[..i + 1] == events[..i] + [events[i]];
      grouped := grouped[a := (if a in grouped then grouped[a] else []) + [events[i]]];
    }
    assert events[..|events|] == events;
  }

  lemma GroupsOfNothing<A(!new), T>(aggregateOf: T -> A)
    ensures GroupsOf(aggregateOf, [], map[])
  {
  }
}
