/** What checkpoint logs remember of tool calls: the recorded results in order, which calls record
    one, and the resume plan in those terms. */
module ToolLoopRecords {
  import opened Wrappers
  import opened ToolLoopCheckpoint
  import opened ToolLoop

  /** What the first execution of a call at its place records, when it records anything. */
  function CheckpointFor(env: Env, p: Position): Option<ToolResultCheckpoint> {
    match env.world.mapper(p.call)
    case Err(_) => None
    case Ok(request) =>
      match env.world.process(p, request)
      case Err(_) => None
      case Ok(outcome) =>
        Some(ToolResultCheckpoint(
               p.call.id, request.actionId, AnswerOf(env, p), IsReadOnlyToolAction(request.actionKind)))
  }

  /** The text the first execution of a call at its place answers with, recorded or not. */
  function AnswerOf(env: Env, p: Position): string {
    match env.world.mapper(p.call)
    case Err(e) => "error: " + e
    case Ok(request) =>
      match env.world.process(p, request)
      case Err(e) => "error: " + e
      case Ok(ActionCompleted(summary)) => summary
      case Ok(ActionDenied(reason)) => "denied: " + reason
      case Ok(ActionApprovalRequired(actionId)) => "approval_required: " + actionId
      case Ok(ActionFailed(actionId, errorMessage)) => "failed (" + actionId + "): " + errorMessage
  }

  lemma RecordedAnswer(env: Env, p: Position)
    ensures CheckpointFor(env, p).Some? ==>
      CheckpointFor(env, p).value.toolCallId == p.call.id && CheckpointFor(env, p).value.resultText == AnswerOf(env, p)
  {
  }

  /** The results that the calls `ps` record, in order, when the plan's calls are skipped. */
  function RecordedBy(env: Env, plan: ResumePlan, ps: seq<Position>): seq<ToolResultCheckpoint> {
    if ps == [] then []
    else RecordedOne(env, plan, ps[0]) + RecordedBy(env, plan, ps[1..])
  }

  function RecordedOne(env: Env, plan: ResumePlan, p: Position): seq<ToolResultCheckpoint> {
    if plan.Skips(p.call.id) || CheckpointFor(env, p).None? then [] else [CheckpointFor(env, p).value]
  }

  /** How many of the calls `ps` reach the action runtime when they are executed. */
  function Mapped(env: Env, ps: seq<Position>): nat {
    if ps == [] then 0 else (if env.world.mapper(ps[0].call).Ok? then 1 else 0) + Mapped(env, ps[1..])
  }

  /** The results recorded in a log, in order. */
  function ResultsIn(log: seq<Checkpoint>): seq<ToolResultCheckpoint> {
    if log == [] then [] else ResultsIn(log[..|log| - 1]) + ResultIn(log[|log| - 1])
  }

  function ResultIn(c: Checkpoint): seq<ToolResultCheckpoint> {
    if c.kind == CheckpointKind.ToolResult && c.toolResult.Some? then [c.toolResult.value] else []
  }

  function FirstWith(results: seq<ToolResultCheckpoint>, id: string): Option<ToolResultCheckpoint> {
    if results == [] then None
    else if results[0].toolCallId == id then Some(results[0])
    else FirstWith(results[1..], id)
  }

  predicate AnyReadOnly(results: seq<ToolResultCheckpoint>, id: string) {
    exists r | r in results :: r.toolCallId == id && r.readOnly
  }

  // ---------------------------------------------------------------- concatenation

  lemma {:induction false} RecordedSplits(env: Env, plan: ResumePlan, a: seq<Position>, b: seq<Position>)
    ensures RecordedBy(env, plan, a + b) == RecordedBy(env, plan, a) + RecordedBy(env, plan, b)
  {
    hide RecordedOne;
    if a == [] {
      assert a + b == b;
    } else {
      assert (a + b)[1..] == a[1..] + b;
      RecordedSplits(env, plan, a[1..], b);
    }
  }

  lemma {:induction false} MappedSplits(env: Env, a: seq<Position>, b: seq<Position>)
    ensures Mapped(env, a + b) == Mapped(env, a) + Mapped(env, b)
  {
    if a == [] {
      assert a + b == b;
    } else {
      assert (a + b)[1..] == a[1..] + b;
      MappedSplits(env, a[1..], b);
    }
  }

  lemma {:induction false} ResultsSplit(a: seq<Checkpoint>, b: seq<Checkpoint>)
    ensures ResultsIn(a + b) == ResultsIn(a) + ResultsIn(b)
  {
    hide ResultIn;
    if b == [] {
      assert a + b == a;
    } else {
      assert (a + b)[..|a + b| - 1] == a + b[..|b| - 1];
      ResultsSplit(a, b[..|b| - 1]);
    }
  }

  lemma ResultsOfPrefix(log: seq<Checkpoint>, k: nat)
    requires k <= |log|
    ensures ResultsIn(log[..k]) <= ResultsIn(log)
  {
    assert log == log[..k] + log[k..];
    ResultsSplit(log[..k], log[k..]);
  }

  lemma {:induction false} FirstWithSplits(a: seq<ToolResultCheckpoint>, b: seq<ToolResultCheckpoint>, id: string)
    ensures FirstWith(a + b, id) == if FirstWith(a, id).Some? then FirstWith(a, id) else FirstWith(b, id)
  {
    if a == [] {
      assert a + b == b;
    } else {
      assert (a + b)[1..] == a[1..] + b;
      FirstWithSplits(a[1..], b, id);
    }
  }

  lemma {:induction false} FirstWithFinds(results: seq<ToolResultCheckpoint>, id: string)
    ensures FirstWith(results, id).Some? <==> exists r | r in results :: r.toolCallId == id
    ensures FirstWith(results, id).Some? ==>
              FirstWith(results, id).value in results && FirstWith(results, id).value.toolCallId == id
  {
    if results != [] {
      FirstWithFinds(results[1..], id);
      assert results == [results[0]] + results[1..];
    }
  }

  // ---------------------------------------------------------------- the plan

  /** The plan of a log, by the results recorded in it: the first of an id is kept, and the id is
      skippable when any of them is read-only. */
  lemma {:induction false} PlanOfResults(log: seq<Checkpoint>, id: string)
    ensures id in PlanOf(log).completed <==> FirstWith(ResultsIn(log), id).Some?
    ensures id in PlanOf(log).completed ==> FirstWith(ResultsIn(log), id) == Some(PlanOf(log).completed[id])
    ensures id in PlanOf(log).skippable <==> AnyReadOnly(ResultsIn(log), id)
  {
    if log != [] {
      var front, c := log[..|log| - 1], log[|log| - 1];
      PlanOfResults(front, id);
      FirstWithSplits(ResultsIn(front), ResultIn(c), id);
      assert PlanOf(log) == Absorb(PlanOf(front), c);
    }
  }

  lemma SkipsByResults(log: seq<Checkpoint>, id: string)
    ensures PlanOf(log).Skips(id) <==> AnyReadOnly(ResultsIn(log), id)
    ensures PlanOf(log).Skips(id) ==> FirstWith(ResultsIn(log), id) == Some(PlanOf(log).completed[id])
  {
    PlanOfResults(log, id);
    FirstWithFinds(ResultsIn(log), id);
  }

  /** What a plan does not skip it leaves in place: the first recorded result of an id is the same. */
  lemma {:induction false} SkippingKeepsFirst(env: Env, plan: ResumePlan, ps: seq<Position>, id: string)
    requires !plan.Skips(id)
    ensures FirstWith(RecordedBy(env, plan, ps), id) == FirstWith(RecordedBy(env, EMPTY_PLAN, ps), id)
  {
    if ps != [] {
      SkippingKeepsFirst(env, plan, ps[1..], id);
      RecordedAnswer(env, ps[0]);
      FirstWithSplits(RecordedOne(env, plan, ps[0]), RecordedBy(env, plan, ps[1..]), id);
      FirstWithSplits(RecordedOne(env, EMPTY_PLAN, ps[0]), RecordedBy(env, EMPTY_PLAN, ps[1..]), id);
    }
  }

  lemma {:induction false} SkippingRecordsNoMore(env: Env, plan: ResumePlan, ps: seq<Position>)
    ensures forall r | r in RecordedBy(env, plan, ps) :: r in RecordedBy(env, EMPTY_PLAN, ps)
  {
    if ps != [] {
      SkippingRecordsNoMore(env, plan, ps[1..]);
    }
  }

  /** Recorded results come from the calls. */
  lemma {:induction false} RecordedFrom(env: Env, ps: seq<Position>, r: ToolResultCheckpoint)
    ensures r in RecordedBy(env, EMPTY_PLAN, ps) <==> exists p | p in ps :: CheckpointFor(env, p) == Some(r)
  {
    if ps != [] {
      RecordedFrom(env, ps[1..], r);
      assert ps == [ps[0]] + ps[1..];
      if r in RecordedBy(env, EMPTY_PLAN, ps[1..]) {
        var p :| p in ps[1..] && CheckpointFor(env, p) == Some(r);
        assert p in ps;
      }
    }
  }
}
