/** Checkpoints of the tool loop, the store that keeps them per run, and the resume plan
    rebuilt from them (crates/agent-runtime/src/tool_loop_checkpoint.rs). */
module ToolLoopCheckpoint {
  import opened Wrappers

  datatype CheckpointKind = BeforeModelCall | AfterModelCall | ToolResult

  datatype ToolResultCheckpoint = ToolResultCheckpoint(
    toolCallId: string, actionId: string, resultText: string, readOnly: bool)

  datatype Checkpoint = Checkpoint(
    runId: string, turn: nat, kind: CheckpointKind, toolResult: Option<ToolResultCheckpoint>)

  type Lists = map<string, seq<Checkpoint>>

  function ListedIn(lists: Lists, runId: string): seq<Checkpoint> {
    if runId in lists then lists[runId] else []
  }

  /** The lists with `added` at the end of one run's list and every other list untouched. */
  function Appended(lists: Lists, runId: string, added: seq<Checkpoint>): (after: Lists)
    ensures ListedIn(after, runId) == ListedIn(lists, runId) + added
    ensures forall other | other != runId :: ListedIn(after, other) == ListedIn(lists, other)
  {
    if added == [] then lists else lists[runId := ListedIn(lists, runId) + added]
  }

  lemma AppendedNothing(lists: Lists, runId: string)
    ensures Appended(lists, runId, []) == lists
  {
  }

  lemma AppendedTwice(lists: Lists, runId: string, first: seq<Checkpoint>, second: seq<Checkpoint>)
    ensures Appended(Appended(lists, runId, first), runId, second) == Appended(lists, runId, first + second)
  {
    if first != [] && second != [] {
      assert ListedIn(lists, runId) + first + second == ListedIn(lists, runId) + (first + second);
    } else {
      assert first == [] ==> first + second == second;
      assert second == [] ==> first + second == first;
    }
  }

  /** The in-memory store: one growing list of checkpoints per run. */
  class MemoryToolLoopCheckpointStore {
    var checkpoints: Lists

    constructor ()
      ensures checkpoints == map[]
    {
      checkpoints := map[];
    }

    function Listed(runId: string): seq<Checkpoint>
      reads this
    {
      ListedIn(checkpoints, runId)
    }

    method Append(checkpoint: Checkpoint)
      modifies this
      ensures checkpoints == Appended(old(checkpoints), checkpoint.runId, [checkpoint])
    {
      var entry := if checkpoint.runId in checkpoints then checkpoints[checkpoint.runId] else [];
      checkpoints := checkpoints[checkpoint.runId := entry + [checkpoint]];
    }

    method List(runId: string) returns (listed: seq<Checkpoint>)
      ensures listed == Listed(runId)
    {
      listed := Listed(runId);
    }
  }

  /** What a resumed attempt knows about the attempts before it. */
  datatype ResumePlan = ResumePlan(
    completed: map<string, ToolResultCheckpoint>,
    skippable: set<string>,
    lastStartedTurn: Option<nat>,
    lastCompletedModelTurn: Option<nat>)
  {
    /** The guard under which the loop takes a result from the plan instead of running the call. */
    predicate Skips(toolCallId: string) {
      toolCallId in skippable && toolCallId in completed
    }
  }

  const EMPTY_PLAN := ResumePlan(map[], {}, None, None)

  function MaxTurn(seen: Option<nat>, turn: nat): Option<nat> {
    match seen
    case None => Some(turn)
    case Some(t) => Some(if t >= turn then t else turn)
  }

  function Absorb(plan: ResumePlan, c: Checkpoint): ResumePlan {
    match c.kind
    case BeforeModelCall => plan.(lastStartedTurn := MaxTurn(plan.lastStartedTurn, c.turn))
    case AfterModelCall => plan.(lastCompletedModelTurn := MaxTurn(plan.lastCompletedModelTurn, c.turn))
    case ToolResult =>
      match c.toolResult
      case None => plan
      case Some(r) => plan.(
        skippable := if r.readOnly then plan.skippable + {r.toolCallId} else plan.skippable,
        completed := if r.toolCallId in plan.completed then plan.completed else plan.completed[r.toolCallId := r])
  }

  function PlanOf(log: seq<Checkpoint>): ResumePlan {
    if log == [] then EMPTY_PLAN else Absorb(PlanOf(log[..|log| - 1]), log[|log| - 1])
  }

  method FromCheckpoints(log: seq<Checkpoint>) returns (plan: ResumePlan)
    ensures plan == PlanOf(log)
  {
    var completed: map<string, ToolResultCheckpoint> := map[];
    var skippable: set<string> := {};
    var lastStarted: Option<nat> := None;
    var lastCompleted: Option<nat> := None;
    for i := 0 to |log|
      invariant ResumePlan(completed, skippable, lastStarted, lastCompleted) == PlanOf(log[..i])
    {
      var c := log[i];
      assert log[..i + 1][..i] == log[..i];
      match c.kind {
        case BeforeModelCall => lastStarted := MaxTurn(lastStarted, c.turn);
        case AfterModelCall => lastCompleted := MaxTurn(lastCompleted, c.turn);
        case ToolResult =>
          if c.toolResult.Some? {
            var result := c.toolResult.value;
            if result.readOnly {
              skippable := skippable + {result.toolCallId};
            }
            if result.toolCallId !in completed {
              completed := completed[result.toolCallId := result];
            }
          }
      }
    }
    assert log[..|log|] == log;
    plan := ResumePlan(completed, skippable, lastStarted, lastCompleted);
  }

  predicate Records(c: Checkpoint, id: string) {
    c.kind == ToolResult && c.toolResult.Some? && c.toolResult.value.toolCallId == id
  }

  ghost predicate FirstRecord(log: seq<Checkpoint>, k: nat, id: string) {
    k < |log| && Records(log[k], id) && forall j | 0 <= j < k :: !Records(log[j], id)
  }

  ghost predicate IsMaxTurn(log: seq<Checkpoint>, kind: CheckpointKind, found: Option<nat>) {
    && (found.None? <==> forall k | 0 <= k < |log| :: log[k].kind != kind)
    && (found.Some? ==>
          && (exists k | 0 <= k < |log| :: log[k].kind == kind && log[k].turn == found.value)
          && (forall k | 0 <= k < |log| && log[k].kind == kind :: log[k].turn <= found.value))
  }

  /** A call is skippable exactly when some recorded result of it was marked read-only. */
  lemma {:induction false} PlanSkipsReadOnly(log: seq<Checkpoint>, id: string)
    ensures id in PlanOf(log).skippable <==>
        exists k | 0 <= k < |log| :: Records(log[k], id) && log[k].toolResult.value.readOnly
  {
    if log != [] {
      var n := |log| - 1;
      var front := log[..n];
      PlanSkipsReadOnly(front, id);
      assert PlanOf(log) == Absorb(PlanOf(front), log[n]);
      if k :| 0 <= k < n && Records(front[k], id) && front[k].toolResult.value.readOnly {
        assert log[k] == front[k];
      }
      if k :| 0 <= k < n && Records(log[k], id) && log[k].toolResult.value.readOnly {
        assert front[k] == log[k];
      }
    }
  }

  /** The plan keeps the first recorded result of a call, and nothing else. */
  lemma {:induction false} PlanKeepsFirstResult(log: seq<Checkpoint>, id: string)
    ensures id in PlanOf(log).completed <==> exists k: nat :: FirstRecord(log, k, id)
    ensures forall k: nat | FirstRecord(log, k, id) :: PlanOf(log).completed[id] == log[k].toolResult.value
  {
    if log != [] {
      var n := |log| - 1;
      var front := log[..n];
      assert log == front + [log[n]];
      PlanKeepsFirstResult(front, id);
      assert PlanOf(log) == Absorb(PlanOf(front), log[n]);
      FirstRecordStep(front, log[n], id);
      assert forall k | 0 <= k < n :: log[k] == front[k];
      if k: nat :| FirstRecord(front, k, id) {
        assert FirstRecord(log, k, id);
      } else if Records(log[n], id) {
        assert FirstRecord(log, n, id);
      }
    }
  }

  /** The two turn marks are the maxima over the checkpoints of their kind. */
  lemma {:induction false} PlanKeepsMaxTurns(log: seq<Checkpoint>)
    ensures IsMaxTurn(log, BeforeModelCall, PlanOf(log).lastStartedTurn)
    ensures IsMaxTurn(log, AfterModelCall, PlanOf(log).lastCompletedModelTurn)
  {
    if log != [] {
      var n := |log| - 1;
      var front := log[..n];
      assert log == front + [log[n]];
      PlanKeepsMaxTurns(front);
      assert PlanOf(log) == Absorb(PlanOf(front), log[n]);
      MaxTurnStep(front, log[n], BeforeModelCall, PlanOf(front).lastStartedTurn);
      MaxTurnStep(front, log[n], AfterModelCall, PlanOf(front).lastCompletedModelTurn);
    }
  }

  lemma MaxTurnStep(front: seq<Checkpoint>, c: Checkpoint, kind: CheckpointKind, found: Option<nat>)
    requires IsMaxTurn(front, kind, found)
    ensures IsMaxTurn(front + [c], kind, if c.kind == kind then MaxTurn(found, c.turn) else found)
  {
    var log := front + [c];
    assert log[|front|] == c;
    assert forall k | 0 <= k < |front| :: log[k] == front[k];
    if found.Some? {
      var k :| 0 <= k < |front| && front[k].kind == kind && front[k].turn == found.value;
      assert log[k].kind == kind;
    }
  }

  lemma FirstRecordStep(front: seq<Checkpoint>, c: Checkpoint, id: string)
    ensures forall k: nat :: FirstRecord(front + [c], k, id) <==>
        FirstRecord(front, k, id) ||
        (k == |front| && Records(c, id) && forall j: nat :: !FirstRecord(front, j, id))
  {
    var log := front + [c];
    assert forall j | 0 <= j < |front| :: log[j] == front[j];
    if forall j: nat :: !FirstRecord(front, j, id) {
      NoFirstMeansNone(front, id);
    } else {
      var j: nat :| FirstRecord(front, j, id);
      assert Records(log[j], id);
    }
  }

  lemma NoFirstMeansNone(log: seq<Checkpoint>, id: string)
    requires forall j: nat :: !FirstRecord(log, j, id)
    ensures forall j | 0 <= j < |log| :: !Records(log[j], id)
  {
    var i := 0;
    while i < |log|
      invariant 0 <= i <= |log|
      invariant forall j | 0 <= j < i :: !Records(log[j], id)
    {
      assert !FirstRecord(log, i, id);
      i := i + 1;
    }
  }
}
