/** The LLM tool loop (crates/agent-runtime/src/lib.rs, `AgentToolLoop::run_inner`).

    The model adapter, the tool-call mapper and the action runtime are arbitrary functions
    (`World`); what may cut an attempt short -- cancellation, timeouts, a failing checkpoint
    store -- is an arbitrary schedule (`Interrupts`). */
module ToolLoop {
  import opened Wrappers
  import opened ToolLoopCheckpoint

  newtype u32 = x: int | 0 <= x < 0x1_0000_0000

  const U32_MAX: u32 := 0xFFFF_FFFF
  const U64_MAX: nat := 0xFFFF_FFFF_FFFF_FFFF

  datatype Role = System | User | Assistant | Tool

  datatype Message = Message(role: Role, text: string)

  datatype Usage = Usage(inputTokens: u32, outputTokens: u32)

  datatype ToolCall = ToolCall(id: string, name: string, arguments: string)

  datatype ModelOutput =
    | Text(text: string, usage: Option<Usage>)
    | ToolCalls(content: Option<string>, calls: seq<ToolCall>, usage: Option<Usage>)

  datatype ActionRequest = ActionRequest(actionId: string, actionKind: string, input: string)

  datatype ActionOutcome =
    | ActionCompleted(summary: string)
    | ActionDenied(reason: string)
    | ActionApprovalRequired(actionId: string)
    | ActionFailed(actionId: string, errorMessage: string)

  datatype TimeoutOperation = ModelCall | Action | BrowserOperation

  datatype ToolLoopOutcome =
    | Completed(responseText: string, turnsUsed: u32, toolCallsMade: nat, usage: Usage)
    | MaxTurnsReached(lastToolCalls: seq<ToolCall>, turnsUsed: u32)
    | Cancelled(reason: string, turnsUsed: u32)
    | TimedOut(operation: TimeoutOperation, timeoutMs: nat, turnsUsed: u32)
    | Failed(error: string, turnsUsed: u32)

  /** A tool call at its place in a run: call `index` of the model output of turn `turn`. */
  datatype Position = Position(turn: u32, index: nat, call: ToolCall)

  /** The outside world. The model sees the turn and the transcript; the runtime sees the
      place of the call and the mapped request. */
  datatype World = World(
    model: (u32, seq<Message>) -> Result<ModelOutput, string>,
    mapper: ToolCall -> Result<ActionRequest, string>,
    process: (Position, ActionRequest) -> Result<ActionOutcome, string>)

  datatype Controls = Controls(
    modelCallTimeout: Option<nat>, actionTimeout: Option<nat>, browserOperationTimeout: Option<nat>)

  datatype Env = Env(
    world: World, controls: Controls, maxTurns: u32, runId: string, initial: seq<Message>)

  /** What cuts an attempt short: is the token cancelled when it is looked at, does a call that
      has a timeout exceed it, does the n-th append of this attempt fail, does the load fail. */
  datatype Interrupts = Interrupts(
    cancelledBeforeTurn: u32 -> bool,
    cancelledBeforeCall: Position -> bool,
    modelCallLate: u32 -> bool,
    actionLate: Position -> bool,
    appendFails: nat -> bool,
    loadFails: bool)

  const NEVER := Interrupts(_ => false, _ => false, _ => false, _ => false, _ => false, false)

  /** What one attempt did, in order: checkpoints written, calls handed to the action runtime,
      calls taken from the plan, calls issued by the model, calls the inner loop came to,
      transcripts shown to the model, and the model's answers. */
  datatype Trace = Trace(
    emitted: seq<Checkpoint>,
    executed: seq<Position>,
    skipped: seq<Position>,
    issued: seq<Position>,
    reached: seq<Position>,
    prompts: seq<seq<Message>>,
    replies: seq<ModelOutput>)
  {
    function Plus(next: Trace): Trace {
      Trace(emitted + next.emitted, executed + next.executed, skipped + next.skipped,
            issued + next.issued, reached + next.reached, prompts + next.prompts, replies + next.replies)
    }
  }

  const NO_TRACE := Trace([], [], [], [], [], [], [])

  datatype Run = Run(outcome: ToolLoopOutcome, transcript: seq<Message>, trace: Trace)
  {
    function After(earlier: Trace): Run {
      this.(trace := earlier.Plus(trace))
    }
  }

  const STORE_POISONED := "tool loop checkpoint store poisoned"
  const WRITE_FAILED := "checkpoint write failed: " + STORE_POISONED

  function SaturatingAdd(a: u32, b: u32): u32 {
    if a as int + b as int > U32_MAX as int then U32_MAX else a + b
  }

  function AddUsage(total: Usage, output: ModelOutput): Usage {
    match output.usage
    case None => total
    case Some(u) => Usage(SaturatingAdd(total.inputTokens, u.inputTokens),
                          SaturatingAdd(total.outputTokens, u.outputTokens))
  }

  predicate OccursAt(text: string, part: string, i: nat) {
    i + |part| <= |text| && text[i..i + |part|] == part
  }

  predicate Contains(text: string, part: string) {
    exists i: nat | i <= |text| :: OccursAt(text, part, i)
  }

  predicate IsBrowserToolAction(kind: string) {
    "browser." <= kind
  }

  predicate IsReadOnlyToolAction(kind: string) {
    || Contains(kind, ".search")
    || Contains(kind, ".read")
    || Contains(kind, ".list")
    || Contains(kind, ".get")
    || Contains(kind, ".fetch")
  }

  function ActionTimeoutFor(controls: Controls, kind: string): Option<nat> {
    if IsBrowserToolAction(kind) && controls.browserOperationTimeout.Some?
    then controls.browserOperationTimeout
    else controls.actionTimeout
  }

  function DurationMillis(ms: nat): nat {
    if ms > U64_MAX then U64_MAX else ms
  }

  function ResultText(outcome: ActionOutcome): string {
    match outcome
    case ActionCompleted(summary) => summary
    case ActionDenied(reason) => "denied: " + reason
    case ActionApprovalRequired(actionId) => "approval_required: " + actionId
    case ActionFailed(actionId, errorMessage) => "failed (" + actionId + "): " + errorMessage
  }

  function AssistantMessage(content: Option<string>, calls: seq<ToolCall>): Message {
    var text := if content.Some? then content.value else "";
    Message(Assistant, if text == "" && calls != [] then "calling tools" else text)
  }

  function ToolMessage(toolCallId: string, result: string): Message {
    Message(Tool, "tool_call_id: " + toolCallId + "\nresult: " + result)
  }

  function ToolMessages(results: seq<(string, string)>): seq<Message> {
    seq(|results|, i requires 0 <= i < |results| => ToolMessage(results[i].0, results[i].1))
  }

  function Positions(turn: u32, calls: seq<ToolCall>): seq<Position> {
    seq(|calls|, i requires 0 <= i < |calls| => Position(turn, i, calls[i]))
  }

  function MaybeCheckpoint(on: bool, c: Checkpoint): seq<Checkpoint> {
    if on then [c] else []
  }

  // ---------------------------------------------------------------- one tool call

  /** The effect of one tool call: its result, or why the attempt stops here. */
  datatype CallEffect = CallEffect(stop: Option<ToolLoopOutcome>, result: string, made: nat, trace: Trace)

  function CallEffectOf(env: Env, intr: Interrupts, plan: ResumePlan, on: bool, appended: nat, p: Position): CallEffect
    requires p.turn > 0
  {
    var tc := p.call;
    var here := NO_TRACE.(reached := [p]);
    if intr.cancelledBeforeCall(p) then
      CallEffect(Some(Cancelled("run cancelled", p.turn)), "", 0, here)
    else if plan.Skips(tc.id) then
      CallEffect(None, plan.completed[tc.id].resultText, 0, here.(skipped := [p]))
    else match env.world.mapper(tc)
      case Err(e) => CallEffect(None, "error: " + e, 0, here)
      case Ok(request) =>
        var ran := here.(executed := [p]);
        var timeout := ActionTimeoutFor(env.controls, request.actionKind);
        if timeout.Some? && intr.actionLate(p) then
          var operation := if IsBrowserToolAction(tc.name) then BrowserOperation else Action;
          CallEffect(Some(TimedOut(operation, DurationMillis(timeout.value), p.turn)), "", 1, ran)
        else match env.world.process(p, request)
          case Err(e) => CallEffect(None, "error: " + e, 1, ran)
          case Ok(outcome) =>
            var text := ResultText(outcome);
            if on && intr.appendFails(appended) then
              CallEffect(Some(Failed(WRITE_FAILED, p.turn - 1)), "", 1, ran)
            else
              var record := ToolResultCheckpoint(tc.id, request.actionId, text,
                IsReadOnlyToolAction(request.actionKind));
              var c := Checkpoint(env.runId, p.turn as nat, CheckpointKind.ToolResult, Some(record));
              CallEffect(None, text, 1, ran.(emitted := MaybeCheckpoint(on, c)))
  }

  datatype CallsRun = CallsRun(stop: Option<ToolLoopOutcome>, results: seq<(string, string)>, made: nat, trace: Trace)
  {
    function After(results: seq<(string, string)>, made: nat, earlier: Trace): CallsRun {
      CallsRun(stop, results + this.results, made + this.made, earlier.Plus(trace))
    }
  }

  /** The calls of one turn from call `i` on. */
  function CallsFrom(env: Env, intr: Interrupts, plan: ResumePlan, on: bool, appended: nat,
                     turn: u32, calls: seq<ToolCall>, i: nat): CallsRun
    requires turn > 0 && i <= |calls|
    decreases |calls| - i
  {
    if i == |calls| then CallsRun(None, [], 0, NO_TRACE)
    else
      var e := CallEffectOf(env, intr, plan, on, appended, Position(turn, i, calls[i]));
      if e.stop.Some? then CallsRun(e.stop, [], e.made, e.trace)
      else
        var rest := CallsFrom(env, intr, plan, on, appended + |e.trace.emitted|, turn, calls, i + 1);
        CallsRun(rest.stop, [(calls[i].id, e.result)] + rest.results, e.made + rest.made, e.trace.Plus(rest.trace))
  }

  // ---------------------------------------------------------------- turns

  /** One turn: why the attempt stops in it, or the transcript and totals it leaves. */
  datatype TurnEffect = TurnEffect(
    stop: Option<ToolLoopOutcome>, transcript: seq<Message>, usage: Usage, made: nat, trace: Trace)

  /** The turn after `turn` turns, from the turn check to the end of the loop body. */
  function TurnOf(env: Env, intr: Interrupts, plan: ResumePlan, on: bool, appended: nat,
                  turn: u32, messages: seq<Message>, usage: Usage, made: nat): TurnEffect
    requires turn < env.maxTurns
  {
    var t := turn + 1;
    if on && intr.appendFails(appended) then
      TurnEffect(Some(Failed(WRITE_FAILED, turn)), messages, usage, made, NO_TRACE)
    else
      var before := MaybeCheckpoint(on, Checkpoint(env.runId, t as nat, BeforeModelCall, None));
      var asked := NO_TRACE.(emitted := before, prompts := [messages]);
      if env.controls.modelCallTimeout.Some? && intr.modelCallLate(t) then
        TurnEffect(Some(TimedOut(ModelCall, DurationMillis(env.controls.modelCallTimeout.value), turn)),
                   messages, usage, made, asked)
      else match env.world.model(t, messages)
        case Err(e) => TurnEffect(Some(Failed("model call failed: " + e, turn)), messages, usage, made, asked)
        case Ok(output) =>
          var replied := asked.(replies := [output]);
          if on && intr.appendFails(appended + |before|) then
            TurnEffect(Some(Failed(WRITE_FAILED, turn)), messages, usage, made, replied)
          else
            var after := MaybeCheckpoint(on, Checkpoint(env.runId, t as nat, AfterModelCall, None));
            var answered := replied.(emitted := before + after);
            var usage' := AddUsage(usage, output);
            match output
            case Text(text, _) =>
              TurnEffect(Some(Completed(text, turn, made, usage')), messages, usage', made, answered)
            case ToolCalls(content, calls, _) =>
              var listed := answered.(issued := Positions(t, calls));
              CallsOfTurn(env, intr, plan, on, appended, t, messages, usage', made, content, calls, listed)
  }

  /** The part of turn `t` after its model reply: the calls, and the messages that answer them. */
  function CallsOfTurn(env: Env, intr: Interrupts, plan: ResumePlan, on: bool, appended: nat, t: u32,
                       messages: seq<Message>, usage: Usage, made: nat,
                       content: Option<string>, calls: seq<ToolCall>, listed: Trace): TurnEffect
    requires t > 0
  {
    var cr := CallsFrom(env, intr, plan, on, appended + |listed.emitted|, t, calls, 0);
    var here := listed.Plus(cr.trace);
    if cr.stop.Some? then TurnEffect(cr.stop, messages, usage, made + cr.made, here)
    else
      var messages' := messages + [AssistantMessage(content, calls)] + ToolMessages(cr.results);
      var stop := if t >= env.maxTurns then Some(MaxTurnsReached(calls, t)) else None;
      TurnEffect(stop, messages', usage, made + cr.made, here)
  }

  /** The attempt from a loop head on: `turn` turns used, `messages` the current transcript. */
  function TurnsFrom(env: Env, intr: Interrupts, plan: ResumePlan, on: bool, appended: nat,
                     turn: u32, messages: seq<Message>, usage: Usage, made: nat): Run
    requires turn <= env.maxTurns
    decreases env.maxTurns - turn
  {
    if intr.cancelledBeforeTurn(turn) then Run(Cancelled("run cancelled", turn), messages, NO_TRACE)
    else if turn >= env.maxTurns then Run(MaxTurnsReached([], turn), messages, NO_TRACE)
    else
      var e := TurnOf(env, intr, plan, on, appended, turn, messages, usage, made);
      if e.stop.Some? then Run(e.stop.value, e.transcript, e.trace)
      else
        TurnsFrom(env, intr, plan, on, appended + |e.trace.emitted|, turn + 1, e.transcript, e.usage, e.made)
        .After(e.trace)
  }

  /** A whole attempt with a given plan. */
  function Attempt(env: Env, intr: Interrupts, plan: ResumePlan, on: bool): Run {
    if on && intr.loadFails then
      Run(Failed("checkpoint load failed: " + STORE_POISONED, 0), env.initial, NO_TRACE)
    else
      TurnsFrom(env, intr, plan, on, 0, 0, env.initial, Usage(0, 0), 0)
  }

  // ---------------------------------------------------------------- the loop itself

  /** `run_inner`: the loop over its mutable variables. The counters are 32-bit; that
      `turnsUsed + 1` never overflows is checked here. */
  method RunInner(env: Env, store: MemoryToolLoopCheckpointStore?, intr: Interrupts) returns (run: Run)
    modifies if store == null then {} else {store}
    ensures var plan := if store == null then EMPTY_PLAN else PlanOf(old(store.Listed(env.runId)));
            run == Attempt(env, intr, plan, store != null)
    ensures store != null ==> store.checkpoints == Appended(old(store.checkpoints), env.runId, run.trace.emitted)
  {
    hide TurnOf, TurnsFrom, Appended, PlanOf;
    var on := store != null;
    var turnsUsed: u32 := 0;
    var toolCallsMade: nat := 0;
    var aggregatedUsage := Usage(0, 0);
    var messages := env.initial;
    var trace := NO_TRACE;
    var plan := EMPTY_PLAN;
    if on {
      AppendedNothing(store.checkpoints, env.runId);
      if intr.loadFails {
        return Run(Failed("checkpoint load failed: " + STORE_POISONED, 0), messages, NO_TRACE);
      }
      var checkpoints := store.List(env.runId);
      plan := FromCheckpoints(checkpoints);
    }
    ghost var goal := Attempt(env, intr, plan, on);
    NothingBefore(goal);
    assert goal == TurnsFrom(env, intr, plan, on, 0, 0, messages, aggregatedUsage, 0).After(trace);

    while true
      invariant turnsUsed <= env.maxTurns && (turnsUsed == env.maxTurns ==> turnsUsed == 0)
      invariant goal ==
                TurnsFrom(env, intr, plan, on, |trace.emitted|, turnsUsed, messages, aggregatedUsage, toolCallsMade)
                .After(trace)
      invariant on ==> store.checkpoints == Appended(old(store.checkpoints), env.runId, trace.emitted)
      decreases env.maxTurns - turnsUsed
    {
      TurnsEnd(env, intr, plan, on, trace, turnsUsed, messages, aggregatedUsage, toolCallsMade);
      if intr.cancelledBeforeTurn(turnsUsed) {
        return Run(Cancelled("run cancelled", turnsUsed), messages, trace);
      }
      turnsUsed := turnsUsed + 1;
      if turnsUsed > env.maxTurns {
        return Run(MaxTurnsReached([], turnsUsed - 1), messages, trace);
      }
      TurnStep(env, intr, plan, on, trace, turnsUsed - 1, messages, aggregatedUsage, toolCallsMade);
      var effect :=
        RunTurn(env, store, intr, plan, |trace.emitted|, turnsUsed, messages, aggregatedUsage, toolCallsMade);
      if on {
        AppendedTwice(old(store.checkpoints), env.runId, trace.emitted, effect.trace.emitted);
      }
      messages, aggregatedUsage, toolCallsMade := effect.transcript, effect.usage, effect.made;
      trace := trace.Plus(effect.trace);
      if effect.stop.Some? {
        return Run(effect.stop.value, messages, trace);
      }
    }
  }

  lemma NothingBefore(run: Run)
    ensures run.After(NO_TRACE) == run
  {
  }

  /** The two ways the loop ends at its head. */
  lemma TurnsEnd(env: Env, intr: Interrupts, plan: ResumePlan, on: bool, trace: Trace,
                 turn: u32, messages: seq<Message>, usage: Usage, made: nat)
    requires turn <= env.maxTurns
    ensures
      var here := TurnsFrom(env, intr, plan, on, |trace.emitted|, turn, messages, usage, made).After(trace);
      if intr.cancelledBeforeTurn(turn) then here == Run(Cancelled("run cancelled", turn), messages, trace)
      else turn == env.maxTurns ==> here == Run(MaxTurnsReached([], turn), messages, trace)
  {
  }

  /** Unfolds one turn under a trace already collected. */
  lemma TurnStep(env: Env, intr: Interrupts, plan: ResumePlan, on: bool, trace: Trace,
                 turn: u32, messages: seq<Message>, usage: Usage, made: nat)
    requires turn < env.maxTurns && !intr.cancelledBeforeTurn(turn)
    ensures
      var here := TurnsFrom(env, intr, plan, on, |trace.emitted|, turn, messages, usage, made).After(trace);
      var e := TurnOf(env, intr, plan, on, |trace.emitted|, turn, messages, usage, made);
      var trace' := trace.Plus(e.trace);
      here == if e.stop.Some? then Run(e.stop.value, e.transcript, trace')
              else
                TurnsFrom(env, intr, plan, on, |trace'.emitted|, turn + 1, e.transcript, e.usage, e.made)
                .After(trace')
  {
    hide TurnOf;
    var e := TurnOf(env, intr, plan, on, |trace.emitted|, turn, messages, usage, made);
    if e.stop.None? {
      var count := |trace.emitted| + |e.trace.emitted|;
      var rest := TurnsFrom(env, intr, plan, on, count, turn + 1, e.transcript, e.usage, e.made);
      PlusAssociates(trace, e.trace, rest.trace);
    }
  }

  /** The body of the turn loop after the turn check; `turn` is the incremented counter. */
  method RunTurn(env: Env, store: MemoryToolLoopCheckpointStore?, intr: Interrupts, plan: ResumePlan, appended: nat,
                 turn: u32, messages: seq<Message>, usage: Usage, made: nat)
    returns (effect: TurnEffect)
    requires 0 < turn <= env.maxTurns
    modifies if store == null then {} else {store}
    ensures effect == TurnOf(env, intr, plan, store != null, appended, turn - 1, messages, usage, made)
    ensures effect.stop.None? ==> turn < env.maxTurns
    ensures store != null ==> store.checkpoints == Appended(old(store.checkpoints), env.runId, effect.trace.emitted)
  {
    hide CallsOfTurn, Appended, AddUsage, DurationMillis, Positions;
    var trace := NO_TRACE;
    if store != null {
      AppendedNothing(store.checkpoints, env.runId);
    }
    if store != null {
      if intr.appendFails(appended) {
        return TurnEffect(Some(Failed(WRITE_FAILED, turn - 1)), messages, usage, made, trace);
      }
      var c := Checkpoint(env.runId, turn as nat, BeforeModelCall, None);
      store.Append(c);
      trace := trace.(emitted := [c]);
    }
    trace := trace.(prompts := [messages]);
    if env.controls.modelCallTimeout.Some? && intr.modelCallLate(turn) {
      return TurnEffect(Some(TimedOut(ModelCall, DurationMillis(env.controls.modelCallTimeout.value), turn - 1)),
                        messages, usage, made, trace);
    }
    var reply := env.world.model(turn, messages);
    if reply.Err? {
      return TurnEffect(Some(Failed("model call failed: " + reply.error, turn - 1)), messages, usage, made, trace);
    }
    var output := reply.value;
    trace := trace.(replies := [output]);
    if store != null {
      if intr.appendFails(appended + |trace.emitted|) {
        return TurnEffect(Some(Failed(WRITE_FAILED, turn - 1)), messages, usage, made, trace);
      }
      var c := Checkpoint(env.runId, turn as nat, AfterModelCall, None);
      store.Append(c);
      AppendedTwice(old(store.checkpoints), env.runId, trace.emitted, [c]);
      trace := trace.(emitted := trace.emitted + [c]);
    }
    var usage' := AddUsage(usage, output);
    match output {
      case Text(text, _) =>
        return TurnEffect(Some(Completed(text, turn - 1, made, usage')), messages, usage', made, trace);
      case ToolCalls(content, calls, _) =>
        trace := trace.(issued := Positions(turn, calls));
        ghost var added;
        effect, added := RunCallsOfTurn(env, store, intr, plan, appended, turn, messages, usage', made,
                                        content, calls, trace);
        if store != null {
          AppendedTwice(old(store.checkpoints), env.runId, trace.emitted, added);
        }
    }
  }

  /** The rest of the body when the model asked for calls. */
  method RunCallsOfTurn(env: Env, store: MemoryToolLoopCheckpointStore?, intr: Interrupts, plan: ResumePlan,
                        appended: nat, turn: u32, messages: seq<Message>, usage: Usage, made: nat,
                        content: Option<string>, calls: seq<ToolCall>, listed: Trace)
    returns (effect: TurnEffect, ghost added: seq<Checkpoint>)
    requires turn > 0
    modifies if store == null then {} else {store}
    ensures effect == CallsOfTurn(env, intr, plan, store != null, appended, turn, messages, usage, made,
                                  content, calls, listed)
    ensures effect.stop.None? ==> turn < env.maxTurns
    ensures effect.trace.emitted == listed.emitted + added
    ensures store != null ==> store.checkpoints == Appended(old(store.checkpoints), env.runId, added)
  {
    hide CallsFrom, Appended, AssistantMessage, ToolMessages;
    var stop, results, newlyMade, did := RunCalls(env, store, intr, plan, appended + |listed.emitted|, turn, calls);
    var trace := listed.Plus(did);
    added := did.emitted;
    if stop.Some? {
      return TurnEffect(stop, messages, usage, made + newlyMade, trace), added;
    }
    var messages' := messages + [AssistantMessage(content, calls)] + ToolMessages(results);
    if turn >= env.maxTurns {
      return TurnEffect(Some(MaxTurnsReached(calls, turn)), messages', usage, made + newlyMade, trace), added;
    }
    return TurnEffect(None, messages', usage, made + newlyMade, trace), added;
  }

  /** The inner loop of a turn, over the calls the model returned. */
  method RunCalls(env: Env, store: MemoryToolLoopCheckpointStore?, intr: Interrupts, plan: ResumePlan,
                  appended: nat, turn: u32, calls: seq<ToolCall>)
    returns (stop: Option<ToolLoopOutcome>, results: seq<(string, string)>, made: nat, trace: Trace)
    requires turn > 0
    modifies if store == null then {} else {store}
    ensures CallsRun(stop, results, made, trace) == CallsFrom(env, intr, plan, store != null, appended, turn, calls, 0)
    ensures store != null ==> store.checkpoints == Appended(old(store.checkpoints), env.runId, trace.emitted)
  {
    hide CallEffectOf, CallsFrom, Appended;
    stop, results, made, trace := None, [], 0, NO_TRACE;
    ghost var goal := CallsFrom(env, intr, plan, store != null, appended, turn, calls, 0);
    if store != null {
      AppendedNothing(store.checkpoints, env.runId);
    }
    CallsEnd(env, intr, plan, store != null, appended, turn, calls);
    for i := 0 to |calls|
      invariant goal == CallsFrom(env, intr, plan, store != null, appended + |trace.emitted|, turn, calls, i)
                        .After(results, made, trace)
      invariant store != null ==> store.checkpoints == Appended(old(store.checkpoints), env.runId, trace.emitted)
    {
      CallStep(env, intr, plan, store != null, appended, turn, calls, i, results, made, trace);
      var effect := RunCall(env, store, intr, plan, appended + |trace.emitted|, Position(turn, i, calls[i]));
      if store != null {
        AppendedTwice(old(store.checkpoints), env.runId, trace.emitted, effect.trace.emitted);
      }
      made := made + effect.made;
      trace := trace.Plus(effect.trace);
      if effect.stop.Some? {
        stop := effect.stop;
        return;
      }
      results := results + [(calls[i].id, effect.result)];
    }
    CallsEnd(env, intr, plan, store != null, appended + |trace.emitted|, turn, calls);
  }

  lemma CallsEnd(env: Env, intr: Interrupts, plan: ResumePlan, on: bool, appended: nat, turn: u32, calls: seq<ToolCall>)
    requires turn > 0
    ensures CallsFrom(env, intr, plan, on, appended, turn, calls, |calls|) == CallsRun(None, [], 0, NO_TRACE)
  {
  }

  /** Unfolds one call under results already collected. */
  lemma CallStep(env: Env, intr: Interrupts, plan: ResumePlan, on: bool, appended: nat, turn: u32, calls: seq<ToolCall>,
                 i: nat, results: seq<(string, string)>, made: nat, trace: Trace)
    requires turn > 0 && i < |calls|
    ensures
      var here :=
        CallsFrom(env, intr, plan, on, appended + |trace.emitted|, turn, calls, i).After(results, made, trace);
      var e := CallEffectOf(env, intr, plan, on, appended + |trace.emitted|, Position(turn, i, calls[i]));
      var trace' := trace.Plus(e.trace);
      here == if e.stop.Some? then CallsRun(e.stop, results, made + e.made, trace')
              else CallsFrom(env, intr, plan, on, appended + |trace'.emitted|, turn, calls, i + 1)
                   .After(results + [(calls[i].id, e.result)], made + e.made, trace')
  {
    hide CallEffectOf;
    var e := CallEffectOf(env, intr, plan, on, appended + |trace.emitted|, Position(turn, i, calls[i]));
    if e.stop.None? {
      var rest := CallsFrom(env, intr, plan, on, appended + |trace.emitted| + |e.trace.emitted|, turn, calls, i + 1);
      PlusAssociates(trace, e.trace, rest.trace);
      assert results + ([(calls[i].id, e.result)] + rest.results) == results + [(calls[i].id, e.result)] + rest.results;
      assert appended + |trace.emitted| + |e.trace.emitted| == appended + |trace.Plus(e.trace).emitted|;
    }
  }

  lemma PlusAssociates(a: Trace, b: Trace, c: Trace)
    ensures a.Plus(b).Plus(c) == a.Plus(b.Plus(c))
  {
  }

  /** The body of the inner loop: cancellation, resume skip, mapping, execution, checkpoint. */
  method RunCall(env: Env, store: MemoryToolLoopCheckpointStore?, intr: Interrupts, plan: ResumePlan,
                 appended: nat, p: Position)
    returns (effect: CallEffect)
    requires p.turn > 0
    modifies if store == null then {} else {store}
    ensures effect == CallEffectOf(env, intr, plan, store != null, appended, p)
    ensures store != null ==> store.checkpoints == Appended(old(store.checkpoints), env.runId, effect.trace.emitted)
  {
    var tc := p.call;
    var trace := NO_TRACE.(reached := [p]);
    if intr.cancelledBeforeCall(p) {
      return CallEffect(Some(Cancelled("run cancelled", p.turn)), "", 0, trace);
    }
    if plan.Skips(tc.id) {
      return CallEffect(None, plan.completed[tc.id].resultText, 0, trace.(skipped := [p]));
    }
    var mapped := env.world.mapper(tc);
    if mapped.Err? {
      return CallEffect(None, "error: " + mapped.error, 0, trace);
    }
    var request := mapped.value;
    trace := trace.(executed := [p]);
    var timeout := ActionTimeoutFor(env.controls, request.actionKind);
    if timeout.Some? && intr.actionLate(p) {
      var operation := if IsBrowserToolAction(tc.name) then BrowserOperation else Action;
      return CallEffect(Some(TimedOut(operation, DurationMillis(timeout.value), p.turn)), "", 1, trace);
    }
    var processed := env.world.process(p, request);
    if processed.Err? {
      return CallEffect(None, "error: " + processed.error, 1, trace);
    }
    var text := ResultText(processed.value);
    if store != null {
      if intr.appendFails(appended) {
        return CallEffect(Some(Failed(WRITE_FAILED, p.turn - 1)), "", 1, trace);
      }
      var record := ToolResultCheckpoint(tc.id, request.actionId, text, IsReadOnlyToolAction(request.actionKind));
      var c := Checkpoint(env.runId, p.turn as nat, CheckpointKind.ToolResult, Some(record));
      store.Append(c);
      trace := trace.(emitted := [c]);
    }
    return CallEffect(None, text, 1, trace);
  }
}
