/** Why every attempt of the tool loop ends where it does: what each call does at its place, which
    checks come before it, and the reason, duration and turn count of every exit. The conditions are
    spelled out over the world, the interruptions and the trace, not over the loop's functions. */
module ToolLoopExits {
  import opened Wrappers
  import opened ToolLoopCheckpoint
  import opened ToolLoop
  import opened ToolLoopRecords
  import opened ToolLoopResume

  function Filter<T>(keep: T -> bool, s: seq<T>): seq<T> {
    if s == [] then [] else (if keep(s[0]) then [s[0]] else []) + Filter(keep, s[1..])
  }

  lemma FilterUnfold<T>(keep: T -> bool, x: T, s: seq<T>)
    ensures Filter(keep, [x] + s) == (if keep(x) then [x] else []) + Filter(keep, s)
  {
    assert ([x] + s)[1..] == s;
  }

  lemma {:induction false} FilterSplits<T>(keep: T -> bool, a: seq<T>, b: seq<T>)
    ensures Filter(keep, a + b) == Filter(keep, a) + Filter(keep, b)
  {
    if a == [] {
      assert a + b == b;
    } else {
      var rest := a[1..];
      var first := if keep(a[0]) then [a[0]] else [];
      FilterSplits(keep, rest, b);
      hide Filter;
      FilterUnfold(keep, a[0], rest);
      FilterUnfold(keep, a[0], rest + b);
      assert a == [a[0]] + rest && a + b == [a[0]] + (rest + b);
      assert first + Filter(keep, rest) + Filter(keep, b) == first + (Filter(keep, rest) + Filter(keep, b));
    }
  }

  // ---------------------------------------------------------------- what is due at a call

  function TimeoutOf(env: Env, p: Position): Option<nat> {
    match env.world.mapper(p.call)
    case Err(_) => None
    case Ok(request) =>
      if "browser." <= request.actionKind && env.controls.browserOperationTimeout.Some?
      then env.controls.browserOperationTimeout
      else env.controls.actionTimeout
  }

  /** The call is handed to the action runtime: nobody cancelled, the plan has no result to take, and
      the mapper accepts it. */
  predicate Runs(env: Env, intr: Interrupts, plan: ResumePlan, p: Position) {
    !intr.cancelledBeforeCall(p) && !plan.Skips(p.call.id) && env.world.mapper(p.call).Ok?
  }

  /** The outcome of an attempt that ends at this call: cancelled before it, or its action late. */
  function Cut(env: Env, intr: Interrupts, plan: ResumePlan, p: Position): Option<ToolLoopOutcome> {
    if intr.cancelledBeforeCall(p) then Some(Cancelled("run cancelled", p.turn))
    else if Runs(env, intr, plan, p) && TimeoutOf(env, p).Some? && intr.actionLate(p) then
      Some(TimedOut(if "browser." <= p.call.name then BrowserOperation else Action,
                    Min(TimeoutOf(env, p).value, U64_MAX), p.turn))
    else None
  }

  function ToRun(env: Env, intr: Interrupts, plan: ResumePlan): Position -> bool {
    p => Runs(env, intr, plan, p)
  }

  function ToTake(intr: Interrupts, plan: ResumePlan): Position -> bool {
    p => !intr.cancelledBeforeCall(p) && plan.Skips(p.call.id)
  }

  /** The call gets a result that is recorded: it runs in time and the action runtime answers. */
  function ToRecord(env: Env, intr: Interrupts, plan: ResumePlan): Position -> bool {
    p => Runs(env, intr, plan, p) && Cut(env, intr, plan, p).None? && CheckpointFor(env, p).Some?
  }

  const IS_RESULT: Checkpoint -> bool := (c: Checkpoint) => c.kind == CheckpointKind.ToolResult

  const IS_MARK: Checkpoint -> bool := (c: Checkpoint) => c.kind != CheckpointKind.ToolResult

  function RecordsOf(env: Env, ps: seq<Position>): seq<Checkpoint> {
    seq(|ps|, i requires 0 <= i < |ps| =>
      Checkpoint(env.runId, ps[i].turn as nat, CheckpointKind.ToolResult, CheckpointFor(env, ps[i])))
  }

  /** The attempt ends because the next append fails. */
  predicate WriteFails(intr: Interrupts, on: bool, appended: nat, t: Trace, stop: Option<ToolLoopOutcome>, turn: nat) {
    && on && intr.appendFails(appended + |t.emitted|) && turn <= U32_MAX as nat
    && stop == Some(Failed(WRITE_FAILED, turn as u32))
  }

  /** The last call reached was answered, and its append fails. */
  predicate LastWriteFails(env: Env, intr: Interrupts, plan: ResumePlan, on: bool, appended: nat, t: Trace,
                           stop: Option<ToolLoopOutcome>)
  {
    && t.reached != [] && t.reached[|t.reached| - 1].turn > 0
    && ToRecord(env, intr, plan)(t.reached[|t.reached| - 1])
    && WriteFails(intr, on, appended, t, stop, t.reached[|t.reached| - 1].turn as nat - 1)
  }

  /** Of the calls reached, exactly those due to run were executed, in order, and exactly those the
      plan answers were taken from it; in particular none of them was cancelled before. */
  predicate DoesItsCalls(env: Env, intr: Interrupts, plan: ResumePlan, t: Trace) {
    && t.executed == Filter(ToRun(env, intr, plan), t.reached)
    && t.skipped == Filter(ToTake(intr, plan), t.reached)
  }

  /** No call after a cut is reached, and a cut is the outcome. */
  predicate HeedsCuts(env: Env, intr: Interrupts, plan: ResumePlan, t: Trace, stop: Option<ToolLoopOutcome>) {
    forall k | 0 <= k < |t.reached| && Cut(env, intr, plan, t.reached[k]).Some? ::
      k == |t.reached| - 1 && stop == Cut(env, intr, plan, t.reached[k])
  }

  predicate Appends(intr: Interrupts, on: bool, n: nat) {
    on && !intr.appendFails(n)
  }

  predicate NoAppendFailed(intr: Interrupts, on: bool, appended: nat, t: Trace) {
    forall k | appended <= k < appended + |t.emitted| :: Appends(intr, on, k)
  }

  /** The results recorded are those of the calls that were answered, but for the one whose append
      ends the attempt. */
  predicate RecordsAnswers(env: Env, intr: Interrupts, plan: ResumePlan, on: bool, appended: nat, t: Trace,
                           stop: Option<ToolLoopOutcome>)
  {
    var due := if on then RecordsOf(env, Filter(ToRecord(env, intr, plan), t.reached)) else [];
    var written := Filter(IS_RESULT, t.emitted);
    || written == due
    || (due != [] && written == due[..|due| - 1] && LastWriteFails(env, intr, plan, on, appended, t, stop))
  }

  predicate Met(env: Env, intr: Interrupts, plan: ResumePlan, on: bool, appended: nat, t: Trace,
                stop: Option<ToolLoopOutcome>)
  {
    && DoesItsCalls(env, intr, plan, t) && HeedsCuts(env, intr, plan, t, stop)
    && NoAppendFailed(intr, on, appended, t) && RecordsAnswers(env, intr, plan, on, appended, t, stop)
  }

  /** The attempt ends at the last call reached. */
  predicate EndsAtCall(env: Env, intr: Interrupts, plan: ResumePlan, on: bool, appended: nat, t: Trace,
                       stop: Option<ToolLoopOutcome>)
  {
    && t.reached != [] && stop.Some?
    && (Cut(env, intr, plan, t.reached[|t.reached| - 1]) == stop ||
        LastWriteFails(env, intr, plan, on, appended, t, stop))
  }

  /** Every call issued is reached, unless the attempt ends at the last one reached. */
  predicate ReachesAll(env: Env, intr: Interrupts, plan: ResumePlan, on: bool, appended: nat, t: Trace,
                       stop: Option<ToolLoopOutcome>)
  {
    t.reached <= t.issued && (t.reached == t.issued || EndsAtCall(env, intr, plan, on, appended, t, stop))
  }

  // ---------------------------------------------------------------- calls

  lemma FilterOne<T>(keep: T -> bool, x: T)
    ensures Filter(keep, [x]) == if keep(x) then [x] else []
  {
  }

  lemma CallHasRecord(env: Env, p: Position)
    ensures CheckpointFor(env, p).Some? <==>
      env.world.mapper(p.call).Ok? && env.world.process(p, env.world.mapper(p.call).value).Ok?
  {
  }

  lemma CallRuns(env: Env, intr: Interrupts, plan: ResumePlan, on: bool, appended: nat, p: Position)
    requires p.turn > 0
    ensures
      var t := CallEffectOf(env, intr, plan, on, appended, p).trace;
      && t.reached == [p] && t.executed == (if Runs(env, intr, plan, p) then [p] else [])
      && t.skipped == (if !intr.cancelledBeforeCall(p) && plan.Skips(p.call.id) then [p] else [])
  {
    hide IsReadOnlyToolAction, ActionTimeoutFor;
  }

  lemma CallStops(env: Env, intr: Interrupts, plan: ResumePlan, on: bool, appended: nat, p: Position)
    requires p.turn > 0
    ensures
      CallEffectOf(env, intr, plan, on, appended, p).stop ==
      if Cut(env, intr, plan, p).Some? then Cut(env, intr, plan, p)
      else if on && ToRecord(env, intr, plan)(p) && intr.appendFails(appended)
      then Some(Failed(WRITE_FAILED, p.turn - 1)) else None
  {
    hide IsReadOnlyToolAction, CheckpointFor;
    CallHasRecord(env, p);
  }

  lemma CallEmits(env: Env, intr: Interrupts, plan: ResumePlan, on: bool, appended: nat, p: Position)
    requires p.turn > 0
    ensures
      CallEffectOf(env, intr, plan, on, appended, p).trace.emitted ==
      if on && ToRecord(env, intr, plan)(p) && !intr.appendFails(appended) then RecordsOf(env, [p]) else []
  {
    hide IsReadOnlyToolAction;
  }

  lemma CallIsMet(env: Env, intr: Interrupts, plan: ResumePlan, on: bool, appended: nat, p: Position)
    requires p.turn > 0
    ensures
      var e := CallEffectOf(env, intr, plan, on, appended, p);
      && Met(env, intr, plan, on, appended, e.trace, e.stop)
      && e.trace.reached == [p] && Filter(IS_MARK, e.trace.emitted) == []
      && (e.stop.Some? ==> EndsAtCall(env, intr, plan, on, appended, e.trace, e.stop))
  {
    hide CallEffectOf, Cut, Runs, CheckpointFor;
    FilterOne(ToRun(env, intr, plan), p);
    FilterOne(ToTake(intr, plan), p);
    FilterOne(ToRecord(env, intr, plan), p);
    CallRuns(env, intr, plan, on, appended, p);
    CallStops(env, intr, plan, on, appended, p);
    CallEmits(env, intr, plan, on, appended, p);
    var emitted := CallEffectOf(env, intr, plan, on, appended, p).trace.emitted;
    if emitted != [] {
      assert emitted == [emitted[0]];
      FilterOne(IS_RESULT, emitted[0]);
      FilterOne(IS_MARK, emitted[0]);
    }
  }

  // ---------------------------------------------------------------- one trace after another

  lemma MetContinues(env: Env, intr: Interrupts, plan: ResumePlan, on: bool, appended: nat, a: Trace, b: Trace,
                     stop: Option<ToolLoopOutcome>)
    requires Met(env, intr, plan, on, appended, a, None)
    requires Met(env, intr, plan, on, appended + |a.emitted|, b, stop)
    ensures Met(env, intr, plan, on, appended, a.Plus(b), stop)
  {
    hide Cut, Runs, Filter, WriteFails;
    FilterSplits(ToRun(env, intr, plan), a.reached, b.reached);
    FilterSplits(ToTake(intr, plan), a.reached, b.reached);
    RecordsContinue(env, intr, plan, on, appended, a, b, stop);
  }

  lemma RecordsContinue(env: Env, intr: Interrupts, plan: ResumePlan, on: bool, appended: nat, a: Trace, b: Trace,
                        stop: Option<ToolLoopOutcome>)
    requires RecordsAnswers(env, intr, plan, on, appended, a, None)
    requires RecordsAnswers(env, intr, plan, on, appended + |a.emitted|, b, stop)
    ensures RecordsAnswers(env, intr, plan, on, appended, a.Plus(b), stop)
  {
    hide Cut, Runs, Filter, ToRecord, CheckpointFor, RecordsOf;
    var keep := ToRecord(env, intr, plan);
    FilterSplits(keep, a.reached, b.reached);
    FilterSplits(IS_RESULT, a.emitted, b.emitted);
    RecordsSplit(env, Filter(keep, a.reached), Filter(keep, b.reached));
  }

  lemma RecordsSplit(env: Env, a: seq<Position>, b: seq<Position>)
    ensures RecordsOf(env, a + b) == RecordsOf(env, a) + RecordsOf(env, b)
  {
    hide CheckpointFor;
  }

  /** The calls of a turn are met in order, all of them unless the attempt ends at one. */
  lemma {:induction false} CallsAreMet(env: Env, intr: Interrupts, plan: ResumePlan, on: bool, appended: nat,
                                       turn: u32, calls: seq<ToolCall>, i: nat)
    requires turn > 0 && i <= |calls|
    ensures
      var run := CallsFrom(env, intr, plan, on, appended, turn, calls, i);
      && Met(env, intr, plan, on, appended, run.trace, run.stop)
      && run.trace.reached <= Positions(turn, calls)[i..] && Filter(IS_MARK, run.trace.emitted) == []
      && (run.stop.None? ==> run.trace.reached == Positions(turn, calls)[i..])
      && (run.stop.Some? ==> EndsAtCall(env, intr, plan, on, appended, run.trace, run.stop))
    decreases |calls| - i
  {
    hide CallsFrom, CallEffectOf, Met, EndsAtCall;
    CallsUnfold(env, intr, plan, on, appended, turn, calls, i);
    if i == |calls| {
      NothingIsMet(env, intr, plan, on, appended);
    } else {
      var p := Position(turn, i, calls[i]);
      CallIsMet(env, intr, plan, on, appended, p);
      var e := CallEffectOf(env, intr, plan, on, appended, p);
      if e.stop.None? {
        var rest := CallsFrom(env, intr, plan, on, appended + |e.trace.emitted|, turn, calls, i + 1);
        CallsAreMet(env, intr, plan, on, appended + |e.trace.emitted|, turn, calls, i + 1);
        MetContinues(env, intr, plan, on, appended, e.trace, rest.trace, rest.stop);
        EndContinues(env, intr, plan, on, appended, e.trace, rest.trace, rest.stop);
        FilterSplits(IS_MARK, e.trace.emitted, rest.trace.emitted);
        assert Positions(turn, calls)[i..] == [p] + Positions(turn, calls)[i + 1..];
      }
    }
  }

  lemma NothingIsMet(env: Env, intr: Interrupts, plan: ResumePlan, on: bool, appended: nat)
    ensures Met(env, intr, plan, on, appended, NO_TRACE, None)
  {
  }

  lemma EndContinues(env: Env, intr: Interrupts, plan: ResumePlan, on: bool, appended: nat, a: Trace, b: Trace,
                     stop: Option<ToolLoopOutcome>)
    ensures EndsAtCall(env, intr, plan, on, appended + |a.emitted|, b, stop) ==>
      EndsAtCall(env, intr, plan, on, appended, a.Plus(b), stop)
  {
    hide Cut, ToRecord;
  }

  // ---------------------------------------------------------------- what is due at a model call

  /** The k-th model call of the trace, that of turn `turn + k + 1`, and what follows from it: it is made only
      when nobody cancelled before the turn; if it is late, or fails, the attempt ends with that; a text
      ends it too, and only calls go on. */
  predicate AskedAt(env: Env, intr: Interrupts, on: bool, appended: nat, turn: nat, k: nat, t: Trace,
                    stop: Option<ToolLoopOutcome>)
    requires k < |t.prompts|
  {
    var n := turn + k + 1;
    && n <= U32_MAX as nat
    && !intr.cancelledBeforeTurn((n - 1) as u32)
    && if env.controls.modelCallTimeout.Some? && intr.modelCallLate(n as u32) then
         EndsAsking(t, k) &&
         stop == Some(TimedOut(ModelCall, Min(env.controls.modelCallTimeout.value, U64_MAX), (n - 1) as u32))
       else
         match env.world.model(n as u32, t.prompts[k])
         case Err(e) => EndsAsking(t, k) && stop == Some(Failed("model call failed: " + e, (n - 1) as u32))
         case Ok(output) =>
           && k < |t.replies| && t.replies[k] == output
           && (output.Text? ==>
                 && k == |t.prompts| - 1 && stop.Some?
                 && (WriteFails(intr, on, appended, t, stop, n - 1) ||
                     (stop.value.Completed? && stop.value.responseText == output.text &&
                      stop.value.turnsUsed as nat == n - 1)))
  }

  predicate EndsAsking(t: Trace, k: nat) {
    k == |t.prompts| - 1 && |t.replies| == k
  }

  ghost predicate Asks(env: Env, intr: Interrupts, on: bool, appended: nat, turn: nat, t: Trace,
                       stop: Option<ToolLoopOutcome>)
  {
    && |t.replies| <= |t.prompts|
    && forall k | 0 <= k < |t.prompts| :: AskedAt(env, intr, on, appended, turn, k, t, stop)
  }

  /** The checkpoints around `asked` model calls, the first `answered` of which were answered. */
  function Marks(runId: string, turn: nat, asked: nat, answered: nat): seq<Checkpoint>
    decreases asked
  {
    if asked == 0 then []
    else
      [Checkpoint(runId, turn + 1, BeforeModelCall, None)] +
      (if answered == 0 then [] else [Checkpoint(runId, turn + 1, AfterModelCall, None)]) +
      Marks(runId, turn + 1, asked - 1, if answered == 0 then 0 else answered - 1)
  }

  /** With a store, every model call is preceded by its checkpoint and every answer followed by
      one, but for an answer whose append ends the attempt. */
  predicate MarksTurns(env: Env, intr: Interrupts, on: bool, appended: nat, turn: nat, t: Trace,
                       stop: Option<ToolLoopOutcome>)
  {
    var written := Filter(IS_MARK, t.emitted);
    if !on then written == []
    else
      || written == Marks(env.runId, turn, |t.prompts|, |t.replies|)
      || (t.replies != [] && stop.Some? && stop.value.Failed? &&
          WriteFails(intr, on, appended, t, stop, stop.value.turnsUsed as nat) &&
          written == Marks(env.runId, turn, |t.prompts|, |t.replies| - 1))
  }

  // ---------------------------------------------------------------- turns

  lemma AnyStopIsMet(env: Env, intr: Interrupts, plan: ResumePlan, on: bool, appended: nat, t: Trace,
                     stop: Option<ToolLoopOutcome>)
    requires Met(env, intr, plan, on, appended, t, None)
    ensures Met(env, intr, plan, on, appended, t, stop)
  {
    hide Cut, ToRecord;
  }

  lemma MarksAreMet(env: Env, intr: Interrupts, plan: ResumePlan, on: bool, appended: nat, t: Trace,
                    stop: Option<ToolLoopOutcome>)
    requires t.reached == t.executed == t.skipped == [] && NoAppendFailed(intr, on, appended, t)
    requires Filter(IS_RESULT, t.emitted) == []
    ensures Met(env, intr, plan, on, appended, t, stop)
  {
    hide Cut, ToRecord;
  }

  lemma EndIsNoBudget(env: Env, intr: Interrupts, plan: ResumePlan, on: bool, appended: nat, t: Trace,
                      stop: Option<ToolLoopOutcome>)
    requires EndsAtCall(env, intr, plan, on, appended, t, stop)
    ensures !stop.value.MaxTurnsReached? && !stop.value.Completed?
  {
    hide Runs, ToRecord;
  }

  lemma BothMarks(before: Checkpoint, after: Checkpoint)
    requires IS_MARK(before) && IS_MARK(after)
    ensures Filter(IS_RESULT, [before]) == Filter(IS_RESULT, [before] + [after]) == []
    ensures Filter(IS_MARK, [before]) == [before] && Filter(IS_MARK, [before] + [after]) == [before] + [after]
  {
    FilterOne(IS_RESULT, before);
    FilterOne(IS_RESULT, after);
    FilterOne(IS_MARK, before);
    FilterOne(IS_MARK, after);
    FilterSplits(IS_RESULT, [before], [after]);
    FilterSplits(IS_MARK, [before], [after]);
  }

  lemma ListedMarks(env: Env, on: bool, t: u32, messages: seq<Message>, output: ModelOutput)
    requires t > 0 && output.ToolCalls?
    ensures
      var emitted := ListedTrace(env, on, t, messages, output).emitted;
      && Filter(IS_RESULT, emitted) == [] && Filter(IS_MARK, emitted) == emitted
      && emitted == if on then Marks(env.runId, t as nat - 1, 1, 1) else []
  {
    var before := Checkpoint(env.runId, t as nat, BeforeModelCall, None);
    var after := Checkpoint(env.runId, t as nat, AfterModelCall, None);
    if on {
      BothMarks(before, after);
    }
  }

  lemma CallsOfTurnAreMet(env: Env, intr: Interrupts, plan: ResumePlan, on: bool, appended: nat, t: u32,
                          messages: seq<Message>, usage: Usage, made: nat, output: ModelOutput)
    requires t > 0 && output.ToolCalls?
    requires NoAppendFailed(intr, on, appended, ListedTrace(env, on, t, messages, output))
    ensures
      var listed := ListedTrace(env, on, t, messages, output);
      var e :=
        CallsOfTurn(env, intr, plan, on, appended, t, messages, usage, made, output.content, output.calls, listed);
      && Met(env, intr, plan, on, appended, e.trace, e.stop)
      && ReachesAll(env, intr, plan, on, appended, e.trace, e.stop)
      && e.trace.prompts == [messages] && e.trace.replies == [output]
      && (forall k | 0 <= k < |e.trace.reached| :: e.trace.reached[k].turn == t)
      && (e.stop.None? ==> e.trace.reached == e.trace.issued && t < env.maxTurns)
      && (e.stop.Some? ==>
            (e.stop == Some(MaxTurnsReached(output.calls, t)) && t >= env.maxTurns &&
             e.trace.reached == e.trace.issued) ||
            EndsAtCall(env, intr, plan, on, appended, e.trace, e.stop))
      && Filter(IS_MARK, e.trace.emitted) == listed.emitted
  {
    hide CallsFrom, AssistantMessage, ToolMessages, Met, EndsAtCall, Filter, Positions;
    var listed := ListedTrace(env, on, t, messages, output);
    var count := appended + |listed.emitted|;
    var cr := CallsFrom(env, intr, plan, on, count, t, output.calls, 0);
    ListedCallsAreMet(env, intr, plan, on, appended, t, messages, output);
    CallsAskNothing(env, intr, plan, on, count, t, output.calls, 0);
    CallsOfOneTurn(t, output.calls, cr.trace.reached);
    assert [] + cr.trace.reached == cr.trace.reached;
    if cr.stop.None? {
      AnyStopIsMet(env, intr, plan, on, appended, listed.Plus(cr.trace), Some(MaxTurnsReached(output.calls, t)));
    }
  }

  lemma CallsOfOneTurn(t: u32, calls: seq<ToolCall>, reached: seq<Position>)
    requires reached <= Positions(t, calls)
    ensures forall k | 0 <= k < |reached| :: reached[k].turn == t
  {
  }

  lemma ListedCallsAreMet(env: Env, intr: Interrupts, plan: ResumePlan, on: bool, appended: nat, t: u32,
                          messages: seq<Message>, output: ModelOutput)
    requires t > 0 && output.ToolCalls?
    requires NoAppendFailed(intr, on, appended, ListedTrace(env, on, t, messages, output))
    ensures
      var listed := ListedTrace(env, on, t, messages, output);
      var cr := CallsFrom(env, intr, plan, on, appended + |listed.emitted|, t, output.calls, 0);
      && Met(env, intr, plan, on, appended, listed.Plus(cr.trace), cr.stop)
      && cr.trace.reached <= Positions(t, output.calls)
      && (cr.stop.None? ==> cr.trace.reached == Positions(t, output.calls))
      && (cr.stop.Some? ==> EndsAtCall(env, intr, plan, on, appended, listed.Plus(cr.trace), cr.stop))
      && Filter(IS_MARK, listed.emitted + cr.trace.emitted) == listed.emitted
  {
    hide CallsFrom, Met, EndsAtCall, Filter, Positions;
    var listed := ListedTrace(env, on, t, messages, output);
    var count := appended + |listed.emitted|;
    var cr := CallsFrom(env, intr, plan, on, count, t, output.calls, 0);
    CallsAreMet(env, intr, plan, on, count, t, output.calls, 0);
    assert Positions(t, output.calls)[0..] == Positions(t, output.calls);
    ListedMarks(env, on, t, messages, output);
    MarksAreMet(env, intr, plan, on, appended, listed, None);
    MetContinues(env, intr, plan, on, appended, listed, cr.trace, cr.stop);
    EndContinues(env, intr, plan, on, appended, listed, cr.trace, cr.stop);
    FilterSplits(IS_MARK, listed.emitted, cr.trace.emitted);
    assert listed.emitted + [] == listed.emitted;
  }

  /** The turn gets as far as the calls of its reply. */
  predicate GoesToCalls(env: Env, intr: Interrupts, on: bool, appended: nat, turn: u32, messages: seq<Message>)
    requires turn < env.maxTurns
  {
    && !(on && (intr.appendFails(appended) || intr.appendFails(appended + 1)))
    && !(env.controls.modelCallTimeout.Some? && intr.modelCallLate(turn + 1))
    && env.world.model(turn + 1, messages).Ok? && env.world.model(turn + 1, messages).value.ToolCalls?
  }

  lemma TurnWithoutCalls(env: Env, intr: Interrupts, plan: ResumePlan, on: bool, appended: nat,
                         turn: u32, messages: seq<Message>, usage: Usage, made: nat)
    requires turn < env.maxTurns && !intr.cancelledBeforeTurn(turn)
    requires !GoesToCalls(env, intr, on, appended, turn, messages)
    ensures
      var e := TurnOf(env, intr, plan, on, appended, turn, messages, usage, made);
      && e.trace.reached == e.trace.executed == e.trace.skipped == [] && e.trace.issued == []
      && NoAppendFailed(intr, on, appended, e.trace) && Filter(IS_RESULT, e.trace.emitted) == []
      && MarksTurns(env, intr, on, appended, turn as nat, e.trace, e.stop)
  {
    hide CallsOfTurn, AddUsage, Positions;
    BothMarks(Checkpoint(env.runId, turn as nat + 1, BeforeModelCall, None),
              Checkpoint(env.runId, turn as nat + 1, AfterModelCall, None));
  }

  lemma TurnAsks(env: Env, intr: Interrupts, plan: ResumePlan, on: bool, appended: nat,
                 turn: u32, messages: seq<Message>, usage: Usage, made: nat)
    requires turn < env.maxTurns && !intr.cancelledBeforeTurn(turn)
    requires !GoesToCalls(env, intr, on, appended, turn, messages)
    ensures
      var e := TurnOf(env, intr, plan, on, appended, turn, messages, usage, made);
      Asks(env, intr, on, appended, turn as nat, e.trace, e.stop)
  {
    hide CallsOfTurn, AddUsage, Positions;
  }

  lemma TurnWithCalls(env: Env, intr: Interrupts, plan: ResumePlan, on: bool, appended: nat,
                      turn: u32, messages: seq<Message>, usage: Usage, made: nat)
    requires turn < env.maxTurns && !intr.cancelledBeforeTurn(turn)
    requires GoesToCalls(env, intr, on, appended, turn, messages)
    ensures
      var output := env.world.model(turn + 1, messages).value;
      var listed := ListedTrace(env, on, turn + 1, messages, output);
      && NoAppendFailed(intr, on, appended, listed)
      && TurnOf(env, intr, plan, on, appended, turn, messages, usage, made) ==
         CallsOfTurn(env, intr, plan, on, appended, turn + 1, messages, AddUsage(usage, output), made,
                     output.content, output.calls, listed)
  {
    hide CallsOfTurn, AddUsage, Positions;
  }

  /** The outcome is due: what it names happened where it says. */
  predicate Due(env: Env, intr: Interrupts, plan: ResumePlan, on: bool, appended: nat, turn: nat, t: Trace,
                outcome: ToolLoopOutcome)
  {
    match outcome
    case Completed(text, n, _, _) =>
      && n as nat + 1 == turn + |t.prompts| && t.replies != [] && |t.replies| == |t.prompts|
      && t.replies[|t.replies| - 1].Text? && t.replies[|t.replies| - 1].text == text
    case MaxTurnsReached(_, n) =>
      n == env.maxTurns && n as nat == turn + |t.prompts| && |t.replies| == |t.prompts| && t.reached == t.issued
    case Cancelled(reason, n) =>
      || EndsAtCall(env, intr, plan, on, appended, t, Some(outcome))
      || (&& reason == "run cancelled" && intr.cancelledBeforeTurn(n) && n as nat == turn + |t.prompts|
          && |t.replies| == |t.prompts| && t.reached == t.issued)
    case TimedOut(operation, _, n) =>
      || EndsAtCall(env, intr, plan, on, appended, t, Some(outcome))
      || (operation == ModelCall && n as nat + 1 == turn + |t.prompts| && |t.replies| + 1 == |t.prompts|)
    case Failed(_, n) =>
      && !intr.cancelledBeforeTurn(n)
      && (WriteFails(intr, on, appended, t, Some(outcome), n as nat) ||
          (n as nat + 1 == turn + |t.prompts| && |t.replies| + 1 == |t.prompts|))
  }

  lemma TurnIsDue(env: Env, intr: Interrupts, plan: ResumePlan, on: bool, appended: nat,
                  turn: u32, messages: seq<Message>, usage: Usage, made: nat)
    requires turn < env.maxTurns && !intr.cancelledBeforeTurn(turn)
    requires !GoesToCalls(env, intr, on, appended, turn, messages)
    ensures
      var e := TurnOf(env, intr, plan, on, appended, turn, messages, usage, made);
      e.stop.Some? && Due(env, intr, plan, on, appended, turn as nat, e.trace, e.stop.value)
  {
    hide CallsOfTurn, AddUsage, Positions, Cut, ToRecord;
  }

  /** All of a turn, in the terms above. */
  ghost predicate Lawful(env: Env, intr: Interrupts, plan: ResumePlan, on: bool, appended: nat, turn: nat, t: Trace,
                         stop: Option<ToolLoopOutcome>)
  {
    && Met(env, intr, plan, on, appended, t, stop) && ReachesAll(env, intr, plan, on, appended, t, stop)
    && Asks(env, intr, on, appended, turn, t, stop) && MarksTurns(env, intr, on, appended, turn, t, stop)
    && (stop.Some? ==> Due(env, intr, plan, on, appended, turn, t, stop.value))
  }

  lemma TurnIsLawful(env: Env, intr: Interrupts, plan: ResumePlan, on: bool, appended: nat,
                     turn: u32, messages: seq<Message>, usage: Usage, made: nat)
    requires turn < env.maxTurns && !intr.cancelledBeforeTurn(turn)
    ensures
      var e := TurnOf(env, intr, plan, on, appended, turn, messages, usage, made);
      && Lawful(env, intr, plan, on, appended, turn as nat, e.trace, e.stop)
      && (e.stop.None? ==>
            && e.trace.prompts == [messages] && |e.trace.replies| == 1 && e.trace.reached == e.trace.issued
            && turn + 1 < env.maxTurns)
  {
    hide TurnOf, Met, EndsAtCall, Filter, MarksTurns, CallsOfTurn;
    var e := TurnOf(env, intr, plan, on, appended, turn, messages, usage, made);
    if GoesToCalls(env, intr, on, appended, turn, messages) {
      TurnWithCalls(env, intr, plan, on, appended, turn, messages, usage, made);
      CallsAreLawful(env, intr, plan, on, appended, turn, messages, usage, made);
    } else {
      TurnWithoutCalls(env, intr, plan, on, appended, turn, messages, usage, made);
      TurnAsks(env, intr, plan, on, appended, turn, messages, usage, made);
      TurnIsDue(env, intr, plan, on, appended, turn, messages, usage, made);
      MarksAreMet(env, intr, plan, on, appended, e.trace, e.stop);
    }
  }

  lemma CallsAreLawful(env: Env, intr: Interrupts, plan: ResumePlan, on: bool, appended: nat,
                       turn: u32, messages: seq<Message>, usage: Usage, made: nat)
    requires turn < env.maxTurns && !intr.cancelledBeforeTurn(turn)
    requires GoesToCalls(env, intr, on, appended, turn, messages)
    requires NoAppendFailed(intr, on, appended,
                            ListedTrace(env, on, turn + 1, messages, env.world.model(turn + 1, messages).value))
    ensures
      var output := env.world.model(turn + 1, messages).value;
      var e := CallsOfTurn(env, intr, plan, on, appended, turn + 1, messages, AddUsage(usage, output), made,
                           output.content, output.calls, ListedTrace(env, on, turn + 1, messages, output));
      && Lawful(env, intr, plan, on, appended, turn as nat, e.trace, e.stop)
      && (e.stop.None? ==>
            && e.trace.prompts == [messages] && |e.trace.replies| == 1 && e.trace.reached == e.trace.issued
            && turn + 1 < env.maxTurns)
  {
    hide Met, Filter, CallsOfTurn, Runs, TimeoutOf, ToRecord;
    var output := env.world.model(turn + 1, messages).value;
    CallsOfTurnAreMet(env, intr, plan, on, appended, turn + 1, messages, AddUsage(usage, output), made, output);
    ListedMarks(env, on, turn + 1, messages, output);
  }

  // ---------------------------------------------------------------- turn after turn

  lemma AskedContinues(env: Env, intr: Interrupts, on: bool, appended: nat, turn: nat, a: Trace, b: Trace,
                       stop: Option<ToolLoopOutcome>)
    requires |a.prompts| == 1 && |a.replies| == 1
    requires Asks(env, intr, on, appended, turn, a, None)
    requires Asks(env, intr, on, appended + |a.emitted|, turn + 1, b, stop)
    ensures Asks(env, intr, on, appended, turn, a.Plus(b), stop)
  {
    var t := a.Plus(b);
    forall k | 0 <= k < |t.prompts|
      ensures AskedAt(env, intr, on, appended, turn, k, t, stop)
    {
      if k == 0 {
        assert AskedAt(env, intr, on, appended, turn, 0, a, None);
      } else {
        assert AskedAt(env, intr, on, appended + |a.emitted|, turn + 1, k - 1, b, stop);
      }
    }
  }

  lemma MarksContinue(env: Env, intr: Interrupts, on: bool, appended: nat, turn: nat, a: Trace, b: Trace,
                      stop: Option<ToolLoopOutcome>)
    requires |a.prompts| == 1 && |a.replies| == 1
    requires MarksTurns(env, intr, on, appended, turn, a, None)
    requires MarksTurns(env, intr, on, appended + |a.emitted|, turn + 1, b, stop)
    ensures MarksTurns(env, intr, on, appended, turn, a.Plus(b), stop)
  {
    hide Filter;
    FilterSplits(IS_MARK, a.emitted, b.emitted);
    assert Marks(env.runId, turn + 1, 0, 0) == [];
  }

  lemma DueContinues(env: Env, intr: Interrupts, plan: ResumePlan, on: bool, appended: nat, turn: nat, a: Trace,
                     b: Trace, outcome: ToolLoopOutcome)
    requires |a.prompts| == 1 && |a.replies| == 1 && a.reached == a.issued
    requires Due(env, intr, plan, on, appended + |a.emitted|, turn + 1, b, outcome)
    requires ReachesAll(env, intr, plan, on, appended + |a.emitted|, b, Some(outcome))
    ensures Due(env, intr, plan, on, appended, turn, a.Plus(b), outcome)
    ensures ReachesAll(env, intr, plan, on, appended, a.Plus(b), Some(outcome))
  {
    hide EndsAtCall;
    EndContinues(env, intr, plan, on, appended, a, b, Some(outcome));
  }

  lemma {:induction false} TurnsAreLawful(env: Env, intr: Interrupts, plan: ResumePlan, on: bool, appended: nat,
                                          turn: u32, messages: seq<Message>, usage: Usage, made: nat)
    requires turn <= env.maxTurns && (turn == env.maxTurns ==> turn == 0)
    ensures
      var run := TurnsFrom(env, intr, plan, on, appended, turn, messages, usage, made);
      Lawful(env, intr, plan, on, appended, turn as nat, run.trace, Some(run.outcome))
    decreases env.maxTurns - turn
  {
    hide TurnsFrom, TurnOf, Met, ReachesAll, Asks, MarksTurns, Due;
    TurnsUnfold(env, intr, plan, on, appended, turn, messages, usage, made);
    var run := TurnsFrom(env, intr, plan, on, appended, turn, messages, usage, made);
    if intr.cancelledBeforeTurn(turn) || turn == env.maxTurns {
      EndsAtHead(env, intr, plan, on, appended, turn, run.outcome);
    } else {
      TurnIsLawful(env, intr, plan, on, appended, turn, messages, usage, made);
      var e := TurnOf(env, intr, plan, on, appended, turn, messages, usage, made);
      if e.stop.None? {
        var count := appended + |e.trace.emitted|;
        var rest := TurnsFrom(env, intr, plan, on, count, turn + 1, e.transcript, e.usage, e.made);
        TurnsAreLawful(env, intr, plan, on, count, turn + 1, e.transcript, e.usage, e.made);
        MetContinues(env, intr, plan, on, appended, e.trace, rest.trace, Some(rest.outcome));
        AskedContinues(env, intr, on, appended, turn as nat, e.trace, rest.trace, Some(rest.outcome));
        MarksContinue(env, intr, on, appended, turn as nat, e.trace, rest.trace, Some(rest.outcome));
        DueContinues(env, intr, plan, on, appended, turn as nat, e.trace, rest.trace, rest.outcome);
      }
    }
  }

  lemma EndsAtHead(env: Env, intr: Interrupts, plan: ResumePlan, on: bool, appended: nat, turn: u32,
                   outcome: ToolLoopOutcome)
    requires turn <= env.maxTurns
    requires if intr.cancelledBeforeTurn(turn) then outcome == Cancelled("run cancelled", turn)
             else turn == env.maxTurns && outcome == MaxTurnsReached([], turn)
    ensures Lawful(env, intr, plan, on, appended, turn as nat, NO_TRACE, Some(outcome))
  {
  }

  // ---------------------------------------------------------------- every attempt

  /** Every attempt, under any world, plan and interruptions, makes exactly the calls that are due,
      writes exactly the checkpoints that are due, and ends with the outcome that is due. */
  lemma EveryAttemptIsLawful(env: Env, intr: Interrupts, plan: ResumePlan, on: bool)
    ensures
      var run := Attempt(env, intr, plan, on);
      if on && intr.loadFails
      then run == Run(Failed("checkpoint load failed: " + STORE_POISONED, 0), env.initial, NO_TRACE)
      else Lawful(env, intr, plan, on, 0, 0, run.trace, Some(run.outcome))
  {
    hide Lawful, TurnsFrom;
    if !(on && intr.loadFails) {
      TurnsAreLawful(env, intr, plan, on, 0, 0, env.initial, Usage(0, 0), 0);
    }
  }

  lemma WriteFailureText()
    ensures WRITE_FAILED == "checkpoint write failed: " + "tool loop checkpoint store poisoned"
  {
  }

  lemma {:induction false} FilterKeeps<T>(keep: T -> bool, s: seq<T>, x: T)
    ensures x in Filter(keep, s) <==> x in s && keep(x)
  {
    if s != [] {
      FilterKeeps(keep, s[1..], x);
    }
  }

  /** A cancelled call does nothing: neither it nor any later one is executed or taken from the plan,
      and the attempt ends Cancelled in that turn; and no model is called in a cancelled turn. */
  lemma CancellationIsHeeded(env: Env, intr: Interrupts, plan: ResumePlan, on: bool)
    ensures
      var run := Attempt(env, intr, plan, on);
      var t := run.trace;
      && (forall p | p in t.executed || p in t.skipped :: p in t.reached && !intr.cancelledBeforeCall(p))
      && (forall k | 0 <= k < |t.reached| && intr.cancelledBeforeCall(t.reached[k]) ::
            k == |t.reached| - 1 && run.outcome == Cancelled("run cancelled", t.reached[k].turn))
      && (forall turn: u32 | turn as nat < |t.prompts| :: !intr.cancelledBeforeTurn(turn))
  {
    hide Attempt, Filter, MarksTurns, Due;
    EveryAttemptIsLawful(env, intr, plan, on);
    var t := Attempt(env, intr, plan, on).trace;
    if !(on && intr.loadFails) {
      forall p | p in t.executed || p in t.skipped
        ensures p in t.reached && !intr.cancelledBeforeCall(p)
      {
        FilterKeeps(ToRun(env, intr, plan), t.reached, p);
        FilterKeeps(ToTake(intr, plan), t.reached, p);
      }
      forall turn: u32 | turn as nat < |t.prompts|
        ensures !intr.cancelledBeforeTurn(turn)
      {
        assert AskedAt(env, intr, on, 0, 0, turn as nat, t, Some(Attempt(env, intr, plan, on).outcome));
      }
    }
  }

  // ---------------------------------------------------------------- which results may be skipped

  /** An action is read-only when its kind contains one of five parts, anywhere. */
  lemma ReadOnlyKinds(kind: string)
    ensures IsReadOnlyToolAction(kind) <==>
      exists before, part, after ::
        kind == before + part + after && part in {".search", ".read", ".list", ".get", ".fetch"}
  {
    if part: string :| part in {".search", ".read", ".list", ".get", ".fetch"} && Contains(kind, part) {
      var i: nat :| i <= |kind| && OccursAt(kind, part, i);
      assert kind == kind[..i] + part + kind[i + |part|..];
    }
    forall before: string, part: string, after: string | kind == before + part + after
      ensures Contains(kind, part)
    {
      assert OccursAt(kind, part, |before|);
    }
  }
}
