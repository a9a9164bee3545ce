/** Crash and resume of the tool loop: an attempt restarted from the checkpoints of crashed
    attempts means the same as a run that was never interrupted -- exactly when read-only calls
    that share an id share their answer. */
module ToolLoopResume {
  import opened Wrappers
  import opened ToolLoopCheckpoint
  import opened ToolLoop
  import opened ToolLoopRecords

  /** The run without checkpoints and without interruption. */
  function Uninterrupted(env: Env): Run {
    Attempt(env, NEVER, EMPTY_PLAN, false)
  }

  /** A crashed attempt: what interrupted it, and how many of its checkpoints were kept. */
  datatype Crash = Crash(interrupts: Interrupts, kept: nat)

  /** The checkpoint log that a sequence of crashed attempts leaves behind. */
  function LogAfter(env: Env, crashes: seq<Crash>): seq<Checkpoint> {
    if crashes == [] then []
    else
      var last := crashes[|crashes| - 1];
      var log := LogAfter(env, crashes[..|crashes| - 1]);
      var emitted := Attempt(env, last.interrupts, PlanOf(log), true).trace.emitted;
      log + if last.kept < |emitted| then emitted[..last.kept] else emitted
  }

  /** The attempt that resumes after those crashes and is not interrupted itself. */
  function Resumed(env: Env, crashes: seq<Crash>): Run {
    Attempt(env, NEVER, PlanOf(LogAfter(env, crashes)), true)
  }

  /** The condition, on the uninterrupted run: a call whose id has a read-only recorded result
      answers with the text of the first recorded result of that id. */
  ghost predicate ReadOnlyIdsAnswerAlike(env: Env) {
    var issued := Uninterrupted(env).trace.issued;
    var results := RecordedBy(env, EMPTY_PLAN, issued);
    forall p | p in issued && AnyReadOnly(results, p.call.id) ::
      FirstWith(results, p.call.id).Some? && FirstWith(results, p.call.id).value.resultText == AnswerOf(env, p)
  }

  /** Equal outcomes, except that a resumed run does not count the `saved` calls it skipped. */
  predicate SameMeaning(resumed: ToolLoopOutcome, uninterrupted: ToolLoopOutcome, saved: nat) {
    match uninterrupted
    case Completed(text, turnsUsed, made, usage) =>
      saved <= made && resumed == Completed(text, turnsUsed, made - saved, usage)
    case _ => resumed == uninterrupted
  }

  /** Every call the plan would skip among `ps` is answered with the text its execution gives. */
  ghost predicate Faithful(env: Env, plan: ResumePlan, ps: seq<Position>) {
    forall k | 0 <= k < |ps| && plan.Skips(ps[k].call.id) ::
      plan.completed[ps[k].call.id].resultText == AnswerOf(env, ps[k])
  }

  // ---------------------------------------------------------------- one call, one turn

  lemma CallsUnfold(env: Env, intr: Interrupts, plan: ResumePlan, on: bool, appended: nat,
                    turn: u32, calls: seq<ToolCall>, i: nat)
    requires turn > 0 && i <= |calls|
    ensures CallsFrom(env, intr, plan, on, appended, turn, calls, i) ==
      if i == |calls| then CallsRun(None, [], 0, NO_TRACE)
      else
        var e := CallEffectOf(env, intr, plan, on, appended, Position(turn, i, calls[i]));
        if e.stop.Some? then CallsRun(e.stop, [], e.made, e.trace)
        else
          CallsFrom(env, intr, plan, on, appended + |e.trace.emitted|, turn, calls, i + 1)
          .After([(calls[i].id, e.result)], e.made, e.trace)
  {
    hide CallEffectOf;
  }

  /** A call under a plan that answers it truthfully. */
  lemma CallAgrees(env: Env, intr: Interrupts, plan: ResumePlan, on: bool, appended: nat, p: Position)
    requires p.turn > 0
    requires plan.Skips(p.call.id) ==> plan.completed[p.call.id].resultText == AnswerOf(env, p)
    ensures
      var a := CallEffectOf(env, intr, plan, on, appended, p);
      var b := CallEffectOf(env, NEVER, EMPTY_PLAN, false, 0, p);
      && b.stop.None? && b.trace.emitted == [] && b.result == AnswerOf(env, p)
      && (intr == NEVER ==> a.stop.None?)
      && (a.stop.None? ==> a.result == b.result && a.made + Mapped(env, a.trace.skipped) == b.made)
  {
    assert !EMPTY_PLAN.Skips(p.call.id);
    assert Mapped(env, [p][1..]) == 0;
  }

  /** What a call records, truthful plan or not: its result, unless it is skipped or cut short. */
  lemma CallRecords(env: Env, intr: Interrupts, plan: ResumePlan, appended: nat, p: Position)
    requires p.turn > 0
    ensures
      var a := CallEffectOf(env, intr, plan, true, appended, p);
      ResultsIn(a.trace.emitted) == if a.stop.None? then RecordedOne(env, plan, p) else []
  {
    var a := CallEffectOf(env, intr, plan, true, appended, p);
    if |a.trace.emitted| == 1 {
      assert ResultsIn(a.trace.emitted[..0]) == [];
    }
  }

  lemma CallNeverStops(env: Env, plan: ResumePlan, on: bool, appended: nat, p: Position)
    requires p.turn > 0
    ensures
      var e := CallEffectOf(env, NEVER, plan, on, appended, p);
      && e.stop.None?
      && e.result == if plan.Skips(p.call.id) then plan.completed[p.call.id].resultText else AnswerOf(env, p)
  {
  }

  /** The results of a turn's calls under a faithful plan are those of the uninterrupted turn. */
  lemma {:induction false} CallsAgree(env: Env, intr: Interrupts, plan: ResumePlan, on: bool, appended: nat,
                                      turn: u32, calls: seq<ToolCall>, i: nat)
    requires turn > 0 && i <= |calls|
    requires Faithful(env, plan, Positions(turn, calls))
    ensures
      var a := CallsFrom(env, intr, plan, on, appended, turn, calls, i);
      var b := CallsFrom(env, NEVER, EMPTY_PLAN, false, 0, turn, calls, i);
      && b.stop.None? && b.trace.emitted == []
      && (intr == NEVER ==> a.stop.None?)
      && (a.stop.None? ==> a.results == b.results && a.made + Mapped(env, a.trace.skipped) == b.made)
    decreases |calls| - i
  {
    hide CallsFrom, CallEffectOf, Mapped, AnswerOf;
    CallsUnfold(env, intr, plan, on, appended, turn, calls, i);
    CallsUnfold(env, NEVER, EMPTY_PLAN, false, 0, turn, calls, i);
    if i == |calls| {
      NothingMapped(env);
    } else {
      var p := Positions(turn, calls)[i];
      assert p == Position(turn, i, calls[i]);
      CallAgrees(env, intr, plan, on, appended, p);
      var e := CallEffectOf(env, intr, plan, on, appended, p);
      CallsAgree(env, intr, plan, on, appended + |e.trace.emitted|, turn, calls, i + 1);
      MappedSplits(env, e.trace.skipped,
                   CallsFrom(env, intr, plan, on, appended + |e.trace.emitted|, turn, calls, i + 1).trace.skipped);
    }
  }

  lemma NothingMapped(env: Env)
    ensures Mapped(env, []) == 0
  {
  }

  /** A turn's calls record a prefix of the results of the calls not skipped, in call order. */
  lemma {:induction false} CallsRecord(env: Env, intr: Interrupts, plan: ResumePlan, appended: nat,
                                       turn: u32, calls: seq<ToolCall>, i: nat)
    requires turn > 0 && i <= |calls|
    ensures
      var run := CallsFrom(env, intr, plan, true, appended, turn, calls, i);
      var results := RecordedBy(env, plan, Positions(turn, calls)[i..]);
      && ResultsIn(run.trace.emitted) <= results
      && (run.stop.None? ==> ResultsIn(run.trace.emitted) == results)
      && (intr == NEVER ==> run.stop.None?)
    decreases |calls| - i
  {
    hide CallsFrom, CallEffectOf, RecordedOne, ResultsIn;
    var ps := Positions(turn, calls)[i..];
    CallsUnfold(env, intr, plan, true, appended, turn, calls, i);
    if i == |calls| {
      NothingRecorded();
    } else {
      var p := Position(turn, i, calls[i]);
      assert ps[0] == p && ps[1..] == Positions(turn, calls)[i + 1..];
      CallRecords(env, intr, plan, appended, p);
      CallNeverStops(env, plan, true, appended, p);
      var e := CallEffectOf(env, intr, plan, true, appended, p);
      if e.stop.None? {
        CallsRecord(env, intr, plan, appended + |e.trace.emitted|, turn, calls, i + 1);
        ResultsSplit(e.trace.emitted,
                     CallsFrom(env, intr, plan, true, appended + |e.trace.emitted|, turn, calls, i + 1).trace.emitted);
      }
    }
  }

  lemma NothingRecorded()
    ensures ResultsIn([]) == []
  {
  }

  /** The results of a turn's calls when nothing interrupts, whatever the plan. */
  lemma {:induction false} CallsResults(env: Env, plan: ResumePlan, on: bool, appended: nat,
                                        turn: u32, calls: seq<ToolCall>, i: nat)
    requires turn > 0 && i <= |calls|
    ensures
      var run := CallsFrom(env, NEVER, plan, on, appended, turn, calls, i);
      && run.stop.None? && |run.results| == |calls| - i
      && forall j | 0 <= j < |calls| - i ::
           run.results[j] == (calls[i + j].id, TextFor(env, plan, Position(turn, i + j, calls[i + j])))
    decreases |calls| - i
  {
    hide CallsFrom, CallEffectOf, TextFor;
    CallsUnfold(env, NEVER, plan, on, appended, turn, calls, i);
    if i < |calls| {
      var p := Position(turn, i, calls[i]);
      CallText(env, plan, on, appended, p);
      var e := CallEffectOf(env, NEVER, plan, on, appended, p);
      CallsResults(env, plan, on, appended + |e.trace.emitted|, turn, calls, i + 1);
    }
  }

  function TextFor(env: Env, plan: ResumePlan, p: Position): string {
    if plan.Skips(p.call.id) then plan.completed[p.call.id].resultText else AnswerOf(env, p)
  }

  lemma CallText(env: Env, plan: ResumePlan, on: bool, appended: nat, p: Position)
    requires p.turn > 0
    ensures
      var e := CallEffectOf(env, NEVER, plan, on, appended, p);
      e.stop.None? && e.result == TextFor(env, plan, p)
  {
    CallNeverStops(env, plan, on, appended, p);
  }

  lemma {:induction false} CallsAskNothing(env: Env, intr: Interrupts, plan: ResumePlan, on: bool, appended: nat,
                                           turn: u32, calls: seq<ToolCall>, i: nat)
    requires turn > 0 && i <= |calls|
    ensures
      var trace := CallsFrom(env, intr, plan, on, appended, turn, calls, i).trace;
      trace.prompts == [] && trace.issued == [] && trace.replies == []
    decreases |calls| - i
  {
    hide CallsFrom;
    CallsUnfold(env, intr, plan, on, appended, turn, calls, i);
    if i < |calls| {
      var e := CallEffectOf(env, intr, plan, on, appended, Position(turn, i, calls[i]));
      assert e.trace.prompts == [] && e.trace.issued == [] && e.trace.replies == [];
      CallsAskNothing(env, intr, plan, on, appended + |e.trace.emitted|, turn, calls, i + 1);
    }
  }

  /** A turn under a faithful plan: it shows the model the same transcript, and if it ends
      normally it leaves the transcript and usage of the uninterrupted turn. */
  ghost predicate TurnsMatch(env: Env, a: TurnEffect, b: TurnEffect, made: nat, made': nat) {
    && a.transcript == b.transcript && a.usage == b.usage
    && a.trace.prompts == b.trace.prompts && a.trace.issued == b.trace.issued
    && a.made - made + Mapped(env, a.trace.skipped) == b.made - made'
  }

  ghost predicate TurnFollows(env: Env, intr: Interrupts, a: TurnEffect, b: TurnEffect, messages: seq<Message>,
                              made: nat, made': nat)
  {
    && a.trace.prompts <= b.trace.prompts && a.trace.issued <= b.trace.issued
    && b.trace.emitted == []
    && (a.stop.Some? ==> a.transcript == messages || a.transcript == b.transcript)
    && (a.stop.None? ==> b.stop.None? && TurnsMatch(env, a, b, made, made'))
    && (intr == NEVER ==> TurnsMatch(env, a, b, made, made') && (a.stop.None? <==> b.stop.None?))
    && (intr == NEVER && a.stop.Some? ==>
          if b.stop.value.Completed? then
            && b.stop.value.toolCallsMade == made' && a.trace.skipped == []
            && a.stop.value == b.stop.value.(toolCallsMade := made)
          else a.stop == b.stop)
  }

  lemma TurnAgrees(env: Env, intr: Interrupts, plan: ResumePlan, on: bool, appended: nat,
                   turn: u32, messages: seq<Message>, usage: Usage, made: nat, made': nat)
    requires turn < env.maxTurns
    requires Faithful(env, plan, TurnOf(env, NEVER, EMPTY_PLAN, false, 0, turn, messages, usage, made').trace.issued)
    ensures TurnFollows(env, intr,
              TurnOf(env, intr, plan, on, appended, turn, messages, usage, made),
              TurnOf(env, NEVER, EMPTY_PLAN, false, 0, turn, messages, usage, made'), messages, made, made')
  {
    var reply := env.world.model(turn + 1, messages);
    if reply.Ok? && reply.value.ToolCalls? {
      hide TurnOf;
      TurnIssues(env, turn, messages, usage, made');
      TurnWithCallsAgrees(env, intr, plan, on, appended, turn, messages, usage, made, made');
    } else {
      hide CallsFrom, AddUsage, DurationMillis;
    }
  }

  lemma TurnWithCallsAgrees(env: Env, intr: Interrupts, plan: ResumePlan, on: bool, appended: nat,
                            turn: u32, messages: seq<Message>, usage: Usage, made: nat, made': nat)
    requires turn < env.maxTurns
    requires env.world.model(turn + 1, messages).Ok? && env.world.model(turn + 1, messages).value.ToolCalls?
    requires Faithful(env, plan, Positions(turn + 1, env.world.model(turn + 1, messages).value.calls))
    ensures TurnFollows(env, intr,
              TurnOf(env, intr, plan, on, appended, turn, messages, usage, made),
              TurnOf(env, NEVER, EMPTY_PLAN, false, 0, turn, messages, usage, made'), messages, made, made')
  {
    hide TurnOf, CallsOfTurn, AddUsage, Positions, Mapped, Faithful;
    var output := env.world.model(turn + 1, messages).value;
    UncutTurn(env, turn, messages, usage, made');
    TurnExitsEarlyOrCalls(env, intr, plan, on, appended, turn, messages, usage, made);
    CallsOfTurnAgree(env, intr, plan, on, appended, turn + 1, messages, AddUsage(usage, output), made, made',
                     output.content, output.calls, ListedTrace(env, on, turn + 1, messages, output),
                     ListedTrace(env, false, turn + 1, messages, output));
  }

  /** What a turn has done before the calls of its reply. */
  function ListedTrace(env: Env, on: bool, t: u32, messages: seq<Message>, output: ModelOutput): Trace
    requires t > 0 && output.ToolCalls?
  {
    Trace(MaybeCheckpoint(on, Checkpoint(env.runId, t as nat, BeforeModelCall, None)) +
          MaybeCheckpoint(on, Checkpoint(env.runId, t as nat, AfterModelCall, None)),
          [], [], Positions(t, output.calls), [], [messages], [output])
  }

  lemma UncutTurn(env: Env, turn: u32, messages: seq<Message>, usage: Usage, made: nat)
    requires turn < env.maxTurns
    requires env.world.model(turn + 1, messages).Ok? && env.world.model(turn + 1, messages).value.ToolCalls?
    ensures
      var output := env.world.model(turn + 1, messages).value;
      TurnOf(env, NEVER, EMPTY_PLAN, false, 0, turn, messages, usage, made) ==
      CallsOfTurn(env, NEVER, EMPTY_PLAN, false, 0, turn + 1, messages, AddUsage(usage, output), made,
                  output.content, output.calls, ListedTrace(env, false, turn + 1, messages, output))
  {
    hide CallsOfTurn, AddUsage, DurationMillis, Positions;
  }

  /** A turn whose reply has calls is cut before them, or goes on with them. */
  lemma TurnExitsEarlyOrCalls(env: Env, intr: Interrupts, plan: ResumePlan, on: bool, appended: nat,
                              turn: u32, messages: seq<Message>, usage: Usage, made: nat)
    requires turn < env.maxTurns
    requires env.world.model(turn + 1, messages).Ok? && env.world.model(turn + 1, messages).value.ToolCalls?
    ensures
      var output := env.world.model(turn + 1, messages).value;
      var e := TurnOf(env, intr, plan, on, appended, turn, messages, usage, made);
      || (&& e.stop.Some? && (e.stop.value.Failed? || e.stop.value.TimedOut?) && e.transcript == messages
          && e.trace.issued == [] && e.trace.prompts <= [messages] && intr != NEVER)
      || e == CallsOfTurn(env, intr, plan, on, appended, turn + 1, messages, AddUsage(usage, output), made,
                          output.content, output.calls, ListedTrace(env, on, turn + 1, messages, output))
  {
    hide CallsOfTurn, AddUsage, DurationMillis, Positions;
  }

  /** The calls of a turn, after traces that differ in their checkpoints only. */
  lemma CallsOfTurnAgree(env: Env, intr: Interrupts, plan: ResumePlan, on: bool, appended: nat, t: u32,
                         messages: seq<Message>, usage: Usage, made: nat, made': nat,
                         content: Option<string>, calls: seq<ToolCall>, listed: Trace, listed': Trace)
    requires t > 0 && Faithful(env, plan, Positions(t, calls))
    requires listed.prompts == listed'.prompts && listed.issued == listed'.issued
    requires listed.skipped == listed'.skipped == [] && listed'.emitted == []
    ensures
      var a := CallsOfTurn(env, intr, plan, on, appended, t, messages, usage, made, content, calls, listed);
      var b := CallsOfTurn(env, NEVER, EMPTY_PLAN, false, 0, t, messages, usage, made', content, calls, listed');
      && TurnFollows(env, intr, a, b, messages, made, made')
      && b.trace.prompts == listed'.prompts && b.trace.issued == listed'.issued
  {
    hide CallsFrom, AssistantMessage, ToolMessages, Positions, Mapped, AnswerOf, Faithful;
    var count := appended + |listed.emitted|;
    CallsAskNothing(env, intr, plan, on, count, t, calls, 0);
    CallsAskNothing(env, NEVER, EMPTY_PLAN, false, 0, t, calls, 0);
    NothingIsSkipped(env, EMPTY_PLAN, Positions(t, calls));
    CallsAgree(env, NEVER, EMPTY_PLAN, false, 0, t, calls, 0);
    CallsAgree(env, intr, plan, on, count, t, calls, 0);
    var skipped := CallsFrom(env, intr, plan, on, count, t, calls, 0).trace.skipped;
    assert [] + skipped == skipped;
    NothingMapped(env);
  }

  lemma NothingIsSkipped(env: Env, plan: ResumePlan, ps: seq<Position>)
    requires plan == EMPTY_PLAN
    ensures Faithful(env, plan, ps)
  {
  }

  lemma TurnIssues(env: Env, turn: u32, messages: seq<Message>, usage: Usage, made: nat)
    requires turn < env.maxTurns
    requires env.world.model(turn + 1, messages).Ok? && env.world.model(turn + 1, messages).value.ToolCalls?
    ensures
      TurnOf(env, NEVER, EMPTY_PLAN, false, 0, turn, messages, usage, made).trace.issued
      == Positions(turn + 1, env.world.model(turn + 1, messages).value.calls)
  {
    hide CallsFrom, AssistantMessage, ToolMessages, AddUsage, DurationMillis;
    CallsAskNothing(env, NEVER, EMPTY_PLAN, false, 0, turn + 1, env.world.model(turn + 1, messages).value.calls, 0);
  }

  /** The checkpoints of a turn besides those of its calls hold no results. */
  lemma TurnEmits(env: Env, intr: Interrupts, plan: ResumePlan, appended: nat,
                  turn: u32, messages: seq<Message>, usage: Usage, made: nat)
    requires turn < env.maxTurns
    ensures
      var e := TurnOf(env, intr, plan, true, appended, turn, messages, usage, made);
      var reply := env.world.model(turn + 1, messages);
      var first := Checkpoint(env.runId, turn as nat + 1, BeforeModelCall, None);
      var second := Checkpoint(env.runId, turn as nat + 1, AfterModelCall, None);
      if reply.Ok? && reply.value.ToolCalls? && |e.trace.emitted| >= 2 then
        var run := CallsFrom(env, intr, plan, true, appended + 2, turn + 1, reply.value.calls, 0);
        e.trace.emitted == [first, second] + run.trace.emitted && (e.stop.None? ==> run.stop.None?)
      else
        (e.trace.emitted == [] || e.trace.emitted == [first] || e.trace.emitted == [first, second])
        && (reply.Ok? && reply.value.ToolCalls? ==> e.stop.Some? && intr != NEVER)
  {
    hide CallsFrom, AssistantMessage, ToolMessages, AddUsage, DurationMillis;
  }

  lemma ModelCheckpointsHoldNoResults(log: seq<Checkpoint>)
    requires |log| <= 2 && forall c | c in log :: c.kind != CheckpointKind.ToolResult
    ensures ResultsIn(log) == []
  {
    if |log| == 2 {
      assert log[..1][..0] == [];
      assert ResultsIn(log[..1]) == ResultsIn([]) + ResultIn(log[0]);
    }
  }

  /** A turn records a prefix of the results of its calls, and all of them when it is not cut short. */
  lemma TurnRecords(env: Env, intr: Interrupts, plan: ResumePlan, appended: nat,
                    turn: u32, messages: seq<Message>, usage: Usage, made: nat, made': nat)
    requires turn < env.maxTurns
    ensures
      var e := TurnOf(env, intr, plan, true, appended, turn, messages, usage, made);
      var b := TurnOf(env, NEVER, EMPTY_PLAN, false, 0, turn, messages, usage, made');
      && ResultsIn(e.trace.emitted) <= RecordedBy(env, plan, b.trace.issued)
      && (e.stop.None? || intr == NEVER ==> ResultsIn(e.trace.emitted) == RecordedBy(env, plan, b.trace.issued))
  {
    hide CallsFrom, TurnOf, ResultsIn, RecordedBy;
    var reply := env.world.model(turn + 1, messages);
    var e := TurnOf(env, intr, plan, true, appended, turn, messages, usage, made);
    TurnEmits(env, intr, plan, appended, turn, messages, usage, made);
    if reply.Ok? && reply.value.ToolCalls? {
      TurnIssues(env, turn, messages, usage, made');
      CallsRecord(env, intr, plan, appended + 2, turn + 1, reply.value.calls, 0);
      assert Positions(turn + 1, reply.value.calls)[0..] == Positions(turn + 1, reply.value.calls);
      if |e.trace.emitted| >= 2 {
        ModelCheckpointsHoldNoResults(e.trace.emitted[..2]);
        ResultsSplit(e.trace.emitted[..2], e.trace.emitted[2..]);
        assert e.trace.emitted == e.trace.emitted[..2] + e.trace.emitted[2..];
        assert e.trace.emitted[2..] ==
          CallsFrom(env, intr, plan, true, appended + 2, turn + 1, reply.value.calls, 0).trace.emitted;
      } else {
        ModelCheckpointsHoldNoResults(e.trace.emitted);
      }
    } else {
      ModelCheckpointsHoldNoResults(e.trace.emitted);
      OtherRepliesIssueNothing(env, turn, messages, usage, made');
      OtherRepliesEndTheTurn(env, intr, plan, true, appended, turn, messages, usage, made);
      NothingToRecord(env, plan);
    }
  }

  lemma NothingToRecord(env: Env, plan: ResumePlan)
    ensures RecordedBy(env, plan, []) == []
  {
  }

  lemma OtherRepliesIssueNothing(env: Env, turn: u32, messages: seq<Message>, usage: Usage, made: nat)
    requires turn < env.maxTurns
    requires
      var reply := env.world.model(turn + 1, messages);
      !(reply.Ok? && reply.value.ToolCalls?)
    ensures TurnOf(env, NEVER, EMPTY_PLAN, false, 0, turn, messages, usage, made).trace.issued == []
  {
  }

  lemma OtherRepliesEndTheTurn(env: Env, intr: Interrupts, plan: ResumePlan, on: bool, appended: nat,
                               turn: u32, messages: seq<Message>, usage: Usage, made: nat)
    requires turn < env.maxTurns
    requires
      var reply := env.world.model(turn + 1, messages);
      !(reply.Ok? && reply.value.ToolCalls?)
    ensures TurnOf(env, intr, plan, on, appended, turn, messages, usage, made).stop.Some?
  {
  }

  // ---------------------------------------------------------------- whole runs

  lemma FaithfulParts(env: Env, plan: ResumePlan, front: seq<Position>, back: seq<Position>)
    ensures Faithful(env, plan, front + back) <==> Faithful(env, plan, front) && Faithful(env, plan, back)
  {
    hide AnswerOf;
    var all := front + back;
    assert forall k | 0 <= k < |front| :: all[k] == front[k];
    assert forall k | 0 <= k < |back| :: all[|front| + k] == back[k];
  }

  lemma TurnsUnfold(env: Env, intr: Interrupts, plan: ResumePlan, on: bool, appended: nat,
                    turn: u32, messages: seq<Message>, usage: Usage, made: nat)
    requires turn <= env.maxTurns
    ensures TurnsFrom(env, intr, plan, on, appended, turn, messages, usage, made) ==
      if intr.cancelledBeforeTurn(turn) then Run(Cancelled("run cancelled", turn), messages, NO_TRACE)
      else if turn >= env.maxTurns then Run(MaxTurnsReached([], turn), messages, NO_TRACE)
      else
        var e := TurnOf(env, intr, plan, on, appended, turn, messages, usage, made);
        if e.stop.Some? then Run(e.stop.value, e.transcript, e.trace)
        else
          TurnsFrom(env, intr, plan, on, appended + |e.trace.emitted|, turn + 1, e.transcript, e.usage, e.made)
          .After(e.trace)
  {
    hide TurnOf;
  }

  lemma TurnGrows(env: Env, intr: Interrupts, plan: ResumePlan, on: bool, appended: nat,
                  turn: u32, messages: seq<Message>, usage: Usage, made: nat)
    requires turn < env.maxTurns
    ensures messages <= TurnOf(env, intr, plan, on, appended, turn, messages, usage, made).transcript
  {
    hide CallsFrom, AssistantMessage, ToolMessages, AddUsage, DurationMillis;
  }

  /** Transcripts only grow. */
  lemma {:induction false} TranscriptGrows(env: Env, intr: Interrupts, plan: ResumePlan, on: bool, appended: nat,
                                           turn: u32, messages: seq<Message>, usage: Usage, made: nat)
    requires turn <= env.maxTurns
    ensures messages <= TurnsFrom(env, intr, plan, on, appended, turn, messages, usage, made).transcript
    decreases env.maxTurns - turn
  {
    hide TurnsFrom, TurnOf;
    TurnsUnfold(env, intr, plan, on, appended, turn, messages, usage, made);
    if turn < env.maxTurns && !intr.cancelledBeforeTurn(turn) {
      TurnGrows(env, intr, plan, on, appended, turn, messages, usage, made);
      var e := TurnOf(env, intr, plan, on, appended, turn, messages, usage, made);
      if e.stop.None? {
        TranscriptGrows(env, intr, plan, on, appended + |e.trace.emitted|, turn + 1, e.transcript, e.usage, e.made);
      }
    }
  }

  /** An attempt follows the uninterrupted run: it never shows the model, nor ends on, a transcript
      that the uninterrupted run does not pass through. */
  ghost predicate Follows(a: Run, b: Run) {
    a.trace.prompts <= b.trace.prompts && a.transcript <= b.transcript
  }

  /** The run under a faithful plan follows the uninterrupted run for as long as it lasts. */
  lemma {:induction false} TurnsAgree(env: Env, intr: Interrupts, plan: ResumePlan, on: bool, appended: nat,
                                      turn: u32, messages: seq<Message>, usage: Usage, made: nat, made': nat)
    requires turn <= env.maxTurns && made <= made'
    requires Faithful(env, plan, TurnsFrom(env, NEVER, EMPTY_PLAN, false, 0, turn, messages, usage, made').trace.issued)
    ensures
      var a := TurnsFrom(env, intr, plan, on, appended, turn, messages, usage, made);
      var b := TurnsFrom(env, NEVER, EMPTY_PLAN, false, 0, turn, messages, usage, made');
      && Follows(a, b)
      && (intr == NEVER ==>
            && a.transcript == b.transcript
            && SameMeaning(a.outcome, b.outcome, made' - made + Mapped(env, a.trace.skipped)))
    decreases env.maxTurns - turn
  {
    hide TurnsFrom, TurnOf, Mapped, Faithful;
    TurnsUnfold(env, intr, plan, on, appended, turn, messages, usage, made);
    TurnsUnfold(env, NEVER, EMPTY_PLAN, false, 0, turn, messages, usage, made');
    TranscriptGrows(env, NEVER, EMPTY_PLAN, false, 0, turn, messages, usage, made');
    NothingMapped(env);
    if turn < env.maxTurns && !intr.cancelledBeforeTurn(turn) {
      var a := TurnOf(env, intr, plan, on, appended, turn, messages, usage, made);
      var b := TurnOf(env, NEVER, EMPTY_PLAN, false, 0, turn, messages, usage, made');
      if b.stop.None? {
        var rest :=
          TurnsFrom(env, NEVER, EMPTY_PLAN, false, |b.trace.emitted|, turn + 1, b.transcript, b.usage, b.made);
        FaithfulParts(env, plan, b.trace.issued, rest.trace.issued);
        TurnAgrees(env, intr, plan, on, appended, turn, messages, usage, made, made');
        TranscriptGrows(env, NEVER, EMPTY_PLAN, false, 0, turn + 1, b.transcript, b.usage, b.made);
        if a.stop.None? {
          var count := appended + |a.trace.emitted|;
          TurnsAgree(env, intr, plan, on, count, turn + 1, a.transcript, a.usage, a.made, b.made);
          var more := TurnsFrom(env, intr, plan, on, count, turn + 1, a.transcript, a.usage, a.made);
          MappedSplits(env, a.trace.skipped, more.trace.skipped);
        }
      } else {
        TurnAgrees(env, intr, plan, on, appended, turn, messages, usage, made, made');
      }
    }
  }

  /** Such a run records a prefix of the results of the calls not skipped, in issue order. */
  lemma {:induction false} TurnsRecord(env: Env, intr: Interrupts, plan: ResumePlan, appended: nat,
                                       turn: u32, messages: seq<Message>, usage: Usage, made: nat, made': nat)
    requires turn <= env.maxTurns
    requires Faithful(env, plan, TurnsFrom(env, NEVER, EMPTY_PLAN, false, 0, turn, messages, usage, made').trace.issued)
    ensures
      var a := TurnsFrom(env, intr, plan, true, appended, turn, messages, usage, made);
      var b := TurnsFrom(env, NEVER, EMPTY_PLAN, false, 0, turn, messages, usage, made');
      && ResultsIn(a.trace.emitted) <= RecordedBy(env, plan, b.trace.issued)
      && (intr == NEVER ==> ResultsIn(a.trace.emitted) == RecordedBy(env, plan, b.trace.issued))
    decreases env.maxTurns - turn
  {
    hide TurnsFrom, TurnOf, Faithful, ResultsIn, RecordedBy, Mapped;
    TurnsUnfold(env, intr, plan, true, appended, turn, messages, usage, made);
    TurnsUnfold(env, NEVER, EMPTY_PLAN, false, 0, turn, messages, usage, made');
    NothingRecorded();
    NothingToRecord(env, plan);
    if turn < env.maxTurns && !intr.cancelledBeforeTurn(turn) {
      var a := TurnOf(env, intr, plan, true, appended, turn, messages, usage, made);
      var b := TurnOf(env, NEVER, EMPTY_PLAN, false, 0, turn, messages, usage, made');
      TurnRecords(env, intr, plan, appended, turn, messages, usage, made, made');
      if b.stop.None? {
        var rest :=
          TurnsFrom(env, NEVER, EMPTY_PLAN, false, |b.trace.emitted|, turn + 1, b.transcript, b.usage, b.made);
        FaithfulParts(env, plan, b.trace.issued, rest.trace.issued);
        TurnAgrees(env, intr, plan, true, appended, turn, messages, usage, made, made');
        RecordedSplits(env, plan, b.trace.issued, rest.trace.issued);
        if a.stop.None? {
          TurnsRecord(env, intr, plan, appended + |a.trace.emitted|, turn + 1, a.transcript, a.usage, a.made, b.made);
          var more :=
            TurnsFrom(env, intr, plan, true, appended + |a.trace.emitted|, turn + 1, a.transcript, a.usage, a.made);
          ResultsSplit(a.trace.emitted, more.trace.emitted);
        }
      } else {
        TurnAgrees(env, intr, plan, true, appended, turn, messages, usage, made, made');
      }
    }
  }

  // ---------------------------------------------------------------- logs

  /** A log tells the truth about the calls `issued`: its results are theirs, and the first one of
      an id is the first one they record under it. */
  ghost predicate TellsFirst(results: seq<ToolResultCheckpoint>, all: seq<ToolResultCheckpoint>) {
    && (forall r | r in results :: r in all)
    && (forall id | FirstWith(results, id).Some? :: FirstWith(results, id) == FirstWith(all, id))
  }

  /** A plan from such a log is faithful, if read-only calls with one id answer alike. */
  lemma TruthfulLogGivesFaithfulPlan(env: Env, log: seq<Checkpoint>)
    requires ReadOnlyIdsAnswerAlike(env)
    requires TellsFirst(ResultsIn(log), RecordedBy(env, EMPTY_PLAN, Uninterrupted(env).trace.issued))
    ensures Faithful(env, PlanOf(log), Uninterrupted(env).trace.issued)
  {
    hide Uninterrupted, RecordedBy, ResultsIn, AnswerOf;
    var issued := Uninterrupted(env).trace.issued;
    var all := RecordedBy(env, EMPTY_PLAN, issued);
    forall k | 0 <= k < |issued| && PlanOf(log).Skips(issued[k].call.id)
      ensures PlanOf(log).completed[issued[k].call.id].resultText == AnswerOf(env, issued[k])
    {
      var id := issued[k].call.id;
      SkipsByResults(log, id);
      assert issued[k] in issued;
      assert AnyReadOnly(all, id);
    }
  }

  /** What an attempt adds under a plan keeps a log truthful. */
  lemma MoreResultsStayTruthful(env: Env, log: seq<Checkpoint>, issued: seq<Position>, more: seq<ToolResultCheckpoint>)
    requires TellsFirst(ResultsIn(log), RecordedBy(env, EMPTY_PLAN, issued))
    requires more <= RecordedBy(env, PlanOf(log), issued)
    ensures TellsFirst(ResultsIn(log) + more, RecordedBy(env, EMPTY_PLAN, issued))
  {
    hide RecordedBy, ResultsIn;
    var plan := PlanOf(log);
    var added := RecordedBy(env, plan, issued);
    SkippingRecordsNoMore(env, plan, issued);
    assert forall r | r in more :: r in added;
    forall id | FirstWith(ResultsIn(log) + more, id).Some?
      ensures FirstWith(ResultsIn(log) + more, id) == FirstWith(RecordedBy(env, EMPTY_PLAN, issued), id)
    {
      FirstWithSplits(ResultsIn(log), more, id);
      if FirstWith(ResultsIn(log), id).None? {
        SkipsByResults(log, id);
        FirstWithFinds(ResultsIn(log), id);
        SkippingKeepsFirst(env, plan, issued, id);
        assert added == more + added[|more|..];
        FirstWithSplits(more, added[|more|..], id);
      }
    }
  }

  lemma {:induction false} LogStaysTruthful(env: Env, crashes: seq<Crash>)
    requires ReadOnlyIdsAnswerAlike(env)
    ensures TellsFirst(ResultsIn(LogAfter(env, crashes)), RecordedBy(env, EMPTY_PLAN, Uninterrupted(env).trace.issued))
  {
    hide TurnsFrom, RecordedBy, ReadOnlyIdsAnswerAlike, FirstWith, ResultsIn;
    var issued := Uninterrupted(env).trace.issued;
    NothingRecorded();
    if crashes == [] {
      NothingTold(RecordedBy(env, EMPTY_PLAN, issued));
    } else {
      var last := crashes[|crashes| - 1];
      var log := LogAfter(env, crashes[..|crashes| - 1]);
      LogStaysTruthful(env, crashes[..|crashes| - 1]);
      TruthfulLogGivesFaithfulPlan(env, log);
      TurnsRecord(env, last.interrupts, PlanOf(log), 0, 0, env.initial, Usage(0, 0), 0, 0);
      var emitted := Attempt(env, last.interrupts, PlanOf(log), true).trace.emitted;
      var kept := if last.kept < |emitted| then emitted[..last.kept] else emitted;
      if last.kept < |emitted| {
        ResultsOfPrefix(emitted, last.kept);
      }
      ResultsSplit(log, kept);
      MoreResultsStayTruthful(env, log, issued, ResultsIn(kept));
    }
  }

  lemma NothingTold(all: seq<ToolResultCheckpoint>)
    ensures TellsFirst([], all)
  {
  }

  // ---------------------------------------------------------------- resuming preserves meaning

  /** Main result. After any number of attempts crashed anywhere -- between any two checkpoints,
      by cancellation, timeout, store or model failure -- the resumed attempt ends with the
      transcript, the response text, the turn count and the usage of the uninterrupted run;
      the only difference is that `tool_calls_made` leaves out the calls taken from the plan. */
  lemma {:induction false} CrashAndResumePreserveMeaning(env: Env, crashes: seq<Crash>)
    requires ReadOnlyIdsAnswerAlike(env)
    ensures Resumed(env, crashes).transcript == Uninterrupted(env).transcript
    ensures SameMeaning(Resumed(env, crashes).outcome, Uninterrupted(env).outcome,
                        Mapped(env, Resumed(env, crashes).trace.skipped))
  {
    hide TurnsFrom, RecordedBy, ReadOnlyIdsAnswerAlike, Mapped, ResultsIn, TellsFirst, Faithful;
    var log := LogAfter(env, crashes);
    LogStaysTruthful(env, crashes);
    TruthfulLogGivesFaithfulPlan(env, log);
    TurnsAgree(env, NEVER, PlanOf(log), true, 0, 0, env.initial, Usage(0, 0), 0, 0);
  }

  /** Even an attempt that will crash never leaves the uninterrupted run. */
  lemma {:induction false} CrashedAttemptsNeverDiverge(env: Env, crashes: seq<Crash>, intr: Interrupts)
    requires ReadOnlyIdsAnswerAlike(env)
    ensures Follows(Attempt(env, intr, PlanOf(LogAfter(env, crashes)), true), Uninterrupted(env))
  {
    hide TurnsFrom, RecordedBy, ReadOnlyIdsAnswerAlike, ResultsIn, TellsFirst, Faithful;
    var log := LogAfter(env, crashes);
    LogStaysTruthful(env, crashes);
    TruthfulLogGivesFaithfulPlan(env, log);
    TurnsAgree(env, intr, PlanOf(log), true, 0, 0, env.initial, Usage(0, 0), 0, 0);
    TranscriptGrows(env, NEVER, EMPTY_PLAN, false, 0, 0, env.initial, Usage(0, 0), 0);
  }

  // ---------------------------------------------------------------- and not otherwise

  /** Two transcripts disagree at some message. */
  ghost predicate Disagree(a: seq<Message>, b: seq<Message>) {
    exists i | 0 <= i < |a| && i < |b| :: a[i] != b[i]
  }

  lemma ExtensionsDisagree(a: seq<Message>, b: seq<Message>, a': seq<Message>, b': seq<Message>)
    requires Disagree(a, b) && a <= a' && b <= b'
    ensures Disagree(a', b') && !(a' <= b')
  {
    var i :| 0 <= i < |a| && i < |b| && a[i] != b[i];
    assert a'[i] != b'[i];
  }

  lemma ToolMessagesTellApart(id: string, x: string, y: string)
    requires x != y
    ensures ToolMessage(id, x) != ToolMessage(id, y)
  {
    var before := "tool_call_id: " + id + "\nresult: ";
    assert ToolMessage(id, x).text == before + x && ToolMessage(id, y).text == before + y;
    assert (before + x)[|before|..] == x && (before + y)[|before|..] == y;
  }

  lemma UncutTurnTranscript(env: Env, plan: ResumePlan, on: bool, appended: nat,
                            turn: u32, messages: seq<Message>, usage: Usage, made: nat)
    requires turn < env.maxTurns
    requires env.world.model(turn + 1, messages).Ok? && env.world.model(turn + 1, messages).value.ToolCalls?
    ensures
      var output := env.world.model(turn + 1, messages).value;
      var results := CallsFrom(env, NEVER, plan, on, appended + if on then 2 else 0, turn + 1, output.calls, 0).results;
      TurnOf(env, NEVER, plan, on, appended, turn, messages, usage, made).transcript ==
      messages + [AssistantMessage(output.content, output.calls)] + ToolMessages(results)
  {
    hide CallsFrom, AssistantMessage, ToolMessages, AddUsage, TextFor;
    var count := appended + if on then 2 else 0;
    CallsResults(env, plan, on, count, turn + 1, env.world.model(turn + 1, messages).value.calls, 0);
  }

  /** A turn in which the plan answers a call untruthfully. */
  lemma UntruthfulTurnDisagrees(env: Env, plan: ResumePlan, appended: nat,
                                turn: u32, messages: seq<Message>, usage: Usage, made: nat, made': nat)
    requires turn < env.maxTurns
    requires env.world.model(turn + 1, messages).Ok? && env.world.model(turn + 1, messages).value.ToolCalls?
    requires !Faithful(env, plan, Positions(turn + 1, env.world.model(turn + 1, messages).value.calls))
    ensures Disagree(TurnOf(env, NEVER, plan, true, appended, turn, messages, usage, made).transcript,
                     TurnOf(env, NEVER, EMPTY_PLAN, false, 0, turn, messages, usage, made').transcript)
  {
    hide CallsFrom, TurnOf, AssistantMessage, ToolMessage, AnswerOf;
    var t := turn + 1;
    var calls := env.world.model(t, messages).value.calls;
    UncutTurnTranscript(env, plan, true, appended, turn, messages, usage, made);
    UncutTurnTranscript(env, EMPTY_PLAN, false, 0, turn, messages, usage, made');
    CallsResults(env, plan, true, appended + 2, t, calls, 0);
    CallsResults(env, EMPTY_PLAN, false, 0, t, calls, 0);
    var ps := Positions(t, calls);
    var k :| 0 <= k < |ps| && plan.Skips(ps[k].call.id)
      && plan.completed[ps[k].call.id].resultText != AnswerOf(env, ps[k]);
    assert ps[k] == Position(t, k, calls[k]);
    ToolMessagesTellApart(calls[k].id, plan.completed[calls[k].id].resultText, AnswerOf(env, ps[k]));
    var a := TurnOf(env, NEVER, plan, true, appended, turn, messages, usage, made).transcript;
    var b := TurnOf(env, NEVER, EMPTY_PLAN, false, 0, turn, messages, usage, made').transcript;
    assert a[|messages| + 1 + k] != b[|messages| + 1 + k];
  }

  /** A plan that answers some issued call untruthfully leads to another transcript: the two runs
      disagree at the first such call, and transcripts only grow. */
  lemma {:induction false} UntruthfulPlanDisagrees(env: Env, plan: ResumePlan, appended: nat,
                                                   turn: u32, messages: seq<Message>, usage: Usage,
                                                   made: nat, made': nat)
    requires turn <= env.maxTurns
    requires !Faithful(env, plan,
                       TurnsFrom(env, NEVER, EMPTY_PLAN, false, 0, turn, messages, usage, made').trace.issued)
    ensures Disagree(TurnsFrom(env, NEVER, plan, true, appended, turn, messages, usage, made).transcript,
                     TurnsFrom(env, NEVER, EMPTY_PLAN, false, 0, turn, messages, usage, made').transcript)
    decreases env.maxTurns - turn
  {
    hide TurnsFrom, TurnOf, Faithful, Disagree, Mapped, Positions;
    var whole := TurnsFrom(env, NEVER, EMPTY_PLAN, false, 0, turn, messages, usage, made');
    TurnsUnfold(env, NEVER, plan, true, appended, turn, messages, usage, made);
    TurnsUnfold(env, NEVER, EMPTY_PLAN, false, 0, turn, messages, usage, made');
    NothingToSkip(env, plan);
    assert whole.trace.issued != [];
    assert turn < env.maxTurns;
    var a := TurnOf(env, NEVER, plan, true, appended, turn, messages, usage, made);
    var b := TurnOf(env, NEVER, EMPTY_PLAN, false, 0, turn, messages, usage, made');
    var rest := TurnsFrom(env, NEVER, EMPTY_PLAN, false, |b.trace.emitted|, turn + 1, b.transcript, b.usage, b.made);
    FaithfulParts(env, plan, b.trace.issued, if b.stop.None? then rest.trace.issued else []);
    assert b.trace.issued + [] == b.trace.issued;
    if Faithful(env, plan, b.trace.issued) {
      TurnAgrees(env, NEVER, plan, true, appended, turn, messages, usage, made, made');
      UntruthfulPlanDisagrees(env, plan, appended + |a.trace.emitted|, turn + 1, a.transcript, a.usage, a.made, b.made);
    } else {
      IssuesOnlyToolCalls(env, turn, messages, usage, made', plan);
      UntruthfulTurnDisagrees(env, plan, appended, turn, messages, usage, made, made');
      RunExtendsTurn(env, plan, true, appended, turn, messages, usage, made);
      RunExtendsTurn(env, EMPTY_PLAN, false, 0, turn, messages, usage, made');
      ExtensionsDisagree(a.transcript, b.transcript,
                         TurnsFrom(env, NEVER, plan, true, appended, turn, messages, usage, made).transcript,
                         whole.transcript);
    }
  }

  lemma NothingToSkip(env: Env, plan: ResumePlan)
    ensures Faithful(env, plan, [])
  {
  }

  lemma IssuesOnlyToolCalls(env: Env, turn: u32, messages: seq<Message>, usage: Usage, made: nat, plan: ResumePlan)
    requires turn < env.maxTurns
    requires !Faithful(env, plan, TurnOf(env, NEVER, EMPTY_PLAN, false, 0, turn, messages, usage, made).trace.issued)
    ensures env.world.model(turn + 1, messages).Ok? && env.world.model(turn + 1, messages).value.ToolCalls?
    ensures !Faithful(env, plan, Positions(turn + 1, env.world.model(turn + 1, messages).value.calls))
  {
    hide TurnOf, Faithful;
    NothingToSkip(env, plan);
    var reply := env.world.model(turn + 1, messages);
    if reply.Ok? && reply.value.ToolCalls? {
      TurnIssues(env, turn, messages, usage, made);
    } else {
      OtherRepliesIssueNothing(env, turn, messages, usage, made);
    }
  }

  lemma RunExtendsTurn(env: Env, plan: ResumePlan, on: bool, appended: nat,
                       turn: u32, messages: seq<Message>, usage: Usage, made: nat)
    requires turn < env.maxTurns
    ensures TurnOf(env, NEVER, plan, on, appended, turn, messages, usage, made).transcript <=
            TurnsFrom(env, NEVER, plan, on, appended, turn, messages, usage, made).transcript
  {
    hide TurnsFrom, TurnOf;
    TurnsUnfold(env, NEVER, plan, on, appended, turn, messages, usage, made);
    var e := TurnOf(env, NEVER, plan, on, appended, turn, messages, usage, made);
    if e.stop.None? && turn + 1 <= env.maxTurns {
      TranscriptGrows(env, NEVER, plan, on, appended + |e.trace.emitted|, turn + 1, e.transcript, e.usage, e.made);
    }
  }

  /** A first attempt that loses nothing and is resumed all the same: its log holds every result the
      uninterrupted run would record. */
  lemma FullLog(env: Env) returns (crash: Crash)
    ensures ResultsIn(LogAfter(env, [crash])) == RecordedBy(env, EMPTY_PLAN, Uninterrupted(env).trace.issued)
  {
    hide TurnsFrom, RecordedBy, ResultsIn;
    var emitted := Attempt(env, NEVER, EMPTY_PLAN, true).trace.emitted;
    crash := Crash(NEVER, |emitted|);
    assert [crash][..0] == [];
    assert LogAfter(env, []) == [];
    assert PlanOf([]) == EMPTY_PLAN;
    assert LogAfter(env, [crash]) == [] + emitted == emitted;
    NothingIsSkipped(env, EMPTY_PLAN, Uninterrupted(env).trace.issued);
    TurnsRecord(env, NEVER, EMPTY_PLAN, 0, 0, env.initial, Usage(0, 0), 0, 0);
  }

  /** Where read-only calls with one id do not answer alike, resuming after it goes wrong. */
  lemma UnlikeAnswersDisagree(env: Env) returns (crash: Crash)
    requires !ReadOnlyIdsAnswerAlike(env)
    ensures Disagree(Resumed(env, [crash]).transcript, Uninterrupted(env).transcript)
  {
    hide TurnsFrom, RecordedBy, ResultsIn, LogAfter, Disagree, AnswerOf;
    crash := FullLog(env);
    var issued := Uninterrupted(env).trace.issued;
    var results := RecordedBy(env, EMPTY_PLAN, issued);
    var log := LogAfter(env, [crash]);
    var p :| p in issued && AnyReadOnly(results, p.call.id) &&
      !(FirstWith(results, p.call.id).Some? && FirstWith(results, p.call.id).value.resultText == AnswerOf(env, p));
    var k :| 0 <= k < |issued| && issued[k] == p;
    SkipsByResults(log, p.call.id);
    assert !Faithful(env, PlanOf(log), issued);
    UntruthfulPlanDisagrees(env, PlanOf(log), 0, 0, env.initial, Usage(0, 0), 0, 0);
  }

  /** Crash and resume preserve meaning exactly when, in the uninterrupted run, every call whose id
      has a read-only result answers with the first recorded result of its id: then every resumed
      run ends on the uninterrupted transcript, and every attempt, crashed or not, follows it. */
  lemma ResumingIsSoundExactlyWhen(env: Env)
    ensures (forall crashes :: Resumed(env, crashes).transcript == Uninterrupted(env).transcript)
            <==> ReadOnlyIdsAnswerAlike(env)
    ensures (forall crashes, intr ::
               Follows(Attempt(env, intr, PlanOf(LogAfter(env, crashes)), true), Uninterrupted(env)))
            <==> ReadOnlyIdsAnswerAlike(env)
  {
    hide Uninterrupted, LogAfter, Attempt, ReadOnlyIdsAnswerAlike;
    if ReadOnlyIdsAnswerAlike(env) {
      forall crashes
        ensures Resumed(env, crashes).transcript == Uninterrupted(env).transcript
      {
        CrashAndResumePreserveMeaning(env, crashes);
      }
      forall crashes, intr
        ensures Follows(Attempt(env, intr, PlanOf(LogAfter(env, crashes)), true), Uninterrupted(env))
      {
        CrashedAttemptsNeverDiverge(env, crashes, intr);
      }
    } else {
      var crash := UnlikeAnswersDisagree(env);
      var a, b := Resumed(env, [crash]).transcript, Uninterrupted(env).transcript;
      ExtensionsDisagree(a, b, a, b);
      assert !Follows(Attempt(env, NEVER, PlanOf(LogAfter(env, [crash])), true), Uninterrupted(env));
    }
  }

  // ---------------------------------------------------------------- conditions a caller can check

  /** The mapper gives the call a read-only action kind. */
  predicate IsReadOnlyCall(env: Env, call: ToolCall) {
    env.world.mapper(call).Ok? && IsReadOnlyToolAction(env.world.mapper(call).value.actionKind)
  }

  /** No id of a read-only call is reused, by whatever call. */
  ghost predicate ReadOnlyIdsAreNotReused(env: Env, issued: seq<Position>) {
    forall i, j | 0 <= i < |issued| && 0 <= j < |issued| && i != j && IsReadOnlyCall(env, issued[i].call) ::
      issued[i].call.id != issued[j].call.id
  }

  /** Then they answer alike. */
  lemma UnreusedIdsAnswerAlike(env: Env)
    requires ReadOnlyIdsAreNotReused(env, Uninterrupted(env).trace.issued)
    ensures ReadOnlyIdsAnswerAlike(env)
  {
    hide Uninterrupted, RecordedBy, AnswerOf, ReadOnlyIdsAreNotReused, FirstWith, AnyReadOnly;
    var issued := Uninterrupted(env).trace.issued;
    forall p | p in issued && AnyReadOnly(RecordedBy(env, EMPTY_PLAN, issued), p.call.id)
      ensures
        var first := FirstWith(RecordedBy(env, EMPTY_PLAN, issued), p.call.id);
        first.Some? && first.value.resultText == AnswerOf(env, p)
    {
      UnreusedIdIsAnswered(env, issued, p);
    }
  }

  /** The first result of an unreused id is that of the one call with it. */
  lemma UnreusedIdIsAnswered(env: Env, issued: seq<Position>, p: Position)
    requires ReadOnlyIdsAreNotReused(env, issued)
    requires p in issued && AnyReadOnly(RecordedBy(env, EMPTY_PLAN, issued), p.call.id)
    ensures
      var first := FirstWith(RecordedBy(env, EMPTY_PLAN, issued), p.call.id);
      first.Some? && first.value.resultText == AnswerOf(env, p)
  {
    hide RecordedBy, AnswerOf, FirstWith, CheckpointFor, IsReadOnlyToolAction;
    var results := RecordedBy(env, EMPTY_PLAN, issued);
    var r :| r in results && r.toolCallId == p.call.id && r.readOnly;
    FirstWithFinds(results, p.call.id);
    var q := CallOfRecord(env, issued, r);
    var f := CallOfRecord(env, issued, FirstWith(results, p.call.id).value);
    var i :| 0 <= i < |issued| && issued[i] == q;
    var j :| 0 <= j < |issued| && issued[j] == p;
    var k :| 0 <= k < |issued| && issued[k] == f;
    assert i == j && i == k;
  }

  lemma CallOfRecord(env: Env, issued: seq<Position>, r: ToolResultCheckpoint) returns (q: Position)
    requires r in RecordedBy(env, EMPTY_PLAN, issued)
    ensures q in issued && q.call.id == r.toolCallId && AnswerOf(env, q) == r.resultText
    ensures r.readOnly ==> IsReadOnlyCall(env, q.call)
  {
    hide RecordedBy, IsReadOnlyToolAction;
    RecordedFrom(env, issued, r);
    q :| q in issued && CheckpointFor(env, q) == Some(r);
  }

  // ---------------------------------------------------------------- no re-execution

  lemma CallRespectsPlan(env: Env, intr: Interrupts, plan: ResumePlan, on: bool, appended: nat, p: Position)
    requires p.turn > 0
    ensures forall q | q in CallEffectOf(env, intr, plan, on, appended, p).trace.executed ::
              q == p && !plan.Skips(p.call.id)
  {
  }

  lemma {:induction false} CallsRespectPlan(env: Env, intr: Interrupts, plan: ResumePlan, on: bool, appended: nat,
                                            turn: u32, calls: seq<ToolCall>, i: nat)
    requires turn > 0 && i <= |calls|
    ensures forall p | p in CallsFrom(env, intr, plan, on, appended, turn, calls, i).trace.executed ::
      !plan.Skips(p.call.id)
    decreases |calls| - i
  {
    hide CallsFrom, CallEffectOf;
    CallsUnfold(env, intr, plan, on, appended, turn, calls, i);
    if i < |calls| {
      var e := CallEffectOf(env, intr, plan, on, appended, Position(turn, i, calls[i]));
      CallRespectsPlan(env, intr, plan, on, appended, Position(turn, i, calls[i]));
      CallsRespectPlan(env, intr, plan, on, appended + |e.trace.emitted|, turn, calls, i + 1);
    }
  }

  lemma {:induction false} TurnsRespectPlan(env: Env, intr: Interrupts, plan: ResumePlan, on: bool, appended: nat,
                                            turn: u32, messages: seq<Message>, usage: Usage, made: nat)
    requires turn <= env.maxTurns
    ensures forall p | p in TurnsFrom(env, intr, plan, on, appended, turn, messages, usage, made).trace.executed ::
      !plan.Skips(p.call.id)
    decreases env.maxTurns - turn
  {
    hide TurnsFrom, TurnOf;
    TurnsUnfold(env, intr, plan, on, appended, turn, messages, usage, made);
    if turn < env.maxTurns && !intr.cancelledBeforeTurn(turn) {
      TurnRespectsPlan(env, intr, plan, on, appended, turn, messages, usage, made);
      var e := TurnOf(env, intr, plan, on, appended, turn, messages, usage, made);
      if e.stop.None? {
        TurnsRespectPlan(env, intr, plan, on, appended + |e.trace.emitted|, turn + 1, e.transcript, e.usage, e.made);
      }
    }
  }

  lemma TurnRespectsPlan(env: Env, intr: Interrupts, plan: ResumePlan, on: bool, appended: nat,
                         turn: u32, messages: seq<Message>, usage: Usage, made: nat)
    requires turn < env.maxTurns
    ensures forall p | p in TurnOf(env, intr, plan, on, appended, turn, messages, usage, made).trace.executed ::
      !plan.Skips(p.call.id)
  {
    hide CallsFrom;
    var t := turn + 1;
    if env.world.model(t, messages).Ok? && env.world.model(t, messages).value.ToolCalls? {
      var count := appended + if on then 2 else 0;
      CallsRespectPlan(env, intr, plan, on, count, t, env.world.model(t, messages).value.calls, 0);
    }
  }

  /** Whatever the log, the world and the interruptions: an attempt never executes a call for
      which a read-only result was already recorded when the attempt started. */
  lemma {:induction false} ReadOnlyResultsAreNotRecomputed(env: Env, intr: Interrupts, log: seq<Checkpoint>,
                                                           p: Position, k: nat)
    requires p in Attempt(env, intr, PlanOf(log), true).trace.executed
    requires k < |log| && Records(log[k], p.call.id)
    ensures !log[k].toolResult.value.readOnly
  {
    hide TurnsFrom;
    TurnsRespectPlan(env, intr, PlanOf(log), true, 0, 0, env.initial, Usage(0, 0), 0);
    PlanSkipsReadOnly(log, p.call.id);
    PlanKeepsFirstResult(log, p.call.id);
    if forall j: nat :: !FirstRecord(log, j, p.call.id) {
      NoFirstMeansNone(log, p.call.id);
    }
  }

  // ---------------------------------------------------------------- a run that fails

  /** A model that asks for the same call id in two turns, of a tool whose answer changes. */
  const REPEATING_ID := Env(
    World(
      (t: u32, _: seq<Message>) => Ok(ToolCalls(None, [ToolCall("a", "kb", "")], None)),
      (_: ToolCall) => Ok(ActionRequest("act", "kb.search", "")),
      (p: Position, _: ActionRequest) => Ok(ActionCompleted(if p.turn == 1 then "one" else "other"))),
    Controls(None, None, None), 2, "run", [])

  /** When the id of a read-only call is used again the law can fail: resumed after a crash in
      turn 2, the run answers the second call with the first call's recorded result. */
  lemma RepeatedIdsChangeTheTranscript()
    ensures !ReadOnlyIdsAreNotReused(REPEATING_ID, Uninterrupted(REPEATING_ID).trace.issued)
    ensures
      var crashes := [Crash(NEVER, 3)];
      Attempt(REPEATING_ID, NEVER, PlanOf(LogAfter(REPEATING_ID, crashes)), true).transcript !=
      Uninterrupted(REPEATING_ID).transcript
  {
    hide TurnsFrom, TurnOf, IsReadOnlyCall;
    var env := REPEATING_ID;
    var record := ToolResultCheckpoint("a", "act", "one", true);
    var plan := ResumePlan(map["a" := record], {"a"}, Some(1), Some(1));
    var m1 := [AssistantMessage(None, [ToolCall("a", "kb", "")]), ToolMessage("a", "one")];
    RepeatingTurn(EMPTY_PLAN, false, 0, 0, [], 0);
    RepeatingTurn(EMPTY_PLAN, false, 0, 1, m1, 1);
    RepeatingTurn(EMPTY_PLAN, true, 0, 0, [], 0);
    RepeatingTurn(plan, true, 0, 0, [], 0);
    RepeatingTurn(plan, true, 2, 1, m1, 0);
    TurnsUnfold(env, NEVER, EMPTY_PLAN, false, 0, 0, [], Usage(0, 0), 0);
    TurnsUnfold(env, NEVER, EMPTY_PLAN, false, 0, 1, m1, Usage(0, 0), 1);
    TurnsUnfold(env, NEVER, EMPTY_PLAN, true, 0, 0, [], Usage(0, 0), 0);
    TurnsUnfold(env, NEVER, plan, true, 0, 0, [], Usage(0, 0), 0);
    TurnsUnfold(env, NEVER, plan, true, 2, 1, m1, Usage(0, 0), 0);
    assert [] + m1 == m1;
    var plain := Uninterrupted(env);
    assert plain.transcript[3] == ToolMessage("a", "other");
    RepeatedCallIsReadOnly();
    assert plain.trace.issued[0].call.id == plain.trace.issued[1].call.id;
    var log := LogAfter(env, [Crash(NEVER, 3)]);
    assert LogAfter(env, []) == [];
    assert log == [Checkpoint("run", 1, BeforeModelCall, None), Checkpoint("run", 1, AfterModelCall, None),
                   Checkpoint("run", 1, CheckpointKind.ToolResult, Some(record))];
    PlanOfThree(log);
    assert PlanOf(log) == plan;
    assert ToolMessage("a", "one").text != ToolMessage("a", "other").text;
  }

  lemma RepeatedCallIsReadOnly()
    ensures IsReadOnlyCall(REPEATING_ID, ToolCall("a", "kb", ""))
  {
    assert OccursAt("kb.search", ".search", 2);
  }

  lemma PlanOfThree(log: seq<Checkpoint>)
    requires |log| == 3
    ensures PlanOf(log) == Absorb(Absorb(Absorb(EMPTY_PLAN, log[0]), log[1]), log[2])
  {
    assert log[..2][..1] == log[..1] && log[..1][..0] == [];
    assert PlanOf(log[..1]) == Absorb(PlanOf([]), log[0]);
    assert PlanOf(log[..2]) == Absorb(PlanOf(log[..1]), log[1]);
  }

  lemma RepeatingCall(plan: ResumePlan, on: bool, appended: nat, turn: u32)
    requires turn < 2
    ensures
      var tc := ToolCall("a", "kb", "");
      var p := Position(turn + 1, 0, tc);
      var run := CallsFrom(REPEATING_ID, NEVER, plan, on, appended, turn + 1, [tc], 0);
      var text := if plan.Skips("a") then plan.completed["a"].resultText else if turn == 0 then "one" else "other";
      var record := Checkpoint("run", turn as nat + 1, CheckpointKind.ToolResult,
        Some(ToolResultCheckpoint("a", "act", text, true)));
      && run.stop.None? && run.results == [("a", text)] && run.made == (if plan.Skips("a") then 0 else 1)
      && run.trace.issued == []
      && run.trace.emitted == (if on && !plan.Skips("a") then [record] else [])
  {
    hide CallsFrom, CallEffectOf;
    var tc := ToolCall("a", "kb", "");
    var e := CallEffectOf(REPEATING_ID, NEVER, plan, on, appended, Position(turn + 1, 0, tc));
    RepeatingEffect(plan, on, appended, turn);
    CallsUnfold(REPEATING_ID, NEVER, plan, on, appended, turn + 1, [tc], 0);
    CallsUnfold(REPEATING_ID, NEVER, plan, on, appended + |e.trace.emitted|, turn + 1, [tc], 1);
  }

  lemma RepeatingEffect(plan: ResumePlan, on: bool, appended: nat, turn: u32)
    requires turn < 2
    ensures
      var e := CallEffectOf(REPEATING_ID, NEVER, plan, on, appended, Position(turn + 1, 0, ToolCall("a", "kb", "")));
      var text := if plan.Skips("a") then plan.completed["a"].resultText else if turn == 0 then "one" else "other";
      var result := ToolResultCheckpoint("a", "act", text, true);
      var record := Checkpoint("run", turn as nat + 1, CheckpointKind.ToolResult, Some(result));
      && e.stop.None? && e.result == text && e.made == (if plan.Skips("a") then 0 else 1) && e.trace.issued == []
      && e.trace.emitted == (if on && !plan.Skips("a") then [record] else [])
  {
    assert OccursAt("kb.search", ".search", 2);
  }

  lemma RepeatingTurn(plan: ResumePlan, on: bool, appended: nat, turn: u32, messages: seq<Message>, made: nat)
    requires turn < 2
    ensures
      var e := TurnOf(REPEATING_ID, NEVER, plan, on, appended, turn, messages, Usage(0, 0), made);
      var tc := ToolCall("a", "kb", "");
      var text := if plan.Skips("a") then plan.completed["a"].resultText else if turn == 0 then "one" else "other";
      var record := Checkpoint("run", turn as nat + 1, CheckpointKind.ToolResult,
        Some(ToolResultCheckpoint("a", "act", text, true)));
      && e.stop.Some? == (turn == 1)
      && e.usage == Usage(0, 0)
      && (e.made == made + (if plan.Skips("a") then 0 else 1))
      && e.transcript == messages + [AssistantMessage(None, [tc]), ToolMessage("a", text)]
      && e.trace.issued == [Position(turn + 1, 0, tc)]
      && e.trace.emitted == if !on then [] else
           [Checkpoint("run", turn as nat + 1, BeforeModelCall, None),
            Checkpoint("run", turn as nat + 1, AfterModelCall, None)]
           + if plan.Skips("a") then [] else [record]
  {
    hide CallsFrom, AssistantMessage, ToolMessage;
    var tc := ToolCall("a", "kb", "");
    RepeatingCall(plan, on, appended + if on then 2 else 0, turn);
  }
}
