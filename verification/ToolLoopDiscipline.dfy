/** What every attempt of the tool loop keeps, whatever the model, the tools, the plan and the
    interruptions: the turn budget, the shape of the transcript, and the usage totals. */
module ToolLoopDiscipline {
  import opened Wrappers
  import opened ToolLoopCheckpoint
  import opened ToolLoop
  import opened ToolLoopResume

  // ---------------------------------------------------------------- turn budget

  /** How many model calls an outcome stands for, given its turn count and the executed calls. */
  ghost predicate Accounts(outcome: ToolLoopOutcome, maxTurns: u32, modelCalls: nat, executed: nat) {
    match outcome
    case Completed(_, turnsUsed, made, _) => modelCalls == turnsUsed as nat + 1 && made == executed
    case MaxTurnsReached(calls, turnsUsed) =>
      turnsUsed == maxTurns && modelCalls == maxTurns as nat && (maxTurns == 0 ==> calls == [])
    case Cancelled(_, turnsUsed) => modelCalls == turnsUsed as nat
    case TimedOut(operation, _, turnsUsed) => modelCalls == turnsUsed as nat + if operation == ModelCall then 1 else 0
    case Failed(_, turnsUsed) => turnsUsed as nat <= modelCalls <= turnsUsed as nat + 1
  }

  lemma {:induction false} CallsCount(env: Env, intr: Interrupts, plan: ResumePlan, on: bool, appended: nat,
                                      turn: u32, calls: seq<ToolCall>, i: nat)
    requires turn > 0 && i <= |calls|
    ensures
      var run := CallsFrom(env, intr, plan, on, appended, turn, calls, i);
      && run.made == |run.trace.executed|
      && (run.stop.Some? ==>
            match run.stop.value
            case Cancelled(_, t) => t == turn
            case TimedOut(operation, _, t) => t == turn && operation != ModelCall
            case Failed(_, t) => t == turn - 1
            case _ => false)
    decreases |calls| - i
  {
    hide CallsFrom;
    CallsUnfold(env, intr, plan, on, appended, turn, calls, i);
    if i < |calls| {
      var e := CallEffectOf(env, intr, plan, on, appended, Position(turn, i, calls[i]));
      assert e.made == |e.trace.executed|;
      CallsCount(env, intr, plan, on, appended + |e.trace.emitted|, turn, calls, i + 1);
    }
  }

  lemma TurnCounts(env: Env, intr: Interrupts, plan: ResumePlan, on: bool, appended: nat,
                   turn: u32, messages: seq<Message>, usage: Usage, made: nat)
    requires turn < env.maxTurns
    ensures
      var e := TurnOf(env, intr, plan, on, appended, turn, messages, usage, made);
      && e.made == made + |e.trace.executed|
      && (e.stop.None? ==> turn + 1 < env.maxTurns && |e.trace.prompts| == 1)
      && (e.stop.Some? ==> Accounts(e.stop.value, env.maxTurns, turn as nat + |e.trace.prompts|, e.made)
                           && turn as nat + |e.trace.prompts| <= env.maxTurns as nat)
  {
    hide CallsOfTurn, AddUsage, DurationMillis, Positions;
    var reply := env.world.model(turn + 1, messages);
    if reply.Ok? && reply.value.ToolCalls? {
      CallsOfTurnCount(env, intr, plan, on, appended, turn + 1, messages, AddUsage(usage, reply.value), made,
                       reply.value, ListedTrace(env, on, turn + 1, messages, reply.value));
    }
  }

  lemma CallsOfTurnCount(env: Env, intr: Interrupts, plan: ResumePlan, on: bool, appended: nat, t: u32,
                         messages: seq<Message>, usage: Usage, made: nat, output: ModelOutput, listed: Trace)
    requires 0 < t <= env.maxTurns && output.ToolCalls? && |listed.prompts| == 1 && listed.executed == []
    ensures
      var e :=
        CallsOfTurn(env, intr, plan, on, appended, t, messages, usage, made, output.content, output.calls, listed);
      && e.made == made + |e.trace.executed| && |e.trace.prompts| == 1
      && (e.stop.None? ==> t < env.maxTurns)
      && (e.stop.Some? ==> Accounts(e.stop.value, env.maxTurns, t as nat, e.made))
  {
    hide CallsFrom, AssistantMessage, ToolMessages;
    CallsCount(env, intr, plan, on, appended + |listed.emitted|, t, output.calls, 0);
    CallsAskNothing(env, intr, plan, on, appended + |listed.emitted|, t, output.calls, 0);
  }

  lemma {:induction false} TurnsCount(env: Env, intr: Interrupts, plan: ResumePlan, on: bool, appended: nat,
                                      turn: u32, messages: seq<Message>, usage: Usage, made: nat)
    requires turn <= env.maxTurns && (turn == env.maxTurns ==> turn == 0)
    ensures
      var run := TurnsFrom(env, intr, plan, on, appended, turn, messages, usage, made);
      && turn as nat + |run.trace.prompts| <= env.maxTurns as nat
      && Accounts(run.outcome, env.maxTurns, turn as nat + |run.trace.prompts|, made + |run.trace.executed|)
    decreases env.maxTurns - turn
  {
    hide TurnsFrom, TurnOf;
    TurnsUnfold(env, intr, plan, on, appended, turn, messages, usage, made);
    if turn < env.maxTurns && !intr.cancelledBeforeTurn(turn) {
      TurnCounts(env, intr, plan, on, appended, turn, messages, usage, made);
      var e := TurnOf(env, intr, plan, on, appended, turn, messages, usage, made);
      if e.stop.None? {
        TurnsCount(env, intr, plan, on, appended + |e.trace.emitted|, turn + 1, e.transcript, e.usage, e.made);
      }
    }
  }

  /** The model is called at most `max_turns` times, and every outcome reports its model calls
      exactly; `MaxTurnsReached` with no last calls is the outcome of a zero budget alone. */
  lemma TurnBudget(env: Env, intr: Interrupts, plan: ResumePlan, on: bool)
    ensures
      var run := Attempt(env, intr, plan, on);
      && |run.trace.prompts| <= env.maxTurns as nat
      && run.outcome.turnsUsed <= env.maxTurns
      && Accounts(run.outcome, env.maxTurns, |run.trace.prompts|, |run.trace.executed|)
  {
    hide TurnsFrom;
    if !(on && intr.loadFails) {
      TurnsCount(env, intr, plan, on, 0, 0, env.initial, Usage(0, 0), 0);
    }
  }

  // ---------------------------------------------------------------- transcript

  /** `after` is `before` plus one assistant message plus one tool message per call, in order, each
      naming its call: the plan's text for a call it skips, else what the mapper or the action
      runtime answers at that place. */
  ghost predicate AnswersEveryCall(env: Env, plan: ResumePlan, turn: nat, before: seq<Message>,
                                   output: ModelOutput, after: seq<Message>)
  {
    && output.ToolCalls? && turn <= U32_MAX as nat
    && |after| == |before| + 1 + |output.calls|
    && before <= after
    && after[|before|] == Message(Assistant, ContentOf(output))
    && forall j | 0 <= j < |output.calls| ::
         after[|before| + 1 + j] ==
         Message(Tool, "tool_call_id: " + output.calls[j].id + "\nresult: " +
                       TextFor(env, plan, Position(turn as u32, j, output.calls[j])))
  }

  function ContentOf(output: ModelOutput): string
    requires output.ToolCalls?
  {
    match output.content
    case Some(text) => if text != "" || output.calls == [] then text else "calling tools"
    case None => if output.calls == [] then "" else "calling tools"
  }

  lemma CallAnswers(env: Env, intr: Interrupts, plan: ResumePlan, on: bool, appended: nat, p: Position)
    requires p.turn > 0
    ensures
      var e := CallEffectOf(env, intr, plan, on, appended, p);
      e.stop.None? ==> e.result == TextFor(env, plan, p)
  {
  }

  lemma {:induction false} CallsAnswered(env: Env, intr: Interrupts, plan: ResumePlan, on: bool, appended: nat,
                                         turn: u32, calls: seq<ToolCall>, i: nat)
    requires turn > 0 && i <= |calls|
    ensures
      var run := CallsFrom(env, intr, plan, on, appended, turn, calls, i);
      run.stop.None? ==>
        && |run.results| == |calls| - i
        && forall j | 0 <= j < |calls| - i ::
             run.results[j] == (calls[i + j].id, TextFor(env, plan, Position(turn, i + j, calls[i + j])))
    decreases |calls| - i
  {
    hide CallsFrom, CallEffectOf, TextFor;
    CallsUnfold(env, intr, plan, on, appended, turn, calls, i);
    if i < |calls| {
      var e := CallEffectOf(env, intr, plan, on, appended, Position(turn, i, calls[i]));
      CallAnswers(env, intr, plan, on, appended, Position(turn, i, calls[i]));
      CallsAnswered(env, intr, plan, on, appended + |e.trace.emitted|, turn, calls, i + 1);
    }
  }

  lemma MessagesAnswer(env: Env, plan: ResumePlan, turn: u32, messages: seq<Message>, output: ModelOutput,
                       results: seq<(string, string)>)
    requires output.ToolCalls? && |results| == |output.calls|
    requires forall j | 0 <= j < |results| ::
               results[j] == (output.calls[j].id, TextFor(env, plan, Position(turn, j, output.calls[j])))
    ensures AnswersEveryCall(env, plan, turn as nat, messages, output,
                             messages + [AssistantMessage(output.content, output.calls)] + ToolMessages(results))
  {
    hide TextFor;
  }

  /** What a turn shows, hears and leaves: a turn that goes on, or ends the budget, answers every
      call; one that stops otherwise leaves the transcript alone. */
  ghost predicate AnswersTurn(env: Env, plan: ResumePlan, turn: u32, e: TurnEffect, messages: seq<Message>) {
    && (e.stop.None? || e.stop.value.MaxTurnsReached? ==>
          && e.trace.prompts == [messages] && |e.trace.replies| == 1
          && AnswersEveryCall(env, plan, turn as nat, messages, e.trace.replies[0], e.transcript)
          && (e.stop.Some? ==> e.stop.value.lastToolCalls == e.trace.replies[0].calls))
    && (e.stop.Some? && !e.stop.value.MaxTurnsReached? ==> e.transcript == messages)
    && (e.stop.Some? && e.stop.value.Completed? ==>
          e.trace.prompts == [messages] && |e.trace.replies| == 1 &&
          e.trace.replies[0].Text? && e.trace.replies[0].text == e.stop.value.responseText)
    && |e.trace.prompts| <= 1 && |e.trace.replies| <= |e.trace.prompts|
    && (e.trace.prompts != [] ==> e.trace.prompts[0] == messages)
  }

  lemma TurnAnswers(env: Env, intr: Interrupts, plan: ResumePlan, on: bool, appended: nat,
                    turn: u32, messages: seq<Message>, usage: Usage, made: nat)
    requires turn < env.maxTurns
    ensures AnswersTurn(env, plan, turn + 1, TurnOf(env, intr, plan, on, appended, turn, messages, usage, made),
                        messages)
  {
    var reply := env.world.model(turn + 1, messages);
    if reply.Ok? && reply.value.ToolCalls? {
      TurnWithCallsAnswers(env, intr, plan, on, appended, turn, messages, usage, made);
    } else {
      hide CallsFrom, AddUsage, AnswersEveryCall, DurationMillis;
    }
  }

  lemma TurnWithCallsAnswers(env: Env, intr: Interrupts, plan: ResumePlan, on: bool, appended: nat,
                             turn: u32, messages: seq<Message>, usage: Usage, made: nat)
    requires turn < env.maxTurns
    requires env.world.model(turn + 1, messages).Ok? && env.world.model(turn + 1, messages).value.ToolCalls?
    ensures AnswersTurn(env, plan, turn + 1, TurnOf(env, intr, plan, on, appended, turn, messages, usage, made),
                        messages)
  {
    hide CallsOfTurn, AddUsage, AnswersEveryCall, DurationMillis, Positions;
    var output := env.world.model(turn + 1, messages).value;
    CallsOfTurnAnswer(env, intr, plan, on, appended, turn + 1, messages, AddUsage(usage, output), made, output,
                      ListedTrace(env, on, turn + 1, messages, output));
  }

  lemma CallsOfTurnAnswer(env: Env, intr: Interrupts, plan: ResumePlan, on: bool, appended: nat, t: u32,
                          messages: seq<Message>, usage: Usage, made: nat, output: ModelOutput, listed: Trace)
    requires t > 0 && output.ToolCalls? && listed.prompts == [messages] && listed.replies == [output]
    ensures
      var e :=
        CallsOfTurn(env, intr, plan, on, appended, t, messages, usage, made, output.content, output.calls, listed);
      AnswersTurn(env, plan, t, e, messages)
  {
    hide CallsFrom, AssistantMessage, ToolMessages, AnswersEveryCall, TextFor;
    var count := appended + |listed.emitted|;
    CallsAskNothing(env, intr, plan, on, count, t, output.calls, 0);
    CallsCount(env, intr, plan, on, count, t, output.calls, 0);
    CallsAnswered(env, intr, plan, on, count, t, output.calls, 0);
    var cr := CallsFrom(env, intr, plan, on, count, t, output.calls, 0);
    if cr.stop.None? {
      MessagesAnswer(env, plan, t, messages, output, cr.results);
    }
  }

  /** Consecutive transcripts shown to the model, and the final one, differ by whole turns. */
  ghost predicate WellFormedHistory(env: Env, plan: ResumePlan, turn: nat, first: seq<Message>, run: Run) {
    var prompts, replies := run.trace.prompts, run.trace.replies;
    && |prompts| - 1 <= |replies| <= |prompts|
    && (prompts != [] ==> prompts[0] == first)
    && (forall k | 0 <= k < |prompts| - 1 ::
          AnswersEveryCall(env, plan, turn + k + 1, prompts[k], replies[k], prompts[k + 1]))
    && (match run.outcome
        case Completed(text, _, _, _) =>
          && |replies| == |prompts| > 0 && run.transcript == prompts[|prompts| - 1]
          && replies[|replies| - 1].Text? && replies[|replies| - 1].text == text
        case MaxTurnsReached(calls, _) =>
          if prompts == [] then run.transcript == first
          else
            && |replies| == |prompts|
            && AnswersEveryCall(env, plan, turn + |prompts|, prompts[|prompts| - 1], replies[|replies| - 1],
                                run.transcript)
            && calls == replies[|replies| - 1].calls
        case _ => true)
  }

  lemma HistoryStep(env: Env, plan: ResumePlan, turn: u32, e: TurnEffect, messages: seq<Message>, rest: Run)
    requires turn < env.maxTurns
    requires e.trace.prompts == [messages] && |e.trace.replies| == 1
    requires AnswersEveryCall(env, plan, turn as nat + 1, messages, e.trace.replies[0], e.transcript)
    requires WellFormedHistory(env, plan, turn as nat + 1, e.transcript, rest)
    requires rest.outcome.MaxTurnsReached? ==> rest.trace.prompts != []
    ensures WellFormedHistory(env, plan, turn as nat, messages, rest.After(e.trace))
  {
    hide AnswersEveryCall;
    var run := rest.After(e.trace);
    forall k | 0 <= k < |run.trace.prompts| - 1
      ensures AnswersEveryCall(env, plan, turn as nat + k + 1,
                               run.trace.prompts[k], run.trace.replies[k], run.trace.prompts[k + 1])
    {
      if k > 0 {
        assert AnswersEveryCall(env, plan, turn as nat + 1 + (k - 1) + 1,
                                rest.trace.prompts[k - 1], rest.trace.replies[k - 1], rest.trace.prompts[k]);
      }
    }
  }

  lemma {:induction false} TurnsHistory(env: Env, intr: Interrupts, plan: ResumePlan, on: bool, appended: nat,
                                        turn: u32, messages: seq<Message>, usage: Usage, made: nat)
    requires turn <= env.maxTurns && (turn == env.maxTurns ==> turn == 0)
    ensures WellFormedHistory(env, plan, turn as nat, messages,
                              TurnsFrom(env, intr, plan, on, appended, turn, messages, usage, made))
    decreases env.maxTurns - turn
  {
    hide TurnsFrom, TurnOf, AnswersEveryCall;
    TurnsUnfold(env, intr, plan, on, appended, turn, messages, usage, made);
    if turn < env.maxTurns && !intr.cancelledBeforeTurn(turn) {
      TurnCounts(env, intr, plan, on, appended, turn, messages, usage, made);
      TurnAnswers(env, intr, plan, on, appended, turn, messages, usage, made);
      var e := TurnOf(env, intr, plan, on, appended, turn, messages, usage, made);
      if e.stop.None? {
        var rest :=
          TurnsFrom(env, intr, plan, on, appended + |e.trace.emitted|, turn + 1, e.transcript, e.usage, e.made);
        TurnsCount(env, intr, plan, on, appended + |e.trace.emitted|, turn + 1, e.transcript, e.usage, e.made);
        TurnsHistory(env, intr, plan, on, appended + |e.trace.emitted|, turn + 1, e.transcript, e.usage, e.made);
        HistoryStep(env, plan, turn, e, messages, rest);
      }
    }
  }

  /** Every completed tool turn appends one assistant message followed by exactly one result per
      tool call, in call order and with the text that call is answered with; a completed run ends on
      the transcript its answer was given for. */
  lemma TranscriptDiscipline(env: Env, intr: Interrupts, plan: ResumePlan, on: bool)
    ensures WellFormedHistory(env, plan, 0, env.initial, Attempt(env, intr, plan, on))
  {
    hide TurnsFrom, AnswersEveryCall;
    if !(on && intr.loadFails) {
      TurnsHistory(env, intr, plan, on, 0, 0, env.initial, Usage(0, 0), 0);
    }
  }

  // ---------------------------------------------------------------- usage

  function TokensIn(replies: seq<ModelOutput>): nat {
    if replies == [] then 0
    else (if replies[0].usage.Some? then replies[0].usage.value.inputTokens as nat else 0) + TokensIn(replies[1..])
  }

  function TokensOut(replies: seq<ModelOutput>): nat {
    if replies == [] then 0
    else (if replies[0].usage.Some? then replies[0].usage.value.outputTokens as nat else 0) + TokensOut(replies[1..])
  }

  function Capped(n: nat): u32 {
    if n > U32_MAX as nat then U32_MAX else n as u32
  }

  lemma TurnUsage(env: Env, intr: Interrupts, plan: ResumePlan, on: bool, appended: nat,
                  turn: u32, messages: seq<Message>, usage: Usage, made: nat)
    requires turn < env.maxTurns
    ensures
      var e := TurnOf(env, intr, plan, on, appended, turn, messages, usage, made);
      && (e.stop.None? || e.stop.value.Completed? ==>
            |e.trace.replies| == 1 && e.usage == AddUsage(usage, e.trace.replies[0]))
      && (e.stop.Some? && e.stop.value.Completed? ==> e.stop.value.usage == e.usage)
  {
    hide CallsFrom, AssistantMessage, ToolMessages, AddUsage;
    var reply := env.world.model(turn + 1, messages);
    if reply.Ok? && reply.value.ToolCalls? {
      CallsAskNothing(env, intr, plan, on, appended + if on then 2 else 0, turn + 1, reply.value.calls, 0);
      CallsCount(env, intr, plan, on, appended + if on then 2 else 0, turn + 1, reply.value.calls, 0);
    }
  }

  lemma {:induction false} TurnsUsage(env: Env, intr: Interrupts, plan: ResumePlan, on: bool, appended: nat,
                                      turn: u32, messages: seq<Message>, usage: Usage, made: nat)
    requires turn <= env.maxTurns
    ensures
      var run := TurnsFrom(env, intr, plan, on, appended, turn, messages, usage, made);
      run.outcome.Completed? ==>
        run.outcome.usage == Usage(Capped(usage.inputTokens as nat + TokensIn(run.trace.replies)),
                                   Capped(usage.outputTokens as nat + TokensOut(run.trace.replies)))
    decreases env.maxTurns - turn
  {
    hide TurnsFrom, TurnOf;
    TurnsUnfold(env, intr, plan, on, appended, turn, messages, usage, made);
    if turn < env.maxTurns && !intr.cancelledBeforeTurn(turn) {
      TurnUsage(env, intr, plan, on, appended, turn, messages, usage, made);
      var e := TurnOf(env, intr, plan, on, appended, turn, messages, usage, made);
      if e.stop.None? {
        var rest :=
          TurnsFrom(env, intr, plan, on, appended + |e.trace.emitted|, turn + 1, e.transcript, e.usage, e.made);
        TurnsUsage(env, intr, plan, on, appended + |e.trace.emitted|, turn + 1, e.transcript, e.usage, e.made);
        assert (e.trace.replies + rest.trace.replies)[1..] == rest.trace.replies;
      } else if e.stop.value.Completed? {
        assert e.trace.replies[1..] == [];
      }
    }
  }

  /** The usage of a completed run is the true sum of the reported usages, capped at 32 bits:
      saturating at every addition loses nothing else. */
  lemma UsageIsTheCappedSum(env: Env, intr: Interrupts, plan: ResumePlan, on: bool)
    requires Attempt(env, intr, plan, on).outcome.Completed?
    ensures
      var run := Attempt(env, intr, plan, on);
      run.outcome.usage == Usage(Capped(TokensIn(run.trace.replies)), Capped(TokensOut(run.trace.replies)))
  {
    hide TurnsFrom;
    TurnsUsage(env, intr, plan, on, 0, 0, env.initial, Usage(0, 0), 0);
  }
}
