/** What each call of a run leaves behind, from its name and the policy to the messages of whole runs. */
module AgentResults {
  import opened Text
  import opened RunBudget
  import opened TurnState
  import opened ToolDispatch
  import opened AgentLoop

  // ---- The four kinds of calls ----

  /** Not among the allowed tools, or one that a restricted agent never has. */
  predicate IsForbidden(p: Policy, name: string) {
    p.allowed.Some? && (name !in p.allowed.value || name in {"delegate_task", "decision", "clarify"})
  }

  predicate IsQuestion(name: string) {
    name == "decision" || name == "clarify"
  }

  /** Forbidden, a question that does not say whether it blocks, or a delegation that does not parse. */
  predicate IsRefused(p: Policy, call: ToolCall) {
    || IsForbidden(p, call.name)
    || (IsQuestion(call.name) && p.registry.question(call).MissingBlocking?)
    || (call.name == "delegate_task" && !p.registry.delegateParses(call))
  }

  /** A question that somebody can answer: a decision coordinator or, without one, the clarify gate. */
  predicate IsAsked(p: Policy, call: ToolCall) {
    && !IsForbidden(p, call.name) && IsQuestion(call.name) && p.registry.question(call).Question?
    && (p.hasDecisions || p.hasClarifyGate)
  }

  predicate IsDelegated(p: Policy, call: ToolCall) {
    !IsForbidden(p, call.name) && call.name == "delegate_task" && p.registry.delegateParses(call)
  }

  /** Everything else: other tools, malformed questions, and questions that nobody can answer. */
  predicate IsExecuted(p: Policy, call: ToolCall) {
    && !IsForbidden(p, call.name)
    && call.name != "delegate_task"
    && (IsQuestion(call.name) ==>
          p.registry.question(call).NotAQuestion? ||
          (p.registry.question(call).Question? && !p.hasDecisions && !p.hasClarifyGate))
  }

  lemma Distinct()
    ensures "delegate_task" != "decision" && "delegate_task" != "clarify"
  {
    assert |"delegate_task"| == 13 && |"decision"| == 8 && |"clarify"| == 7;
  }

  /** Every call is of exactly one kind, and its kind decides its route. */
  lemma RouteIff(p: Policy, call: ToolCall)
    ensures Evaluate(p, call) == Blocked <==> IsRefused(p, call)
    ensures Evaluate(p, call) == Execute <==> IsExecuted(p, call)
    ensures Evaluate(p, call) == Delegate <==> IsDelegated(p, call)
    ensures Evaluate(p, call) == DurableClarify <==> IsAsked(p, call) && p.hasDecisions
    ensures Evaluate(p, call) == Clarify <==> IsAsked(p, call) && !p.hasDecisions
  {
    Distinct();
  }

  // ---- One call ----

  /** The call gets its turn: no cancellation comes before it and the tool limit is not reached. */
  predicate GetsItsTurn(a: Agent, st: LoopState, k: nat, script: Script) {
    !script.cancelledBefore(k) && (a.budget.maxToolCalls.None? || st.toolCalls < a.budget.maxToolCalls.value)
  }

  /** The run goes on with one more call counted, announced, finished and answered, and nothing else. */
  predicate Concluded(st: LoopState, out: TurnOut, call: ToolCall, result: string, asked: seq<Event>, tokens: nat) {
    && out.flow == Next
    && out.st.history == st.history + [ToolResult(call.id, result)]
    && out.st.generated == st.generated + [ToolResult(call.id, result)]
    && out.st.events == st.events + [ToolCallStarted(call.id)] + asked + [ToolCallFinished(call.id, result)]
    && out.st.toolCalls == st.toolCalls + 1 && out.st.tokens == tokens
    && out.st.empties == st.empties && out.st.reminderSent == st.reminderSent
  }

  lemma Finishing(st: LoopState, mid: LoopState, call: ToolCall, result: string, asked: seq<Event>)
    requires mid == Emit(Begin(st, call), asked).(tokens := mid.tokens)
    ensures Concluded(st, FinishCall(mid, call, result), call, result, asked, mid.tokens)
  {
  }

  /** A refused call is never executed: it leaves its refusal. */
  lemma RefusedCall(a: Agent, st: LoopState, call: ToolCall, k: nat, apiCalls: nat, script: Script)
    requires GetsItsTurn(a, st, k, script) && IsRefused(a.policy, call)
    ensures Concluded(st, OneCall(a, st, call, k, apiCalls, script), call, a.policy.registry.refusal(call), [], st.tokens)
  {
    RouteIff(a.policy, call);
    hide Evaluate, IsRefused, IsExecuted, IsDelegated, IsAsked, Concluded, FinishCall;
    Finishing(st, Begin(st, call), call, a.policy.registry.refusal(call), []);
    assert Begin(st, call).events + [] == Begin(st, call).events;
  }

  /** An executed call leaves what the registry makes of it. */
  lemma ExecutedCall(a: Agent, st: LoopState, call: ToolCall, k: nat, apiCalls: nat, script: Script)
    requires GetsItsTurn(a, st, k, script) && IsExecuted(a.policy, call)
    ensures Concluded(st, OneCall(a, st, call, k, apiCalls, script), call, a.policy.registry.execute(call), [], st.tokens)
  {
    RouteIff(a.policy, call);
    hide Evaluate, IsRefused, IsExecuted, IsDelegated, IsAsked, Concluded, FinishCall;
    Finishing(st, Begin(st, call), call, a.policy.registry.execute(call), []);
    assert Begin(st, call).events + [] == Begin(st, call).events;
  }

  /** A delegation leaves what the children report, and their tokens are charged to this run. */
  lemma DelegatedCall(a: Agent, st: LoopState, call: ToolCall, k: nat, apiCalls: nat, script: Script)
    requires GetsItsTurn(a, st, k, script) && IsDelegated(a.policy, call)
    ensures Concluded(st, OneCall(a, st, call, k, apiCalls, script), call, script.answers(k).delegated, [],
                      Min(st.tokens + script.answers(k).delegatedTokens, 0xFFFF_FFFF))
  {
    RouteIff(a.policy, call);
    hide Evaluate, IsRefused, IsExecuted, IsDelegated, IsAsked, Concluded, FinishCall;
    var tokens := SaturatingAdd(st.tokens, script.answers(k).delegatedTokens);
    Finishing(st, Begin(st, call).(tokens := tokens), call, script.answers(k).delegated, []);
    assert Begin(st, call).events + [] == Begin(st, call).events;
  }

  /** Without a coordinator a question is put to the user; only a cancellation leaves it unanswered, and that
      ends the run without a result. */
  lemma ClarifiedCall(a: Agent, st: LoopState, call: ToolCall, k: nat, apiCalls: nat, script: Script)
    requires GetsItsTurn(a, st, k, script) && IsAsked(a.policy, call) && !a.policy.hasDecisions
    ensures var out, answer := OneCall(a, st, call, k, apiCalls, script), script.answers(k).clarified;
            && (answer.Some? ==> Concluded(st, out, call, answer.value, [ClarifyRequired], st.tokens))
            && (answer.None? ==>
                  out == TurnOut(st.(toolCalls := st.toolCalls + 1,
                                     events := st.events + [ToolCallStarted(call.id)] + [ClarifyRequired] +
                                               [Done(apiCalls, st.toolCalls + 1)]),
                                 Ended))
  {
    RouteIff(a.policy, call);
    hide Evaluate, IsRefused, IsExecuted, IsDelegated, IsAsked, Concluded, FinishCall;
    var answer := script.answers(k).clarified;
    if answer.Some? { Finishing(st, Emit(Begin(st, call), [ClarifyRequired]), call, answer.value, [ClarifyRequired]); }
  }

  /** A durable question leaves what its coordinator reports, unless it suspends the run, which then is paused
      without a result among the messages, or no coordinator is there after all, which ends it. */
  lemma DecidedCall(a: Agent, st: LoopState, call: ToolCall, k: nat, apiCalls: nat, script: Script)
    requires GetsItsTurn(a, st, k, script) && IsAsked(a.policy, call) && a.policy.hasDecisions
    ensures var out, decision := OneCall(a, st, call, k, apiCalls, script), script.answers(k).decision;
            var shown := if decision.Created? && decision.announced then [ClarifyRequired] else [];
            && ((decision.CreationFailed? || (decision.Created? && !decision.suspend)) ==>
                  Concluded(st, out, call, decision.result, shown, st.tokens))
            && (decision.NoCoordinator? || (decision.Created? && decision.suspend) ==>
                  out == TurnOut(st.(toolCalls := st.toolCalls + 1,
                                     events := st.events + [ToolCallStarted(call.id)] + shown +
                                               Closing(decision, call, apiCalls, st.toolCalls + 1)),
                                 Ended))
  {
    RouteIff(a.policy, call);
    hide Evaluate, IsRefused, IsExecuted, IsDelegated, IsAsked, Concluded, FinishCall;
    var decision := script.answers(k).decision;
    var shown := if decision.Created? && decision.announced then [ClarifyRequired] else [];
    var begun := Begin(st, call);
    assert begun.events + [] == begun.events;
    if decision.CreationFailed? || decision.Created? { Finishing(st, Emit(begun, shown), call, decision.result, shown); }
  }

  /** The last events of a run that a durable question stops. */
  function Closing(decision: Decision, call: ToolCall, apiCalls: nat, toolCalls: nat): seq<Event>
    requires !decision.CreationFailed?
  {
    if decision.NoCoordinator? then
      [ToolCallFinished(call.id, "durable decision runtime is unavailable"), Done(apiCalls, toolCalls)]
    else [ToolCallFinished(call.id, decision.result), RunPaused]
  }

  /** A call that does not get its turn ends the run uncounted and unannounced. */
  lemma StoppedCall(a: Agent, st: LoopState, call: ToolCall, k: nat, apiCalls: nat, script: Script)
    requires !GetsItsTurn(a, st, k, script)
    ensures OneCall(a, st, call, k, apiCalls, script) ==
            TurnOut(st.(events := st.events + (if script.cancelledBefore(k) then [] else [Error(ToolBudget)]) +
                                  [Done(apiCalls, st.toolCalls)]), Ended)
  {
    hide Handle;
    assert st.events + [] == st.events;
    assert st.events + [Error(ToolBudget), Done(apiCalls, st.toolCalls)] ==
           st.events + [Error(ToolBudget)] + [Done(apiCalls, st.toolCalls)];
  }

  // ---- The calls of a turn, and of a run ----

  /** What a call, the one at `k` of its turn, may leave among the messages. Only a parallel read can be interrupted. */
  predicate Leaves(p: Policy, call: ToolCall, script: Script, k: nat, m: Message) {
    && m.ToolResult? && m.callId == call.id
    && (IsRefused(p, call) ==> m.content == p.registry.refusal(call))
    && (IsExecuted(p, call) ==>
          m.content == p.registry.execute(call) ||
          (script.interrupted(k) && IsParallelRead(p, call) && m.content == READ_INTERRUPTED))
    && (IsDelegated(p, call) ==> m.content == script.answers(k).delegated)
    && (IsAsked(p, call) ==>
          if p.hasDecisions then !script.answers(k).decision.NoCoordinator? && m.content == script.answers(k).decision.result
          else script.answers(k).clarified == Some(m.content))
  }

  /** The calls from `k` on have left these messages, in order, as far as they got. */
  predicate AllLeave(p: Policy, calls: seq<ToolCall>, k: nat, script: Script, ms: seq<Message>) {
    k + |ms| <= |calls| && forall i :: 0 <= i < |ms| ==> Leaves(p, calls[k + i], script, k + i, ms[i])
  }

  /** The messages generated in between. */
  function Added(st: LoopState, out: LoopState): seq<Message> {
    if |st.generated| <= |out.generated| then out.generated[|st.generated|..] else []
  }

  predicate Adds(p: Policy, st: LoopState, out: LoopState, calls: seq<ToolCall>, k: nat, script: Script) {
    out.generated == st.generated + Added(st, out) && AllLeave(p, calls, k, script, Added(st, out))
  }

  lemma AddedIs(st: LoopState, out: LoopState, ms: seq<Message>)
    requires out.generated == st.generated + ms
    ensures Added(st, out) == ms
  {
  }

  lemma NothingAdded(p: Policy, st: LoopState, out: LoopState, calls: seq<ToolCall>, k: nat, script: Script)
    requires out.generated == st.generated && k <= |calls|
    ensures Adds(p, st, out, calls, k, script)
  {
    assert st.generated + [] == st.generated;
  }

  lemma OneAdded(p: Policy, st: LoopState, out: LoopState, calls: seq<ToolCall>, k: nat, script: Script, m: Message)
    requires out.generated == st.generated + [m] && k < |calls| && Leaves(p, calls[k], script, k, m)
    ensures Adds(p, st, out, calls, k, script) && Added(st, out) == [m]
  {
    hide Leaves;
    AddedIs(st, out, [m]);
  }

  lemma KindsExclude(p: Policy, call: ToolCall)
    ensures IsRefused(p, call) || IsExecuted(p, call) || IsDelegated(p, call) || IsAsked(p, call)
    ensures IsRefused(p, call) ==> !IsExecuted(p, call) && !IsDelegated(p, call) && !IsAsked(p, call)
    ensures IsExecuted(p, call) ==> !IsDelegated(p, call) && !IsAsked(p, call)
    ensures IsDelegated(p, call) ==> !IsAsked(p, call)
  {
    RouteIff(p, call);
    hide IsRefused, IsExecuted, IsDelegated, IsAsked;
  }

  lemma OneCallAdds(a: Agent, st: LoopState, calls: seq<ToolCall>, k: nat, apiCalls: nat, script: Script)
    requires k < |calls|
    ensures var out := OneCall(a, st, calls[k], k, apiCalls, script);
            && Adds(a.policy, st, out.st, calls, k, script)
            && (!out.flow.Ended? ==> |Added(st, out.st)| == 1)
  {
    var p, call, out, answer := a.policy, calls[k], OneCall(a, st, calls[k], k, apiCalls, script), script.answers(k);
    KindsExclude(p, call);
    hide IsRefused, IsExecuted, IsDelegated, IsAsked, OneCall, Adds, Added;
    if !GetsItsTurn(a, st, k, script) {
      StoppedCall(a, st, call, k, apiCalls, script);
      NothingAdded(p, st, out.st, calls, k, script);
    } else if IsRefused(p, call) {
      RefusedCall(a, st, call, k, apiCalls, script);
      OneAdded(p, st, out.st, calls, k, script, ToolResult(call.id, p.registry.refusal(call)));
    } else if IsExecuted(p, call) {
      ExecutedCall(a, st, call, k, apiCalls, script);
      OneAdded(p, st, out.st, calls, k, script, ToolResult(call.id, p.registry.execute(call)));
    } else if IsDelegated(p, call) {
      DelegatedCall(a, st, call, k, apiCalls, script);
      OneAdded(p, st, out.st, calls, k, script, ToolResult(call.id, answer.delegated));
    } else if !p.hasDecisions {
      ClarifiedCall(a, st, call, k, apiCalls, script);
      if answer.clarified.Some? { OneAdded(p, st, out.st, calls, k, script, ToolResult(call.id, answer.clarified.value)); }
      else { NothingAdded(p, st, out.st, calls, k, script); }
    } else {
      DecidedCall(a, st, call, k, apiCalls, script);
      if answer.decision.NoCoordinator? || (answer.decision.Created? && answer.decision.suspend) {
        NothingAdded(p, st, out.st, calls, k, script);
      } else {
        OneAdded(p, st, out.st, calls, k, script, ToolResult(call.id, answer.decision.result));
      }
    }
  }

  lemma JoinAdds(p: Policy, st: LoopState, mid: LoopState, out: LoopState, calls: seq<ToolCall>, k: nat, script: Script)
    requires Adds(p, st, mid, calls, k, script) && |Added(st, mid)| == 1 && Adds(p, mid, out, calls, k + 1, script)
    ensures Adds(p, st, out, calls, k, script)
  {
    hide Leaves;
    var ms := Added(st, mid) + Added(mid, out);
    assert out.generated == st.generated + ms;
    AddedIs(st, out, ms);
    forall i | 0 <= i < |ms| ensures Leaves(p, calls[k + i], script, k + i, ms[i]) {
      if i > 0 { assert Leaves(p, calls[k + 1 + (i - 1)], script, k + 1 + (i - 1), Added(mid, out)[i - 1]); }
    }
  }

  lemma {:induction false} SerialAdds(a: Agent, st: LoopState, calls: seq<ToolCall>, k: nat, iteration: nat, script: Script)
    requires k <= |calls|
    ensures Adds(a.policy, st, Serial(a, st, calls, k, iteration, script).st, calls, k, script)
    decreases |calls| - k
  {
    hide OneCall, Adds, Added;
    if k == |calls| {
      NothingAdded(a.policy, st, Serial(a, st, calls, k, iteration, script).st, calls, k, script);
    } else {
      OneCallAdds(a, st, calls, k, iteration + 1, script);
      var one := OneCall(a, st, calls[k], k, iteration + 1, script);
      if !one.flow.Ended? {
        SerialAdds(a, one.st, calls, k + 1, iteration, script);
        JoinAdds(a.policy, st, one.st, Serial(a, one.st, calls, k + 1, iteration, script).st, calls, k, script);
      }
    }
  }

  lemma ReadyLeaves(a: Agent, calls: seq<ToolCall>, script: Script, i: nat)
    requires i < |calls| && IsParallelRead(a.policy, calls[i])
    ensures Leaves(a.policy, calls[i], script, i, ToolResult(calls[i].id, ReadResult(a, script, calls, i)))
  {
    RouteIff(a.policy, calls[i]);
    KindsExclude(a.policy, calls[i]);
    assert Evaluate(a.policy, calls[i]) == Execute;
    hide Evaluate, IsRefused, IsExecuted, IsDelegated, IsAsked;
  }

  lemma DispatchAdds(a: Agent, st: LoopState, calls: seq<ToolCall>, iteration: nat, script: Script)
    ensures Adds(a.policy, st, Dispatch(a, st, calls, iteration, script).st, calls, 0, script)
  {
    hide Serial, ToolBatchFits;
    if ParallelBatchEligible(a.policy, calls) {
      EligibleIff(a.policy, calls);
      var out, ms := Parallel(a, st, calls, iteration, script).st, GroupMessages(a, script, calls);
      AddedIs(st, out, ms);
      forall i: nat | i < |calls| ensures Leaves(a.policy, calls[i], script, i, ms[i]) { ReadyLeaves(a, calls, script, i); }
      hide Leaves, ParallelBatchEligible, GroupCancelled;
    }
    SerialAdds(a, st, calls, 0, iteration, script);
  }

  /** One iteration adds nothing, or its assistant message and results for the calls in it, which only a turn that
      ends with tool calls has. */
  predicate AddsTurn(p: Policy, st: LoopState, out: LoopState, turn: CompletedTurn, script: Script) {
    var ms := Added(st, out);
    && out.generated == st.generated + ms
    && (ms != [] ==>
          && ms[0] == AssistantMessage(turn)
          && AllLeave(p, turn.toolCalls, 0, script, ms[1..])
          && (turn.finishReason != ToolCalls ==> |ms| == 1))
  }

  lemma SilentTurn(p: Policy, st: LoopState, out: LoopState, turn: CompletedTurn, script: Script)
    requires out.generated == st.generated
    ensures AddsTurn(p, st, out, turn, script)
  {
    hide AllLeave;
    assert st.generated + [] == st.generated;
  }

  lemma RecordedTurn(p: Policy, st: LoopState, mid: LoopState, out: LoopState, turn: CompletedTurn, script: Script)
    requires mid.generated == st.generated + [AssistantMessage(turn)]
    requires Adds(p, mid, out, turn.toolCalls, 0, script)
    requires turn.finishReason != ToolCalls ==> out.generated == mid.generated
    ensures AddsTurn(p, st, out, turn, script)
  {
    hide AllLeave;
    var ms := [AssistantMessage(turn)] + Added(mid, out);
    assert out.generated == st.generated + ms && ms[1..] == Added(mid, out);
    AddedIs(st, out, ms);
  }

  lemma DecideAdds(a: Agent, st: LoopState, turn: CompletedTurn, iteration: nat, script: Script)
    ensures var out := Decide(a, st, turn, iteration, script).st;
            Adds(a.policy, st, out, turn.toolCalls, 0, script) &&
            (turn.finishReason != ToolCalls ==> out.generated == st.generated)
  {
    hide Adds, Dispatch;
    if turn.finishReason.ToolCalls? && turn.toolCalls != [] {
      DispatchAdds(a, st, turn.toolCalls, iteration, script);
    } else {
      NothingAdded(a.policy, st, Decide(a, st, turn, iteration, script).st, turn.toolCalls, 0, script);
    }
  }

  lemma RespondAdds(a: Agent, st: LoopState, turn: CompletedTurn, iteration: nat, script: Script)
    ensures AddsTurn(a.policy, st, Respond(a, st, turn, iteration, script).st, turn, script)
  {
    hide Adds, AddsTurn, Decide, IsEmptyTurn, TokenLimitExceeded, AssistantMessage;
    var out := Respond(a, st, turn, iteration, script).st;
    if IsEmptyTurn(turn) {
      SilentTurn(a.policy, st, out, turn, script);
    } else {
      var st2 := Compress(Recorded(st, turn), script.compression);
      if TokenLimitExceeded(a.budget, Recorded(st, turn).tokens) || script.compression.CheckpointLost? {
        NothingAdded(a.policy, st2, out, turn.toolCalls, 0, script);
      } else {
        DecideAdds(a, st2, turn, iteration, script);
      }
      RecordedTurn(a.policy, st, st2, out, turn, script);
    }
  }

  /** Whatever an iteration adds is the assembled turn and, call by call, what each call of it may leave. */
  lemma TurnAdds(a: Agent, st: LoopState, iteration: nat, script: Script)
    ensures var out, end := Turn(a, st, iteration, script).st, Requests(script.attempts, 0).end;
            && (Refusal(a, st, iteration, script).None? && end.Finished? ==>
                  AddsTurn(a.policy, st, out, Assemble(end.deltas), script))
            && (Refusal(a, st, iteration, script).Some? || !end.Finished? ==> out.generated == st.generated)
  {
    hide AddsTurn, Respond, Requests, Assemble;
    var r := Requests(script.attempts, 0);
    if Refusal(a, st, iteration, script).None? && r.end.Finished? {
      var st1 := AfterRequests(Emit(st, [ModelTurnStarted(iteration + 1)]), r.events, r.end, iteration);
      RespondAdds(a, st1, Assemble(r.end.deltas), iteration, script);
      SameAdds(a.policy, st, st1, Turn(a, st, iteration, script).st, Assemble(r.end.deltas), script);
    }
  }

  lemma SameAdds(p: Policy, st: LoopState, st1: LoopState, out: LoopState, turn: CompletedTurn, script: Script)
    requires st1.generated == st.generated && AddsTurn(p, st1, out, turn, script)
    ensures AddsTurn(p, st, out, turn, script)
  {
    hide AllLeave;
  }

  /** The message at `r` is among the results right behind the assistant message at `q`. */
  predicate IsResultOf(g: seq<Message>, q: nat, r: nat) {
    q < r < |g| && g[q].Assistant? && forall j :: q < j <= r ==> g[j].ToolResult?
  }

  /** A result of this call, as far as policy and registry alone decide it. */
  predicate Fits(p: Policy, call: ToolCall, m: Message) {
    && m.ToolResult? && m.callId == call.id
    && (IsRefused(p, call) ==> m.content == p.registry.refusal(call))
    && (IsExecuted(p, call) ==>
          m.content == p.registry.execute(call) || (IsParallelRead(p, call) && m.content == READ_INTERRUPTED))
  }

  ghost predicate Truthful(p: Policy, g: seq<Message>) {
    forall q: nat, r: nat :: IsResultOf(g, q, r) ==>
      r - q - 1 < |g[q].calls| && Fits(p, g[q].calls[r - q - 1], g[r])
  }

  lemma LeavesFits(p: Policy, call: ToolCall, script: Script, k: nat, m: Message)
    requires Leaves(p, call, script, k, m)
    ensures Fits(p, call, m) && m.ToolResult?
  {
    hide IsRefused, IsExecuted, IsDelegated, IsAsked, IsParallelRead;
  }

  lemma AllFit(p: Policy, calls: seq<ToolCall>, script: Script, ms: seq<Message>)
    requires AllLeave(p, calls, 0, script, ms)
    ensures |ms| <= |calls| && forall i :: 0 <= i < |ms| ==> ms[i].ToolResult? && Fits(p, calls[i], ms[i])
  {
    hide Fits, Leaves;
    forall i | 0 <= i < |ms| ensures ms[i].ToolResult? && Fits(p, calls[i], ms[i]) {
      LeavesFits(p, calls[0 + i], script, 0 + i, ms[i]);
    }
  }

  /** Results of an earlier turn are not affected by what comes after it. */
  lemma OldResult(g: seq<Message>, m: Message, rs: seq<Message>, q: nat, r: nat)
    requires IsResultOf(g + [m] + rs, q, r) && r < |g|
    ensures IsResultOf(g, q, r) && (g + [m] + rs)[q] == g[q] && (g + [m] + rs)[r] == g[r]
  {
    forall j | q < j <= r ensures g[j].ToolResult? { assert (g + [m] + rs)[j] == g[j]; }
  }

  /** Behind the last assistant message there are only its own results. */
  lemma NewResult(g: seq<Message>, m: Message, rs: seq<Message>, q: nat, r: nat)
    requires m.Assistant? && (forall i :: 0 <= i < |rs| ==> rs[i].ToolResult?)
    requires IsResultOf(g + [m] + rs, q, r) && r >= |g|
    ensures q == |g| && (g + [m] + rs)[q] == m && r - q - 1 < |rs| && (g + [m] + rs)[r] == rs[r - q - 1]
  {
    var all := g + [m] + rs;
    assert all[|g|] == m;
    assert forall k :: |g| < k < |all| ==> all[k] == rs[k - |g| - 1] && all[k].ToolResult?;
  }

  lemma TruthfulJoin(p: Policy, g: seq<Message>, m: Message, rs: seq<Message>)
    requires Truthful(p, g) && m.Assistant? && |rs| <= |m.calls|
    requires forall i :: 0 <= i < |rs| ==> rs[i].ToolResult? && Fits(p, m.calls[i], rs[i])
    ensures Truthful(p, g + [m] + rs)
  {
    hide Fits, IsResultOf;
    var all := g + [m] + rs;
    forall q: nat, r: nat | IsResultOf(all, q, r)
      ensures q < r < |all| && all[q].Assistant? && r - q - 1 < |all[q].calls| && Fits(p, all[q].calls[r - q - 1], all[r])
    {
      ResultPlaces(all, q, r);
      if r < |g| { OldResult(g, m, rs, q, r); } else { NewResult(g, m, rs, q, r); }
    }
  }

  lemma ResultPlaces(g: seq<Message>, q: nat, r: nat)
    requires IsResultOf(g, q, r)
    ensures q < r < |g| && g[q].Assistant?
  {
  }

  lemma TurnIsTruthful(p: Policy, st: LoopState, out: LoopState, turn: CompletedTurn, script: Script)
    requires Truthful(p, st.generated) && AddsTurn(p, st, out, turn, script)
    ensures Truthful(p, out.generated)
  {
    hide Fits, Truthful, AllLeave;
    var ms := Added(st, out);
    if ms == [] {
      assert out.generated == st.generated;
    } else {
      AllFit(p, turn.toolCalls, script, ms[1..]);
      TruthfulJoin(p, st.generated, ms[0], ms[1..]);
      assert st.generated + [ms[0]] + ms[1..] == out.generated;
    }
  }

  lemma {:induction false} RunIsTruthful(a: Agent, env: Env, st: LoopState, iteration: nat)
    requires Truthful(a.policy, st.generated)
    ensures Truthful(a.policy, RunFrom(a, env, st, iteration).generated)
    decreases a.config.maxIterations - iteration
  {
    hide Turn, Truthful, AddsTurn, Refusal, Requests, Assemble;
    if iteration < a.config.maxIterations {
      var out, end := Turn(a, st, iteration, env(iteration)), Requests(env(iteration).attempts, 0).end;
      TurnAdds(a, st, iteration, env(iteration));
      if Refusal(a, st, iteration, env(iteration)).None? && end.Finished? {
        TurnIsTruthful(a.policy, st, out.st, Assemble(end.deltas), env(iteration));
      }
      if !out.flow.Ended? { RunIsTruthful(a, env, out.st, iteration + 1); }
    }
  }

  /** In every run, each result behind an assistant message belongs to the call of its place: a refused call has
      left its refusal and nothing else, and an executed one what the registry made of it, unless it was a
      parallel read that a cancellation interrupted. */
  lemma ResultsAreTrue(a: Agent, env: Env, history: seq<Message>)
    ensures Truthful(a.policy, RunFrom(a, env, StartState(history), 0).generated)
  {
    hide RunFrom;
    RunIsTruthful(a, env, StartState(history), 0);
  }
}
