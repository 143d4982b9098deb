/** What a run of the agent loop counts: the turns and tool calls it starts stay within the
    limits, and the closing event reports them truthfully. */
module AgentSpending {
  import Decimal
  import opened RunBudget
  import opened TurnState
  import opened ToolDispatch
  import opened AgentLoop
  import opened AgentRuns

  predicate IsTurnStart(e: Event) {
    e.ModelTurnStarted?
  }

  predicate IsCallStart(e: Event) {
    e.ToolCallStarted?
  }

  function Count(es: seq<Event>, p: Event -> bool): nat {
    if es == [] then 0 else Count(es[..|es| - 1], p) + (if p(es[|es| - 1]) then 1 else 0)
  }

  lemma {:induction false} CountConcat(a: seq<Event>, b: seq<Event>, p: Event -> bool)
    ensures Count(a + b, p) == Count(a, p) + Count(b, p)
  {
    if b == [] {
      assert a + b == a;
    } else {
      CountConcat(a, b[..|b| - 1], p);
      assert (a + b)[..|a + b| - 1] == a + b[..|b| - 1];
    }
  }

  lemma {:induction false} CountNone(es: seq<Event>, p: Event -> bool)
    requires forall i :: 0 <= i < |es| ==> !p(es[i])
    ensures Count(es, p) == 0
  {
    if es != [] { CountNone(es[..|es| - 1], p); }
  }

  lemma {:induction false} CountAll(es: seq<Event>, p: Event -> bool)
    requires forall i :: 0 <= i < |es| ==> p(es[i])
    ensures Count(es, p) == |es|
  {
    if es != [] { CountAll(es[..|es| - 1], p); }
  }

  /** The limit is kept, unless it is at the top of the 32-bit range, where its check lets any batch through. */
  predicate WithinTools(b: Budget, n: nat) {
    b.maxToolCalls.Some? && b.maxToolCalls.value < Decimal.U32_MAX ==> n <= b.maxToolCalls.value
  }

  /** The events tell the number of turns started and, with the counter, of tool calls started. */
  predicate Counted(a: Agent, st: LoopState, turns: nat) {
    && Count(st.events, IsTurnStart) == turns
    && Count(st.events, IsCallStart) == st.toolCalls
    && WithinTools(a.budget, st.toolCalls)
  }

  predicate AllNeutral(es: seq<Event>) {
    forall i :: 0 <= i < |es| ==> !es[i].ModelTurnStarted? && !es[i].ToolCallStarted?
  }

  lemma EmitNeutral(a: Agent, st: LoopState, es: seq<Event>, turns: nat)
    requires Counted(a, st, turns) && AllNeutral(es)
    ensures Counted(a, Emit(st, es), turns)
  {
    CountConcat(st.events, es, IsTurnStart);
    CountConcat(st.events, es, IsCallStart);
    CountNone(es, IsTurnStart);
    CountNone(es, IsCallStart);
  }

  /** A closing `Done` reports the tool calls started and this number of model turns. */
  predicate ToldTruly(st: LoopState, apiCalls: nat) {
    st.events != [] && st.events[|st.events| - 1].Done? ==>
      var done := st.events[|st.events| - 1];
      done.toolCalls == st.toolCalls && done.apiCalls == apiCalls
  }

  predicate Accounted(a: Agent, out: TurnOut, turns: nat) {
    Counted(a, out.st, turns) && (out.flow.Ended? ==> ToldTruly(out.st, turns))
  }

  lemma CloseAccounted(a: Agent, st: LoopState, kind: ErrorKind, apiCalls: nat, turns: nat)
    requires Counted(a, st, turns)
    ensures Counted(a, Close(st, apiCalls), turns) && ToldTruly(Close(st, apiCalls), apiCalls)
    ensures Counted(a, Fail(st, kind, apiCalls), turns) && ToldTruly(Fail(st, kind, apiCalls), apiCalls)
  {
    EmitNeutral(a, st, [Done(apiCalls, st.toolCalls)], turns);
    EmitNeutral(a, st, [Error(kind), Done(apiCalls, st.toolCalls)], turns);
  }

  lemma FinishAccounted(a: Agent, st: LoopState, call: ToolCall, result: string, turns: nat)
    requires Counted(a, st, turns)
    ensures Accounted(a, FinishCall(st, call, result), turns)
  {
    EmitNeutral(a, st, [ToolCallFinished(call.id, result)], turns);
  }

  lemma BeginAccounted(a: Agent, st: LoopState, call: ToolCall, turns: nat)
    requires Counted(a, st, turns) && !ToolLimitReached(a.budget, st.toolCalls)
    ensures Counted(a, Begin(st, call), turns)
  {
    var es := [ToolCallStarted(call.id)];
    CountConcat(st.events, es, IsTurnStart);
    CountConcat(st.events, es, IsCallStart);
    CountNone(es, IsTurnStart);
    CountAll(es, IsCallStart);
  }

  lemma HandleAccounted(a: Agent, begun: LoopState, call: ToolCall, answer: Answer, turns: nat)
    requires Counted(a, begun, turns)
    ensures Accounted(a, Handle(a, begun, call, answer, turns), turns)
  {
    hide Counted;
    hide ToldTruly;
    hide Evaluate;
    hide FinishCall;
    hide Emit;
    EmitNeutral(a, begun, [ClarifyRequired], turns);
    var asked := Emit(begun, [ClarifyRequired]);
    match Evaluate(a.policy, call)
    case Execute => FinishAccounted(a, begun, call, a.policy.registry.execute(call), turns);
    case Blocked => FinishAccounted(a, begun, call, a.policy.registry.refusal(call), turns);
    case Clarify =>
      if answer.clarified.None? { CloseAccounted(a, asked, ToolBudget, turns, turns); }
      else { FinishAccounted(a, asked, call, answer.clarified.value, turns); }
    case DurableClarify => DecisionAccounted(a, begun, call, answer, turns);
    case Delegate =>
      var charged := begun.(tokens := SaturatingAdd(begun.tokens, answer.delegatedTokens));
      TokensDoNotCount(a, begun, charged.tokens, turns);
      FinishAccounted(a, charged, call, answer.delegated, turns);
  }

  lemma TokensDoNotCount(a: Agent, st: LoopState, tokens: nat, turns: nat)
    requires Counted(a, st, turns)
    ensures Counted(a, st.(tokens := tokens), turns)
  {
  }

  lemma DecisionAccounted(a: Agent, begun: LoopState, call: ToolCall, answer: Answer, turns: nat)
    requires Counted(a, begun, turns) && Evaluate(a.policy, call).DurableClarify?
    ensures Accounted(a, Handle(a, begun, call, answer, turns), turns)
  {
    hide Counted;
    hide Evaluate;
    hide FinishCall;
    match answer.decision
    case NoCoordinator =>
      var finished := [ToolCallFinished(call.id, DECISIONS_UNAVAILABLE)];
      EmitNeutral(a, begun, finished, turns);
      CloseAccounted(a, Emit(begun, finished), ToolBudget, turns, turns);
    case CreationFailed(result) => FinishAccounted(a, begun, call, result, turns);
    case Created(result, announced, suspend) =>
      EmitNeutral(a, begun, [ClarifyRequired], turns);
      var asked := if announced then Emit(begun, [ClarifyRequired]) else begun;
      EmitNeutral(a, asked, [ToolCallFinished(call.id, result), RunPaused], turns);
      FinishAccounted(a, asked, call, result, turns);
  }

  lemma OneCallAccounted(a: Agent, st: LoopState, call: ToolCall, k: nat, turns: nat, script: Script)
    requires Counted(a, st, turns)
    ensures Accounted(a, OneCall(a, st, call, k, turns, script), turns)
  {
    hide Counted;
    hide ToldTruly;
    hide Handle;
    hide Begin;
    if script.cancelledBefore(k) || ToolLimitReached(a.budget, st.toolCalls) {
      CloseAccounted(a, st, ToolBudget, turns, turns);
    } else {
      BeginAccounted(a, st, call, turns);
      HandleAccounted(a, Begin(st, call), call, script.answers(k), turns);
    }
  }

  lemma LimitAccounted(a: Agent, st: LoopState, iteration: nat)
    requires Counted(a, st, iteration + 1)
    ensures Accounted(a, LimitCheck(a, st, iteration), iteration + 1)
  {
    CloseAccounted(a, st, IterationLimit, iteration + 1, iteration + 1);
  }

  lemma {:induction false} SerialAccounted(a: Agent, st: LoopState, calls: seq<ToolCall>, k: nat, iteration: nat, script: Script)
    requires Counted(a, st, iteration + 1) && k <= |calls|
    ensures Accounted(a, Serial(a, st, calls, k, iteration, script), iteration + 1)
    decreases |calls| - k
  {
    hide Counted;
    hide OneCall;
    hide LimitCheck;
    if k == |calls| {
      LimitAccounted(a, st, iteration);
    } else {
      OneCallAccounted(a, st, calls[k], k, iteration + 1, script);
      var out := OneCall(a, st, calls[k], k, iteration + 1, script);
      if !out.flow.Ended? { SerialAccounted(a, out.st, calls, k + 1, iteration, script); }
    }
  }

  lemma GroupCounted(a: Agent, st: LoopState, calls: seq<ToolCall>, script: Script, turns: nat)
    requires Counted(a, st, turns) && WithinTools(a.budget, st.toolCalls + |calls|)
    ensures Counted(a, Grouped(a, st, calls, script), turns)
  {
    var starts, finishes := GroupStarts(calls), GroupFinishes(a, script, calls, Completion(script, |calls|));
    CountConcat(st.events + starts, finishes, IsTurnStart);
    CountConcat(st.events + starts, finishes, IsCallStart);
    CountConcat(st.events, starts, IsTurnStart);
    CountConcat(st.events, starts, IsCallStart);
    CountNone(starts, IsTurnStart);
    CountAll(starts, IsCallStart);
    CountNone(finishes, IsTurnStart);
    CountNone(finishes, IsCallStart);
  }

  lemma ParallelAccounted(a: Agent, st: LoopState, calls: seq<ToolCall>, iteration: nat, script: Script)
    requires Counted(a, st, iteration + 1) && WithinTools(a.budget, st.toolCalls + |calls|)
    ensures Accounted(a, Parallel(a, st, calls, iteration, script), iteration + 1)
  {
    hide Counted;
    hide Grouped;
    var done := Grouped(a, st, calls, script);
    GroupCounted(a, st, calls, script, iteration + 1);
    CloseAccounted(a, done, ToolBudget, iteration + 1, iteration + 1);
    LimitAccounted(a, done, iteration);
  }

  /** The check of a parallel batch keeps the limit for every count, if and only if the limit is below the
      top of the 32-bit range, where the sum is saturated. */
  lemma BatchCheckIsSoundIff(b: Budget)
    requires b.maxToolCalls.Some? && b.maxToolCalls.value <= Decimal.U32_MAX
    ensures (forall completed: nat, n: nat :: ToolBatchFits(b, completed, n) ==> completed + n <= b.maxToolCalls.value) <==>
            b.maxToolCalls.value < Decimal.U32_MAX
  {
    if b.maxToolCalls.value == Decimal.U32_MAX { assert ToolBatchFits(b, Decimal.U32_MAX, 1) && Decimal.U32_MAX + 1 > b.maxToolCalls.value; }
  }

  lemma FittingBatch(b: Budget, completed: nat, n: nat)
    requires ToolBatchFits(b, completed, n)
    ensures WithinTools(b, completed + n)
  {
  }

  lemma DecideAccounted(a: Agent, st: LoopState, turn: CompletedTurn, iteration: nat, script: Script)
    requires Counted(a, st, iteration + 1)
    ensures Accounted(a, Decide(a, st, turn, iteration, script), iteration + 1)
  {
    hide Parallel;
    hide Serial;
    hide ToolBatchFits;
    hide ToldTruly;
    hide Count;
    if turn.finishReason.ToolCalls? {
      CloseAccounted(a, st, NoCalls, iteration + 1, iteration + 1);
      if ToolBatchFits(a.budget, st.toolCalls, |turn.toolCalls|) {
        FittingBatch(a.budget, st.toolCalls, |turn.toolCalls|);
        ParallelAccounted(a, st, turn.toolCalls, iteration, script);
      }
      SerialAccounted(a, st, turn.toolCalls, 0, iteration, script);
    } else {
      CloseAccounted(a, st, CompletionGate, iteration + 1, iteration + 1);
    }
  }

  lemma RecordedAccounted(a: Agent, st: LoopState, turn: CompletedTurn, compression: Compression, turns: nat)
    requires Counted(a, st, turns)
    ensures Counted(a, Recorded(st, turn), turns)
    ensures Counted(a, Compress(Recorded(st, turn), compression), turns)
  {
    EmitNeutral(a, st, [TurnCompleted(turn.finishReason)], turns);
    EmitNeutral(a, Recorded(st, turn), [ContextCompressing], turns);
  }

  lemma RespondAccounted(a: Agent, st: LoopState, turn: CompletedTurn, iteration: nat, script: Script)
    requires Counted(a, st, iteration + 1)
    ensures Accounted(a, Respond(a, st, turn, iteration, script), iteration + 1)
  {
    hide Decide;
    hide ToldTruly;
    hide Count;
    hide Recorded;
    hide Compress;
    if IsEmptyTurn(turn) {
      CloseAccounted(a, st.(empties := st.empties + 1), EmptyResponses, iteration + 1, iteration + 1);
    } else {
      RecordedAccounted(a, st, turn, script.compression, iteration + 1);
      var st1 := Recorded(st, turn);
      var st2 := Compress(st1, script.compression);
      CloseAccounted(a, st1, TokensExceeded, iteration + 1, iteration + 1);
      CloseAccounted(a, st2, CheckpointFailed, iteration + 1, iteration + 1);
      DecideAccounted(a, st2, turn, iteration, script);
    }
  }

  lemma {:induction false} RequestsAreNeutral(attempts: nat -> Attempt, retryIndex: nat)
    requires retryIndex <= |RETRY_DELAYS|
    ensures AllNeutral(Requests(attempts, retryIndex).events)
    decreases |RETRY_DELAYS| - retryIndex
  {
    hide TryOnce;
    var attempt := attempts(retryIndex);
    if TryOnce(attempt, retryIndex).RetryAfter? {
      RetriesEnd(attempt, retryIndex);
      RequestsAreNeutral(attempts, retryIndex + 1);
    } else {
      SettledIsNeutral(attempt, retryIndex);
    }
  }

  lemma SettledIsNeutral(attempt: Attempt, retryIndex: nat)
    requires TryOnce(attempt, retryIndex).Settled?
    ensures AllNeutral(TryOnce(attempt, retryIndex).result.events)
  {
    if attempt.Opened? { DisplayIsNeutral(Consume(attempt.items).deltas); }
  }

  lemma {:induction false} DisplayIsNeutral(ds: seq<StreamDelta>)
    ensures AllNeutral(DisplayAll(ds))
  {
    if ds != [] { DisplayIsNeutral(ds[..|ds| - 1]); }
  }

  lemma TurnStarts(a: Agent, st: LoopState, iteration: nat)
    requires Counted(a, st, iteration)
    ensures Counted(a, Emit(st, [ModelTurnStarted(iteration + 1)]), iteration + 1)
  {
    var es := [ModelTurnStarted(iteration + 1)];
    CountConcat(st.events, es, IsTurnStart);
    CountConcat(st.events, es, IsCallStart);
    CountAll(es, IsTurnStart);
    CountNone(es, IsCallStart);
  }

  /** The model turns a run that ends in this iteration reports: a turn cancelled before its request was
      answered is not counted. */
  function Told(iteration: nat, end: RequestEnd): nat {
    if end == CutOff(false) then iteration else iteration + 1
  }

  lemma AfterRequestsAccounted(a: Agent, st: LoopState, r: Requested, iteration: nat)
    requires Counted(a, st, iteration + 1) && AllNeutral(r.events)
    ensures var after := AfterRequests(st, r.events, r.end, iteration);
            Counted(a, after, iteration + 1) && (!r.end.Finished? ==> ToldTruly(after, Told(iteration, r.end)))
  {
    var shown := Emit(st, r.events);
    EmitNeutral(a, st, r.events, iteration + 1);
    match r.end
    case Finished(_) =>
    case CutOff(counted) => CloseAccounted(a, shown, ApiLimit, if counted then iteration + 1 else iteration, iteration + 1);
    case Unavailable => EmitNeutral(a, shown, [ProviderUnavailable, Done(iteration + 1, shown.toolCalls)], iteration + 1);
    case Failed(kind) => CloseAccounted(a, shown, kind, iteration + 1, iteration + 1);
  }

  /** A refused iteration starts no turn; any other starts one, and the model-call limit allows it. */
  lemma TurnAccounted(a: Agent, st: LoopState, iteration: nat, script: Script)
    requires Counted(a, st, iteration)
    ensures var out := Turn(a, st, iteration, script);
            if Refusal(a, st, iteration, script).Some? then out.flow.Ended? && Accounted(a, out, iteration)
            else
              && iteration < a.config.maxApiCalls
              && Counted(a, out.st, iteration + 1)
              && (out.flow.Ended? ==> ToldTruly(out.st, Told(iteration, Requests(script.attempts, 0).end)))
              && (!out.flow.Ended? ==> Requests(script.attempts, 0).end.Finished?)
  {
    hide Counted;
    hide ToldTruly;
    hide Requests;
    hide Respond;
    hide AfterRequests;
    if Refusal(a, st, iteration, script).Some? {
      CloseAccounted(a, st, TokenBudget, iteration, iteration);
      CloseAccounted(a, st, RuntimeBudget, iteration, iteration);
      CloseAccounted(a, st, ApiLimit, iteration, iteration);
    } else {
      var r := Requests(script.attempts, 0);
      var begun := Emit(st, [ModelTurnStarted(iteration + 1)]);
      TurnStarts(a, st, iteration);
      RequestsAreNeutral(script.attempts, 0);
      AfterRequestsAccounted(a, begun, r, iteration);
      if r.end.Finished? {
        RespondAccounted(a, AfterRequests(begun, r.events, r.end, iteration), Assemble(r.end.deltas), iteration, script);
      }
    }
  }

  lemma QuietTellsNothing(st: LoopState, turns: nat)
    requires AllQuiet(st.events)
    ensures ToldTruly(st, turns)
  {
    if st.events != [] { assert IsQuiet(st.events[|st.events| - 1]); }
  }

  /** Of so many turns started, those a run reports that ends in the last of them. */
  function ToldTurns(env: Env, turns: nat): nat {
    if turns == 0 then 0 else Told(turns - 1, Requests(env(turns - 1).attempts, 0).end)
  }

  /** The books of a finished run: so many turns, within both limits, and all told truly. */
  predicate Balanced(a: Agent, env: Env, end: LoopState, turns: nat) {
    && turns <= Min(a.config.maxIterations, a.config.maxApiCalls)
    && Counted(a, end, turns) && ToldTruly(end, ToldTurns(env, turns))
  }

  /** A turn that goes on has been answered; one that ends the run leaves the books balanced. */
  lemma TurnBalances(a: Agent, env: Env, st: LoopState, iteration: nat)
    requires Counted(a, st, iteration) && ToldTurns(env, iteration) == iteration
    requires iteration < a.config.maxIterations && iteration <= a.config.maxApiCalls
    ensures var out := Turn(a, st, iteration, env(iteration));
            if out.flow.Ended? then Balanced(a, env, out.st, iteration) || Balanced(a, env, out.st, iteration + 1)
            else Counted(a, out.st, iteration + 1) && ToldTurns(env, iteration + 1) == iteration + 1 &&
                 iteration < a.config.maxApiCalls
  {
    hide Turn, Counted, ToldTruly, Requests, Refusal;
    TurnAccounted(a, st, iteration, env(iteration));
  }

  lemma {:induction false} RunAccounted(a: Agent, env: Env, st: LoopState, iteration: nat)
    requires Counted(a, st, iteration)
    requires iteration <= Min(a.config.maxIterations, a.config.maxApiCalls)
    requires AllQuiet(st.events) && ToldTurns(env, iteration) == iteration
    ensures exists turns :: Balanced(a, env, RunFrom(a, env, st, iteration), turns)
    decreases a.config.maxIterations - iteration
  {
    hide Turn, Counted, ToldTruly, ToldTurns, AllQuiet, WellClosed, RunFrom;
    RunUnfolds(a, env, st, iteration);
    if iteration < a.config.maxIterations {
      TurnBalances(a, env, st, iteration);
      TurnProper(a, st, iteration, env(iteration));
      var out := Turn(a, st, iteration, env(iteration));
      if !out.flow.Ended? { RunAccounted(a, env, out.st, iteration + 1); }
    } else {
      QuietTellsNothing(st, iteration);
      assert Balanced(a, env, st, iteration);
    }
  }

  /** Every run starts at most as many model turns as both limits allow and never counts more tool
      calls than its budget; the closing `Done` tells both numbers, leaving out the last turn exactly if
      the run was cancelled before that turn's request was answered. */
  lemma SpendingBounded(a: Agent, env: Env, history: seq<Message>)
    ensures var end := RunFrom(a, env, StartState(history), 0);
            var turns := Count(end.events, IsTurnStart);
            && turns <= Min(a.config.maxIterations, a.config.maxApiCalls)
            && Count(end.events, IsCallStart) == end.toolCalls && WithinTools(a.budget, end.toolCalls)
            && ToldTruly(end, ToldTurns(env, turns))
  {
    hide RunFrom;
    var start := StartState(history);
    assert Counted(a, start, 0);
    RunAccounted(a, env, start, 0);
    hide ToldTruly, ToldTurns;
    var turns :| Balanced(a, env, RunFrom(a, env, start, 0), turns);
  }
}
