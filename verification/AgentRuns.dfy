/** How a run of the agent loop can end, for all scripts of its environment. */
module AgentRuns {
  import opened Text
  import opened RunBudget
  import opened TurnState
  import opened ToolDispatch
  import opened AgentLoop

  // ---- The ways a run can end ----

  predicate IsQuiet(e: Event) {
    !e.Done? && !e.RunPaused? && !e.Error? && !e.ProviderUnavailable?
  }

  predicate AllQuiet(es: seq<Event>) {
    forall i :: 0 <= i < |es| ==> IsQuiet(es[i])
  }

  predicate IsTail(tail: seq<Event>) {
    || (|tail| == 1 && (tail[0].Done? || tail[0].RunPaused?))
    || (|tail| == 2 && (tail[0].Error? || tail[0].ProviderUnavailable?) && tail[1].Done?)
  }

  /** Quiet events up to position `n`, and from there one closing tail. */
  predicate ClosesAt(es: seq<Event>, n: nat) {
    && n < |es|
    && (forall i :: 0 <= i < n ==> IsQuiet(es[i]))
    && (if n == |es| - 1 then es[n].Done? || es[n].RunPaused?
        else n == |es| - 2 && (es[n].Error? || es[n].ProviderUnavailable?) && es[n + 1].Done?)
  }

  predicate WellClosed(es: seq<Event>) {
    exists n :: 0 <= n < |es| && ClosesAt(es, n)
  }

  predicate Proper(out: TurnOut) {
    if out.flow.Ended? then WellClosed(out.st.events) else AllQuiet(out.st.events)
  }

  lemma ClosedBy(quiet: seq<Event>, tail: seq<Event>)
    requires AllQuiet(quiet) && IsTail(tail)
    ensures WellClosed(quiet + tail) && !AllQuiet(quiet + tail)
  {
    assert (quiet + tail)[|quiet|] == tail[0];
    assert ClosesAt(quiet + tail, |quiet|);
  }

  lemma CloseIsProper(st: LoopState, kind: ErrorKind, apiCalls: nat)
    requires AllQuiet(st.events)
    ensures WellClosed(Close(st, apiCalls).events)
    ensures WellClosed(Fail(st, kind, apiCalls).events)
  {
    ClosedBy(st.events, [Done(apiCalls, st.toolCalls)]);
    ClosedBy(st.events, [Error(kind), Done(apiCalls, st.toolCalls)]);
  }

  lemma {:induction false} DisplayIsQuiet(ds: seq<StreamDelta>)
    ensures AllQuiet(DisplayAll(ds))
  {
    if ds != [] { DisplayIsQuiet(ds[..|ds| - 1]); }
  }

  lemma {:induction false} RequestsAreQuiet(attempts: nat -> Attempt, retryIndex: nat)
    requires retryIndex <= |RETRY_DELAYS|
    ensures AllQuiet(Requests(attempts, retryIndex).events)
    decreases |RETRY_DELAYS| - retryIndex
  {
    hide TryOnce;
    var attempt := attempts(retryIndex);
    if TryOnce(attempt, retryIndex).RetryAfter? {
      RetriesEnd(attempt, retryIndex);
      RequestsAreQuiet(attempts, retryIndex + 1);
    } else {
      SettledIsQuiet(attempt, retryIndex);
    }
  }

  lemma SettledIsQuiet(attempt: Attempt, retryIndex: nat)
    requires TryOnce(attempt, retryIndex).Settled?
    ensures AllQuiet(TryOnce(attempt, retryIndex).result.events)
  {
    if attempt.Opened? { DisplayIsQuiet(Consume(attempt.items).deltas); }
  }

  lemma OneCallProper(a: Agent, st: LoopState, call: ToolCall, k: nat, apiCalls: nat, script: Script)
    requires AllQuiet(st.events)
    ensures Proper(OneCall(a, st, call, k, apiCalls, script))
  {
    hide WellClosed;
    hide Handle;
    CloseIsProper(st, ToolBudget, apiCalls);
    HandleProper(a, Begin(st, call), call, script.answers(k), apiCalls);
  }

  lemma HandleProper(a: Agent, begun: LoopState, call: ToolCall, answer: Answer, apiCalls: nat)
    requires AllQuiet(begun.events)
    ensures Proper(Handle(a, begun, call, answer, apiCalls))
  {
    hide WellClosed;
    hide Evaluate;
    match Evaluate(a.policy, call)
    case Execute =>
    case Blocked =>
    case Delegate =>
    case Clarify => CloseIsProper(Emit(begun, [ClarifyRequired]), ToolBudget, apiCalls);
    case DurableClarify =>
      match answer.decision
      case NoCoordinator => CloseIsProper(Emit(begun, [ToolCallFinished(call.id, DECISIONS_UNAVAILABLE)]), ToolBudget, apiCalls);
      case CreationFailed(_) =>
      case Created(result, announced, suspend) =>
        var asked := if announced then Emit(begun, [ClarifyRequired]) else begun;
        var finished := ToolCallFinished(call.id, result);
        ClosedBy(asked.events + [finished], [RunPaused]);
        assert asked.events + [finished] + [RunPaused] == asked.events + [finished, RunPaused];
  }

  lemma LimitCheckProper(a: Agent, st: LoopState, iteration: nat)
    requires AllQuiet(st.events)
    ensures Proper(LimitCheck(a, st, iteration))
  {
    CloseIsProper(st, IterationLimit, iteration + 1);
  }

  lemma {:induction false} SerialProper(a: Agent, st: LoopState, calls: seq<ToolCall>, k: nat, iteration: nat, script: Script)
    requires AllQuiet(st.events) && k <= |calls|
    ensures Proper(Serial(a, st, calls, k, iteration, script))
    decreases |calls| - k
  {
    hide OneCall;
    hide LimitCheck;
    if k == |calls| {
      LimitCheckProper(a, st, iteration);
    } else {
      OneCallProper(a, st, calls[k], k, iteration + 1, script);
      var out := OneCall(a, st, calls[k], k, iteration + 1, script);
      if !out.flow.Ended? { SerialProper(a, out.st, calls, k + 1, iteration, script); }
    }
  }

  lemma ParallelProper(a: Agent, st: LoopState, calls: seq<ToolCall>, iteration: nat, script: Script)
    requires AllQuiet(st.events)
    ensures Proper(Parallel(a, st, calls, iteration, script))
  {
    hide WellClosed;
    var order := Completion(script, |calls|);
    assert AllQuiet(GroupStarts(calls)) && AllQuiet(GroupFinishes(a, script, calls, order));
    var done := Grouped(a, st, calls, script);
    assert AllQuiet(done.events);
    CloseIsProper(done, ToolBudget, iteration + 1);
    LimitCheckProper(a, done, iteration);
  }

  lemma DecideProper(a: Agent, st: LoopState, turn: CompletedTurn, iteration: nat, script: Script)
    requires AllQuiet(st.events)
    ensures Proper(Decide(a, st, turn, iteration, script))
  {
    hide WellClosed;
    hide Parallel;
    hide Serial;
    CloseIsProper(st, CompletionGate, iteration + 1);
    CloseIsProper(st, NoCalls, iteration + 1);
    ParallelProper(a, st, turn.toolCalls, iteration, script);
    SerialProper(a, st, turn.toolCalls, 0, iteration, script);
  }

  lemma RecordedQuiet(st: LoopState, turn: CompletedTurn, compression: Compression)
    requires AllQuiet(st.events)
    ensures AllQuiet(Recorded(st, turn).events)
    ensures AllQuiet(Compress(Recorded(st, turn), compression).events)
  {
  }

  lemma RespondProper(a: Agent, st: LoopState, turn: CompletedTurn, iteration: nat, script: Script)
    requires AllQuiet(st.events)
    ensures Proper(Respond(a, st, turn, iteration, script))
  {
    hide WellClosed, AllQuiet, Decide, Recorded, Compress, Fail, IsEmptyTurn, TokenLimitExceeded;
    RecordedQuiet(st, turn, script.compression);
    if IsEmptyTurn(turn) {
      CloseIsProper(st.(empties := st.empties + 1), EmptyResponses, iteration + 1);
    } else {
      var st1 := Recorded(st, turn);
      var st2 := Compress(st1, script.compression);
      CloseIsProper(st1, TokensExceeded, iteration + 1);
      CloseIsProper(st2, CheckpointFailed, iteration + 1);
      DecideProper(a, st2, turn, iteration, script);
    }
  }

  lemma TurnProper(a: Agent, st: LoopState, iteration: nat, script: Script)
    requires AllQuiet(st.events)
    ensures Proper(Turn(a, st, iteration, script))
  {
    hide WellClosed;
    hide Respond;
    hide Requests;
    if Refusal(a, st, iteration, script).Some? {
      CloseIsProper(st, TokenBudget, iteration);
      CloseIsProper(st, RuntimeBudget, iteration);
      CloseIsProper(st, ApiLimit, iteration);
    } else {
      var r := Requests(script.attempts, 0);
      RequestsAreQuiet(script.attempts, 0);
      var shown := Emit(Emit(st, [ModelTurnStarted(iteration + 1)]), r.events);
      match r.end
      case Finished(deltas) => RespondProper(a, shown, Assemble(deltas), iteration, script);
      case CutOff(counted) => CloseIsProper(shown, ApiLimit, if counted then iteration + 1 else iteration);
      case Unavailable => ClosedBy(shown.events, [ProviderUnavailable, Done(iteration + 1, shown.toolCalls)]);
      case Failed(kind) => CloseIsProper(shown, kind, iteration + 1);
    }
  }

  lemma {:induction false} RunProper(a: Agent, env: Env, st: LoopState, iteration: nat)
    requires AllQuiet(st.events)
    ensures var es := RunFrom(a, env, st, iteration).events; AllQuiet(es) || WellClosed(es)
    decreases a.config.maxIterations - iteration
  {
    hide Turn;
    if iteration < a.config.maxIterations {
      TurnProper(a, st, iteration, env(iteration));
      var out := Turn(a, st, iteration, env(iteration));
      if !out.flow.Ended? { RunProper(a, env, out.st, iteration + 1); }
    }
  }

  predicate IsFinal(e: Event) {
    e.Done? || e.RunPaused?
  }

  /** In every run nothing follows `Done` or `RunPaused`, and every error is followed at once by
      the closing `Done`. */
  lemma NothingFollowsTheEnd(a: Agent, env: Env, history: seq<Message>)
    ensures var es := RunFrom(a, env, StartState(history), 0).events;
            && (forall i :: 0 <= i < |es| && IsFinal(es[i]) ==> i == |es| - 1)
            && (forall i :: 0 <= i < |es| && (es[i].Error? || es[i].ProviderUnavailable?) ==>
                  i == |es| - 2 && es[|es| - 1].Done?)
  {
    hide RunFrom;
    RunProper(a, env, StartState(history), 0);
    ClosingPositions(RunFrom(a, env, StartState(history), 0).events);
  }

  lemma ClosingPositions(es: seq<Event>)
    requires AllQuiet(es) || WellClosed(es)
    ensures forall i :: 0 <= i < |es| && IsFinal(es[i]) ==> i == |es| - 1
    ensures forall i :: 0 <= i < |es| && (es[i].Error? || es[i].ProviderUnavailable?) ==>
              i == |es| - 2 && es[|es| - 1].Done?
  {
    if !AllQuiet(es) {
      var n :| 0 <= n < |es| && ClosesAt(es, n);
      assert forall i :: 0 <= i < |es| && !IsQuiet(es[i]) ==> n <= i;
    }
  }

  /** The state before iteration `k`, if the run gets there. */
  ghost function StateAt(a: Agent, env: Env, st: LoopState, k: nat): Option<LoopState> {
    if k == 0 then Some(st)
    else
      match StateAt(a, env, st, k - 1)
      case None => None
      case Some(before) =>
        if k > a.config.maxIterations then None
        else
          var out := Turn(a, before, k - 1, env(k - 1));
          if out.flow.Ended? then None else Some(out.st)
  }

  lemma {:induction false} StatesOfRun(a: Agent, env: Env, st: LoopState, k: nat)
    requires AllQuiet(st.events) && StateAt(a, env, st, k).Some? && k <= a.config.maxIterations
    ensures RunFrom(a, env, st, 0) == RunFrom(a, env, StateAt(a, env, st, k).value, k)
    ensures AllQuiet(StateAt(a, env, st, k).value.events)
  {
    hide Turn;
    if k > 0 {
      StatesOfRun(a, env, st, k - 1);
      TurnProper(a, StateAt(a, env, st, k - 1).value, k - 1, env(k - 1));
    }
  }

  lemma {:induction false} EndedEarly(a: Agent, env: Env, st: LoopState, k: nat)
    requires AllQuiet(st.events) && StateAt(a, env, st, k).None? && k <= a.config.maxIterations
    ensures !AllQuiet(RunFrom(a, env, st, 0).events)
  {
    hide Turn;
    if StateAt(a, env, st, k - 1).None? {
      EndedEarly(a, env, st, k - 1);
    } else {
      StatesOfRun(a, env, st, k - 1);
      var before := StateAt(a, env, st, k - 1).value;
      TurnProper(a, before, k - 1, env(k - 1));
      ClosedIsNotQuiet(Turn(a, before, k - 1, env(k - 1)).st.events);
    }
  }

  lemma ClosedIsNotQuiet(es: seq<Event>)
    requires WellClosed(es)
    ensures !AllQuiet(es)
  {
    var n :| 0 <= n < |es| && ClosesAt(es, n);
    assert !IsQuiet(es[n]);
  }

  /** The last allowed iteration never goes on normally. */
  lemma LastTurnChecked(a: Agent, st: LoopState, iteration: nat, script: Script)
    requires iteration + 1 >= a.config.maxIterations
    ensures !Turn(a, st, iteration, script).flow.Next?
  {
    hide AfterRequests;
    hide Requests;
    hide Respond;
    hide Refusal;
    var r := Requests(script.attempts, 0);
    if r.end.Finished? {
      var st1 := AfterRequests(Emit(st, [ModelTurnStarted(iteration + 1)]), r.events, r.end, iteration);
      RespondChecked(a, st1, Assemble(r.end.deltas), iteration, script);
    }
  }

  lemma RespondChecked(a: Agent, st: LoopState, turn: CompletedTurn, iteration: nat, script: Script)
    requires iteration + 1 >= a.config.maxIterations
    ensures !Respond(a, st, turn, iteration, script).flow.Next?
  {
    hide Compress;
    hide Recorded;
    hide Decide;
    hide Fail;
    DecideChecked(a, Compress(Recorded(st, turn), script.compression), turn, iteration, script);
  }

  lemma DecideChecked(a: Agent, st: LoopState, turn: CompletedTurn, iteration: nat, script: Script)
    requires iteration + 1 >= a.config.maxIterations
    ensures !Decide(a, st, turn, iteration, script).flow.Next?
  {
    hide Serial;
    hide GroupMessages;
    hide GroupStarts;
    hide GroupFinishes;
    SerialChecked(a, st, turn.toolCalls, 0, iteration, script);
  }

  lemma {:induction false} SerialChecked(a: Agent, st: LoopState, calls: seq<ToolCall>, k: nat, iteration: nat, script: Script)
    requires iteration + 1 >= a.config.maxIterations && k <= |calls|
    ensures Serial(a, st, calls, k, iteration, script).flow == Ended
    decreases |calls| - k
  {
    hide OneCall;
    if k < |calls| {
      var out := OneCall(a, st, calls[k], k, iteration + 1, script);
      if !out.flow.Ended? { SerialChecked(a, out.st, calls, k + 1, iteration, script); }
    }
  }

  /** A run ends with neither `Done` nor `RunPaused` exactly when no iteration was allowed, or the
      last allowed one was reached and took one of the two unguarded continues. */
  lemma OpenEndIff(a: Agent, env: Env, history: seq<Message>)
    ensures var max := a.config.maxIterations;
            var start := StartState(history);
            AllQuiet(RunFrom(a, env, start, 0).events) <==>
            max == 0 ||
            (StateAt(a, env, start, max - 1).Some? &&
             Turn(a, StateAt(a, env, start, max - 1).value, max - 1, env(max - 1)).flow.Skip?)
  {
    hide Turn;
    var max, start := a.config.maxIterations, StartState(history);
    if max > 0 {
      if StateAt(a, env, start, max - 1).None? {
        EndedEarly(a, env, start, max - 1);
      } else {
        StatesOfRun(a, env, start, max - 1);
        LastTurnChecked(a, StateAt(a, env, start, max - 1).value, max - 1, env(max - 1));
        if StateAt(a, env, start, max).None? {
          EndedEarly(a, env, start, max);
        } else {
          StatesOfRun(a, env, start, max);
        }
      }
    }
  }

  predicate AnswersEmptyTurn(a: Agent, st: LoopState, turn: CompletedTurn) {
    IsEmptyTurn(turn) && st.empties + 1 <= a.config.maxEmptyResponses
  }

  predicate SendsReminder(a: Agent, st: LoopState, turn: CompletedTurn, script: Script) {
    && !IsEmptyTurn(turn)
    && turn.finishReason == Stop && !st.reminderSent && script.reminder.Remind?
    && !script.compression.CheckpointLost?
    && !TokenLimitExceeded(a.budget, SaturatingAdd(st.tokens, turn.usage.total))
  }

  /** The two unguarded continues: an empty response within the allowance, or a completion
      reminder, which a run sends at most once. */
  lemma SkipIff(a: Agent, st: LoopState, iteration: nat, script: Script)
    ensures Turn(a, st, iteration, script).flow.Skip? <==>
            && Refusal(a, st, iteration, script).None?
            && Requests(script.attempts, 0).end.Finished?
            && var turn := Assemble(Requests(script.attempts, 0).end.deltas);
               AnswersEmptyTurn(a, st, turn) || SendsReminder(a, st, turn, script)
  {
    hide Requests;
    hide Respond;
    hide Refusal;
    hide Assemble;
    var r := Requests(script.attempts, 0);
    if r.end.Finished? {
      var st1 := AfterRequests(Emit(st, [ModelTurnStarted(iteration + 1)]), r.events, r.end, iteration);
      RespondSkipIff(a, st1, Assemble(r.end.deltas), iteration, script);
    }
  }

  lemma RespondSkipIff(a: Agent, st: LoopState, turn: CompletedTurn, iteration: nat, script: Script)
    ensures Respond(a, st, turn, iteration, script).flow.Skip? <==>
            AnswersEmptyTurn(a, st, turn) || SendsReminder(a, st, turn, script)
  {
    hide Decide;
    hide Fail;
    hide IsEmptyTurn;
    DecideSkipIff(a, Compress(Recorded(st, turn), script.compression), turn, iteration, script);
  }

  lemma DecideSkipIff(a: Agent, st: LoopState, turn: CompletedTurn, iteration: nat, script: Script)
    ensures Decide(a, st, turn, iteration, script).flow.Skip? <==>
            turn.finishReason == Stop && !st.reminderSent && script.reminder.Remind?
  {
    hide Serial;
    hide GroupMessages;
    hide GroupStarts;
    hide GroupFinishes;
    SerialNeverSkips(a, st, turn.toolCalls, 0, iteration, script);
  }

  lemma {:induction false} SerialNeverSkips(a: Agent, st: LoopState, calls: seq<ToolCall>, k: nat, iteration: nat, script: Script)
    requires k <= |calls|
    ensures !Serial(a, st, calls, k, iteration, script).flow.Skip?
    decreases |calls| - k
  {
    hide OneCall;
    if k < |calls| {
      var out := OneCall(a, st, calls[k], k, iteration + 1, script);
      if !out.flow.Ended? { SerialNeverSkips(a, out.st, calls, k + 1, iteration, script); }
    }
  }

  // ---- Runs that show it ----

  const UNLIMITED := Budget(None, None, None)

  function Items(deltas: seq<StreamDelta>): seq<Item> {
    seq(|deltas|, i requires 0 <= i < |deltas| => Delta(deltas[i]))
  }

  /** Each iteration streams the same deltas, and nothing else happens. */
  function Streaming(deltas: seq<StreamDelta>, reminder: Reminder): Env {
    (i: nat) => Script(0, false, (k: nat) => Opened(Items(deltas), false), NotNeeded, reminder, [],
                       (k: nat) => false, false, (k: nat) => false, (k: nat) => Answer(None, NoCoordinator, "", 0))
  }

  lemma {:induction false} ConsumedWhole(deltas: seq<StreamDelta>)
    ensures Consume(Items(deltas)) == Streamed(deltas, Completed)
  {
    if deltas != [] {
      assert Items(deltas)[1..] == Items(deltas[1..]);
      ConsumedWhole(deltas[1..]);
    }
  }

  lemma StreamedWhole(deltas: seq<StreamDelta>, reminder: Reminder)
    ensures Requests(Streaming(deltas, reminder)(0).attempts, 0).end == Finished(deltas)
  {
    ConsumedWhole(deltas);
    hide Consume;
  }

  lemma NothingRefused(a: Agent, st: LoopState, iteration: nat, script: Script)
    requires a.budget == UNLIMITED && !script.cancelledAtStart && iteration < a.config.maxApiCalls
    ensures Refusal(a, st, iteration, script).None?
  {
  }

  lemma NothingAssembled()
    ensures IsEmptyTurn(Assemble([]))
  {
    assert CallsOf([]).Keys == {};
    assert Trim("") == "";
  }

  /** An agent with one iteration and a provider that streams nothing: the run ends without any closing event. */
  lemma OpenEndHappens(policy: Policy)
    ensures var a := Agent(LoopConfig(1, 1, 1), UNLIMITED, policy);
            AllQuiet(RunFrom(a, Streaming([], NoReminder), StartState([]), 0).events)
  {
    var a, env := Agent(LoopConfig(1, 1, 1), UNLIMITED, policy), Streaming([], NoReminder);
    var st := StartState([]);
    NothingAssembled();
    StreamedWhole([], NoReminder);
    hide Assemble, Requests, Turn, RunFrom, Refusal, IsEmptyTurn;
    assert StateAt(a, env, st, 0) == Some(st);
    NothingRefused(a, st, 0, env(0));
    SkipIff(a, st, 0, env(0));
    OpenEndIff(a, env, []);
  }
}
