/** What one iteration of a run does, told from the outside: which error ends it and why, which batches run
    together, and what the counters say. */
module AgentTurns {
  import opened Text
  import opened RunBudget
  import opened TurnState
  import opened ToolDispatch
  import opened AgentLoop
  import opened AgentRuns
  import opened AgentResults

  // ---- Before the request ----

  predicate TokensReached(a: Agent, st: LoopState) {
    a.budget.maxTotalTokens.Some? && st.tokens >= a.budget.maxTotalTokens.value
  }

  predicate TimeIsUp(a: Agent, script: Script) {
    a.budget.maxRuntime.Some? && script.elapsed >= a.budget.maxRuntime.value
  }

  /** The iteration gets as far as requesting a model turn. */
  predicate Asks(a: Agent, st: LoopState, iteration: nat, script: Script) {
    !TokensReached(a, st) && !TimeIsUp(a, script) && !script.cancelledAtStart && iteration < a.config.maxApiCalls
  }

  lemma AsksIff(a: Agent, st: LoopState, iteration: nat, script: Script)
    ensures Refusal(a, st, iteration, script).None? <==> Asks(a, st, iteration, script)
  {
  }

  // ---- Errors ----

  predicate Reports(es: seq<Event>, kind: ErrorKind) {
    |es| >= 2 && es[|es| - 2] == Error(kind)
  }

  lemma Reporting(quiet: seq<Event>, last: Event, kind: ErrorKind, kind2: ErrorKind)
    requires AllQuiet(quiet)
    ensures !Reports(quiet, kind)
    ensures !Reports(quiet + [last], kind)
    ensures Reports(quiet + [Error(kind2), last], kind) <==> kind == kind2
  {
    var es := quiet + [last];
    if |es| >= 2 { assert es[|es| - 2] == quiet[|quiet| - 1]; }
    var two := quiet + [Error(kind2), last];
    assert two[|two| - 2] == Error(kind2);
  }

  lemma CloseReports(st: LoopState, kind: ErrorKind, kind2: ErrorKind, apiCalls: nat)
    requires AllQuiet(st.events)
    ensures !Reports(st.events, kind) && !Reports(Close(st, apiCalls).events, kind)
    ensures Reports(Fail(st, kind2, apiCalls).events, kind) <==> kind == kind2
  {
    Reporting(st.events, Done(apiCalls, st.toolCalls), kind, kind2);
  }

  // ---- The calls of a turn ----

  /** The answer to the call lets the run go on. */
  predicate LetsGoOn(p: Policy, call: ToolCall, answer: Answer) {
    IsAsked(p, call) ==>
      if p.hasDecisions then answer.decision.CreationFailed? || (answer.decision.Created? && !answer.decision.suspend)
      else answer.clarified.Some?
  }

  predicate HasRoom(a: Agent, toolCalls: nat) {
    a.budget.maxToolCalls.None? || toolCalls < a.budget.maxToolCalls.value
  }

  /** The call at `k`, so many calls having been made before it, gets its turn and lets the run go on. */
  predicate Passes(a: Agent, toolCalls: nat, call: ToolCall, k: nat, script: Script) {
    !script.cancelledBefore(k) && HasRoom(a, toolCalls) && LetsGoOn(a.policy, call, script.answers(k))
  }

  lemma OneCallPasses(a: Agent, st: LoopState, call: ToolCall, k: nat, apiCalls: nat, script: Script, kind: ErrorKind)
    requires AllQuiet(st.events)
    ensures var out := OneCall(a, st, call, k, apiCalls, script);
            && (if Passes(a, st.toolCalls, call, k, script) then out.flow.Next? else out.flow.Ended?)
            && (out.flow.Next? ==> out.st.toolCalls == st.toolCalls + 1 && AllQuiet(out.st.events))
            && (out.flow.Ended? ==>
                  (Reports(out.st.events, kind) <==>
                   kind == ToolBudget && !script.cancelledBefore(k) && !HasRoom(a, st.toolCalls)))
  {
    var p, out, answer := a.policy, OneCall(a, st, call, k, apiCalls, script), script.answers(k);
    KindsExclude(p, call);
    hide IsRefused, IsExecuted, IsDelegated, IsAsked, OneCall, Reports;
    var started := st.events + [ToolCallStarted(call.id)];
    assert AllQuiet(started);
    if !GetsItsTurn(a, st, k, script) {
      StoppedCall(a, st, call, k, apiCalls, script);
      var done := Done(apiCalls, st.toolCalls);
      Reporting(st.events, done, kind, ToolBudget);
      assert st.events + [] + [done] == st.events + [done];
      assert st.events + [Error(ToolBudget)] + [done] == st.events + [Error(ToolBudget), done];
    } else if IsRefused(p, call) {
      RefusedCall(a, st, call, k, apiCalls, script);
    } else if IsExecuted(p, call) {
      ExecutedCall(a, st, call, k, apiCalls, script);
    } else if IsDelegated(p, call) {
      DelegatedCall(a, st, call, k, apiCalls, script);
    } else if !p.hasDecisions {
      ClarifiedCall(a, st, call, k, apiCalls, script);
      Reporting(started + [ClarifyRequired], Done(apiCalls, st.toolCalls + 1), kind, kind);
    } else {
      DecidedCall(a, st, call, k, apiCalls, script);
      var shown := if answer.decision.Created? && answer.decision.announced then [ClarifyRequired] else [];
      if !LetsGoOn(p, call, answer) {
        var closing := Closing(answer.decision, call, apiCalls, st.toolCalls + 1);
        Reporting(started + shown + [closing[0]], closing[1], kind, kind);
        assert started + shown + closing == started + shown + [closing[0]] + [closing[1]];
      }
    }
  }

  /** The calls from `k` up to `j` all pass; so many had been made before the first of the turn. */
  predicate AllPass(a: Agent, before: nat, calls: seq<ToolCall>, k: nat, j: nat, script: Script)
    requires j <= |calls|
  {
    forall i :: k <= i < j ==> Passes(a, before + i, calls[i], i, script)
  }

  /** Some call from `k` on finds no room for itself, the ones before it having passed. */
  predicate RunsOut(a: Agent, before: nat, calls: seq<ToolCall>, k: nat, script: Script) {
    exists j :: k <= j < |calls| && AllPass(a, before, calls, k, j, script) &&
      !script.cancelledBefore(j) && !HasRoom(a, before + j)
  }

  lemma AllPassStep(a: Agent, before: nat, calls: seq<ToolCall>, k: nat, script: Script)
    requires k < |calls|
    ensures AllPass(a, before, calls, k, |calls|, script) <==>
            Passes(a, before + k, calls[k], k, script) && AllPass(a, before, calls, k + 1, |calls|, script)
    ensures RunsOut(a, before, calls, k, script) <==>
            (!script.cancelledBefore(k) && !HasRoom(a, before + k)) ||
            (Passes(a, before + k, calls[k], k, script) && RunsOut(a, before, calls, k + 1, script))
  {
    hide HasRoom, Passes;
    if RunsOut(a, before, calls, k, script) {
      var j :| k <= j < |calls| && AllPass(a, before, calls, k, j, script) &&
        !script.cancelledBefore(j) && !HasRoom(a, before + j);
      if j > k { assert AllPass(a, before, calls, k + 1, j, script); }
    }
    if !script.cancelledBefore(k) && !HasRoom(a, before + k) { assert AllPass(a, before, calls, k, k, script); }
    if Passes(a, before + k, calls[k], k, script) && RunsOut(a, before, calls, k + 1, script) {
      var j :| k + 1 <= j < |calls| && AllPass(a, before, calls, k + 1, j, script) &&
        !script.cancelledBefore(j) && !HasRoom(a, before + j);
      assert AllPass(a, before, calls, k, j, script);
    }
  }

  /** Calls one after the other end the run with an error exactly if one of them finds no room for itself, or all
      pass in the last allowed iteration. */
  lemma {:induction false} SerialReports(a: Agent, st: LoopState, before: nat, calls: seq<ToolCall>, k: nat,
                                         iteration: nat, script: Script, kind: ErrorKind)
    requires k <= |calls| && st.toolCalls == before + k && AllQuiet(st.events)
    ensures var out := Serial(a, st, calls, k, iteration, script);
            && (Reports(out.st.events, kind) <==>
                  (kind == ToolBudget && RunsOut(a, before, calls, k, script)) ||
                  (kind == IterationLimit && AllPass(a, before, calls, k, |calls|, script) &&
                   iteration + 1 >= a.config.maxIterations))
            && (out.flow.Next? <==> AllPass(a, before, calls, k, |calls|, script) && iteration + 1 < a.config.maxIterations)
    decreases |calls| - k
  {
    hide OneCall, Passes, Reports, AllPass, RunsOut, HasRoom;
    if k == |calls| {
      NoneLeft(a, before, calls, script);
      CloseReports(st, kind, IterationLimit, iteration + 1);
    } else {
      AllPassStep(a, before, calls, k, script);
      OneCallPasses(a, st, calls[k], k, iteration + 1, script, kind);
      var one := OneCall(a, st, calls[k], k, iteration + 1, script);
      if !one.flow.Ended? {
        PassingHasRoom(a, before + k, calls[k], k, script);
        SerialReports(a, one.st, before, calls, k + 1, iteration, script, kind);
      }
    }
  }

  lemma NoneLeft(a: Agent, before: nat, calls: seq<ToolCall>, script: Script)
    ensures AllPass(a, before, calls, |calls|, |calls|, script) && !RunsOut(a, before, calls, |calls|, script)
  {
  }

  lemma PassingHasRoom(a: Agent, toolCalls: nat, call: ToolCall, k: nat, script: Script)
    requires Passes(a, toolCalls, call, k, script)
    ensures HasRoom(a, toolCalls) && !script.cancelledBefore(k)
  {
  }

  // ---- Groups ----

  /** At least two reads of different resources, for all of which the budget has room; the room of a budget at the
      top of the 32-bit range is not checked. */
  predicate RunsTogether(a: Agent, toolCalls: nat, calls: seq<ToolCall>) {
    && |calls| >= 2 && KeysApart(a.policy, calls)
    && (a.budget.maxToolCalls.Some? && a.budget.maxToolCalls.value < 0xFFFF_FFFF ==>
          toolCalls + |calls| <= a.budget.maxToolCalls.value)
  }

  lemma DispatchIs(a: Agent, st: LoopState, calls: seq<ToolCall>, iteration: nat, script: Script)
    ensures Dispatch(a, st, calls, iteration, script) ==
            if RunsTogether(a, st.toolCalls, calls) then Parallel(a, st, calls, iteration, script)
            else Serial(a, st, calls, 0, iteration, script)
  {
    hide Serial, Parallel, KeysApart, ParallelBatchEligible;
    EligibleIff(a.policy, calls);
  }

  predicate IsInterrupted(script: Script, n: nat) {
    script.cancelledAfterGroup || exists i :: 0 <= i < n && script.interrupted(i)
  }

  /** What a group leaves among the events: all its starts, in the order of the calls, before all its finishes, in
      the order of completion. */
  ghost predicate TellsGroup(a: Agent, calls: seq<ToolCall>, script: Script, es: seq<Event>) {
    var n := |calls|;
    && |es| == 2 * n
    && (forall i :: 0 <= i < n ==> es[i] == ToolCallStarted(calls[i].id))
    && exists order :: IsOrder(order, n) && (IsOrder(script.completion, n) ==> order == script.completion) &&
         forall j :: 0 <= j < n ==> es[n..][j] == Finish(a, calls, script, order[j])
  }

  function Finish(a: Agent, calls: seq<ToolCall>, script: Script, i: nat): Event
    requires i < |calls|
  {
    ToolCallFinished(calls[i].id, if script.interrupted(i) then READ_INTERRUPTED else a.policy.registry.execute(calls[i]))
  }

  lemma CompletionIsOrder(script: Script, n: nat)
    ensures IsOrder(Completion(script, n), n)
    ensures IsOrder(script.completion, n) ==> Completion(script, n) == script.completion
  {
  }

  function Told(a: Agent, calls: seq<ToolCall>, script: Script): seq<Event> {
    CompletionIsOrder(script, |calls|);
    GroupStarts(calls) + GroupFinishes(a, script, calls, Completion(script, |calls|))
  }

  lemma GroupTells(a: Agent, calls: seq<ToolCall>, script: Script)
    ensures TellsGroup(a, calls, script, Told(a, calls, script))
  {
    var n, order := |calls|, Completion(script, |calls|);
    CompletionIsOrder(script, n);
    hide Completion;
    FinishesAre(a, calls, script, order);
    var starts, finishes, told := GroupStarts(calls), GroupFinishes(a, script, calls, order), Told(a, calls, script);
    assert told == starts + finishes;
    hide GroupFinishes, Told;
    assert told[n..] == finishes;
    assert forall i :: 0 <= i < n ==> told[i] == starts[i];
  }

  lemma ParallelEnds(a: Agent, st: LoopState, calls: seq<ToolCall>, iteration: nat, script: Script)
    ensures var out, total := Parallel(a, st, calls, iteration, script), st.toolCalls + |calls|;
            var last := iteration + 1 >= a.config.maxIterations;
            var ending := if IsInterrupted(script, |calls|) then [Done(iteration + 1, total)]
                          else if last then [Error(IterationLimit), Done(iteration + 1, total)] else [];
            && out.st.events == st.events + Told(a, calls, script) + ending && out.st.toolCalls == total
            && out.flow == (if IsInterrupted(script, |calls|) || last then Ended else Next)
  {
    hide GroupStarts, GroupFinishes, Completion, GroupMessages;
    var told := Told(a, calls, script);
    var done := Grouped(a, st, calls, script);
    assert done.events == st.events + told;
    assert st.events + told + [] == st.events + told;
  }

  /** A group counts and tells all its calls. An interruption ends the run; otherwise only the last allowed
      iteration does. */
  lemma GroupTold(a: Agent, st: LoopState, calls: seq<ToolCall>, iteration: nat, script: Script) returns (told: seq<Event>)
    requires RunsTogether(a, st.toolCalls, calls)
    ensures TellsGroup(a, calls, script, told)
    ensures var out, total := Dispatch(a, st, calls, iteration, script), st.toolCalls + |calls|;
            var last := iteration + 1 >= a.config.maxIterations;
            var ending := if IsInterrupted(script, |calls|) then [Done(iteration + 1, total)]
                          else if last then [Error(IterationLimit), Done(iteration + 1, total)] else [];
            && out.st.events == st.events + told + ending && out.st.toolCalls == total
            && out.flow == (if IsInterrupted(script, |calls|) || last then Ended else Next)
  {
    hide Dispatch, Parallel, TellsGroup, Told, RunsTogether, IsInterrupted;
    told := Told(a, calls, script);
    GroupTells(a, calls, script);
    DispatchIs(a, st, calls, iteration, script);
    ParallelEnds(a, st, calls, iteration, script);
  }

  // ---- Why a run fails ----

  predicate Blank(s: string) {
    forall i :: 0 <= i < |s| ==> IsWhitespace(s[i])
  }

  /** Nothing but white space, no calls, and no other reason to end than `Stop`. */
  predicate SaysNothing(turn: CompletedTurn) {
    Blank(turn.content) && Blank(turn.reasoning) && turn.toolCalls == [] && turn.finishReason == Stop
  }

  lemma BlankIff(s: string)
    ensures Trim(s) == "" <==> Blank(s)
  {
    var i, j := TrimIs(s);
    assert Trim(s) == s[i..j];
  }

  lemma SaysNothingIff(turn: CompletedTurn)
    ensures IsEmptyTurn(turn) <==> SaysNothing(turn)
  {
    BlankIff(turn.content);
    BlankIff(turn.reasoning);
    hide Blank;
  }

  function TokensWith(st: LoopState, turn: CompletedTurn): nat {
    var total := st.tokens + turn.usage.total;
    if total <= 0xFFFF_FFFF then total else 0xFFFF_FFFF
  }

  predicate Overspends(a: Agent, st: LoopState, turn: CompletedTurn) {
    a.budget.maxTotalTokens.Some? && TokensWith(st, turn) > a.budget.maxTotalTokens.value
  }

  /** The turn is recorded, and acted on. */
  predicate Proceeds(a: Agent, st: LoopState, turn: CompletedTurn, script: Script) {
    !SaysNothing(turn) && !Overspends(a, st, turn) && !script.compression.CheckpointLost?
  }

  /** Why the calls of a turn end the run with an error. */
  predicate CallsFail(a: Agent, toolCalls: nat, calls: seq<ToolCall>, iteration: nat, script: Script, kind: ErrorKind) {
    if RunsTogether(a, toolCalls, calls) then
      kind == IterationLimit && !IsInterrupted(script, |calls|) && iteration + 1 >= a.config.maxIterations
    else
      (kind == ToolBudget && RunsOut(a, toolCalls, calls, 0, script)) ||
      (kind == IterationLimit && AllPass(a, toolCalls, calls, 0, |calls|, script) && iteration + 1 >= a.config.maxIterations)
  }

  lemma DispatchReports(a: Agent, st: LoopState, calls: seq<ToolCall>, iteration: nat, script: Script, kind: ErrorKind)
    requires AllQuiet(st.events)
    ensures Reports(Dispatch(a, st, calls, iteration, script).st.events, kind) <==>
            CallsFail(a, st.toolCalls, calls, iteration, script, kind)
  {
    hide Dispatch, Serial, Reports, RunsTogether, RunsOut, AllPass, IsInterrupted, KeysApart;
    if RunsTogether(a, st.toolCalls, calls) {
      var told := GroupTold(a, st, calls, iteration, script);
      ToldIsQuiet(a, calls, script, told);
      hide TellsGroup;
      assert AllQuiet(st.events + told);
      Reporting(st.events + told, Done(iteration + 1, st.toolCalls + |calls|), kind, IterationLimit);
      assert st.events + told + [] == st.events + told;
    } else {
      DispatchIs(a, st, calls, iteration, script);
      SerialReports(a, st, st.toolCalls, calls, 0, iteration, script, kind);
    }
  }

  lemma ToldIsQuiet(a: Agent, calls: seq<ToolCall>, script: Script, told: seq<Event>)
    requires TellsGroup(a, calls, script, told)
    ensures AllQuiet(told)
  {
    var n := |calls|;
    forall j | 0 <= j < n ensures told[n..][j].ToolCallFinished? {}
    assert told == told[..n] + told[n..];
    hide Finish;
  }

  lemma DecideReports(a: Agent, st: LoopState, turn: CompletedTurn, iteration: nat, script: Script, kind: ErrorKind)
    requires AllQuiet(st.events)
    ensures Reports(Decide(a, st, turn, iteration, script).st.events, kind) <==>
            || (kind == CompletionGate && turn.finishReason == Stop && !st.reminderSent && script.reminder.GateFailed?)
            || (kind == NoCalls && turn.finishReason == ToolCalls && turn.toolCalls == [])
            || (turn.finishReason == ToolCalls && turn.toolCalls != [] &&
                CallsFail(a, st.toolCalls, turn.toolCalls, iteration, script, kind))
  {
    hide Dispatch, Reports, CallsFail;
    CloseReports(st, kind, CompletionGate, iteration + 1);
    CloseReports(st, kind, NoCalls, iteration + 1);
    DispatchReports(a, st, turn.toolCalls, iteration, script, kind);
  }

  /** The state once a turn is recorded: its message, its end and its tokens are kept, the count of empty turns
      starts afresh, and a compression has replaced the history but not the messages generated. */
  function Noted(st: LoopState, turn: CompletedTurn, compression: Compression): LoopState {
    var message := Assistant(if turn.content == "" then None else Some(turn.content), turn.toolCalls);
    LoopState(
      if compression.Compressed? then compression.history else st.history + [message],
      st.generated + [message],
      st.events + [TurnCompleted(turn.finishReason)] + (if compression.NotNeeded? then [] else [ContextCompressing]),
      st.toolCalls, TokensWith(st, turn), 0, st.reminderSent)
  }

  lemma RecordedIs(a: Agent, st: LoopState, turn: CompletedTurn, script: Script)
    ensures Recorded(st, turn).tokens == TokensWith(st, turn)
    ensures Compress(Recorded(st, turn), script.compression) == Noted(st, turn, script.compression)
  {
    assert st.events + [TurnCompleted(turn.finishReason)] + [] == st.events + [TurnCompleted(turn.finishReason)];
  }

  /** Why a finished turn ends the run with an error. */
  predicate TurnFails(a: Agent, st: LoopState, turn: CompletedTurn, iteration: nat, script: Script, kind: ErrorKind) {
    match kind
    case EmptyResponses => SaysNothing(turn) && st.empties >= a.config.maxEmptyResponses
    case TokensExceeded => !SaysNothing(turn) && Overspends(a, st, turn)
    case CheckpointFailed => !SaysNothing(turn) && !Overspends(a, st, turn) && script.compression.CheckpointLost?
    case CompletionGate =>
      Proceeds(a, st, turn, script) && turn.finishReason == Stop && !st.reminderSent && script.reminder.GateFailed?
    case NoCalls => Proceeds(a, st, turn, script) && turn.finishReason == ToolCalls && turn.toolCalls == []
    case _ =>
      Proceeds(a, st, turn, script) && turn.finishReason == ToolCalls && turn.toolCalls != [] &&
      CallsFail(a, st.toolCalls, turn.toolCalls, iteration, script, kind)
  }

  lemma RespondReports(a: Agent, st: LoopState, turn: CompletedTurn, iteration: nat, script: Script, kind: ErrorKind)
    requires AllQuiet(st.events)
    ensures Reports(Respond(a, st, turn, iteration, script).st.events, kind) <==>
            TurnFails(a, st, turn, iteration, script, kind)
  {
    hide Decide, Reports, IsEmptyTurn, SaysNothing, RunsTogether, RunsOut, AllPass, IsInterrupted;
    hide Fail, Close, Compress, Recorded;
    SaysNothingIff(turn);
    RecordedIs(a, st, turn, script);
    RecordedQuiet(st, turn, script.compression);
    var counted, recorded := st.(empties := st.empties + 1), Recorded(st, turn);
    var compressed := Compress(recorded, script.compression);
    CloseReports(counted, kind, EmptyResponses, iteration + 1);
    CloseReports(recorded, kind, TokensExceeded, iteration + 1);
    CloseReports(compressed, kind, CheckpointFailed, iteration + 1);
    DecideReports(a, compressed, turn, iteration, script, kind);
    hide AllQuiet;
  }

  /** Why an iteration ends the run with an error. */
  ghost predicate Fails(a: Agent, st: LoopState, iteration: nat, script: Script, kind: ErrorKind) {
    var end := Requests(script.attempts, 0).end;
    match kind
    case TokenBudget => TokensReached(a, st)
    case RuntimeBudget => !TokensReached(a, st) && TimeIsUp(a, script)
    case ApiLimit =>
      !TokensReached(a, st) && !TimeIsUp(a, script) && !script.cancelledAtStart && iteration >= a.config.maxApiCalls
    case _ =>
      Asks(a, st, iteration, script) &&
      if end.Finished? then TurnFails(a, st, Assemble(end.deltas), iteration, script, kind) else end == RequestEnd.Failed(kind)
  }

  lemma {:induction false} RequestErrors(attempts: nat -> Attempt, retryIndex: nat)
    requires retryIndex <= |RETRY_DELAYS|
    ensures var end := Requests(attempts, retryIndex).end; end.Failed? ==> end.kind in {ProviderFailed, StreamBroken}
    decreases |RETRY_DELAYS| - retryIndex
  {
    hide TryOnce;
    if TryOnce(attempts(retryIndex), retryIndex).RetryAfter? {
      RetriesEnd(attempts(retryIndex), retryIndex);
      RequestErrors(attempts, retryIndex + 1);
    } else {
      TryErrors(attempts(retryIndex), retryIndex);
    }
  }

  lemma TryErrors(attempt: Attempt, retryIndex: nat)
    requires TryOnce(attempt, retryIndex).Settled?
    ensures var end := TryOnce(attempt, retryIndex).result.end; end.Failed? ==> end.kind in {ProviderFailed, StreamBroken}
  {
    hide Consume, FastRetry, DisplayAll;
  }

  lemma RefusalReports(a: Agent, st: LoopState, iteration: nat, script: Script, kind: ErrorKind)
    requires AllQuiet(st.events) && Refusal(a, st, iteration, script).Some?
    ensures Reports(Refusal(a, st, iteration, script).value.events, kind) <==>
            kind in {TokenBudget, RuntimeBudget, ApiLimit} && Fails(a, st, iteration, script, kind)
  {
    hide Reports, Fail, Close, Requests, Assemble, AllQuiet;
    CloseReports(st, kind, TokenBudget, iteration);
    CloseReports(st, kind, RuntimeBudget, iteration);
    CloseReports(st, kind, ApiLimit, iteration);
  }

  lemma UnfinishedReports(begun: LoopState, r: Requested, iteration: nat, kind: ErrorKind)
    requires AllQuiet(begun.events) && AllQuiet(r.events) && !r.end.Finished?
    ensures Reports(AfterRequests(begun, r.events, r.end, iteration).events, kind) <==> r.end == RequestEnd.Failed(kind)
  {
    hide Reports;
    var shown := Emit(begun, r.events);
    assert AllQuiet(shown.events);
    match r.end
    case CutOff(counted) => CloseReports(shown, kind, kind, if counted then iteration + 1 else iteration);
    case Unavailable =>
      var done := Done(iteration + 1, shown.toolCalls);
      UnavailableReports(shown.events, done, kind);
    case Failed(other) => CloseReports(shown, kind, other, iteration + 1);
    case Finished(_) =>
  }

  lemma UnavailableReports(quiet: seq<Event>, last: Event, kind: ErrorKind)
    ensures !Reports(quiet + [ProviderUnavailable, last], kind)
  {
    var es := quiet + [ProviderUnavailable, last];
    assert es[|es| - 2] == ProviderUnavailable;
  }

  /** An iteration ends the run with an error of some kind exactly if it fails for that reason. */
  lemma TurnReports(a: Agent, st: LoopState, iteration: nat, script: Script, kind: ErrorKind)
    requires AllQuiet(st.events)
    ensures Reports(Turn(a, st, iteration, script).st.events, kind) <==> Fails(a, st, iteration, script, kind)
  {
    hide Reports, AllQuiet, Respond, Requests, Assemble, TurnFails, Refusal, AfterRequests, TokensReached, TimeIsUp;
    AsksIff(a, st, iteration, script);
    if Refusal(a, st, iteration, script).Some? {
      RefusalReports(a, st, iteration, script, kind);
    } else {
      var r := Requests(script.attempts, 0);
      var begun := Emit(st, [ModelTurnStarted(iteration + 1)]);
      RequestsAreQuiet(script.attempts, 0);
      BegunIsQuiet(st, iteration, r.events);
      RequestErrors(script.attempts, 0);
      if r.end.Finished? {
        var shown := AfterRequests(begun, r.events, r.end, iteration);
        ShownIs(begun, r, iteration);
        RespondReports(a, shown, Assemble(r.end.deltas), iteration, script, kind);
        SameFailure(a, st, shown, Assemble(r.end.deltas), iteration, script, kind);
        LateFailure(a, st, Assemble(r.end.deltas), iteration, script, kind);
      } else {
        UnfinishedReports(begun, r, iteration, kind);
      }
    }
  }

  lemma BegunIsQuiet(st: LoopState, iteration: nat, es: seq<Event>)
    requires AllQuiet(st.events) && AllQuiet(es)
    ensures AllQuiet(Emit(st, [ModelTurnStarted(iteration + 1)]).events)
    ensures AllQuiet(Emit(Emit(st, [ModelTurnStarted(iteration + 1)]), es).events)
  {
  }

  lemma ShownIs(begun: LoopState, r: Requested, iteration: nat)
    requires r.end.Finished?
    ensures AfterRequests(begun, r.events, r.end, iteration) == Emit(begun, r.events)
  {
  }

  lemma LateFailure(a: Agent, st: LoopState, turn: CompletedTurn, iteration: nat, script: Script, kind: ErrorKind)
    ensures TurnFails(a, st, turn, iteration, script, kind) ==> kind !in {TokenBudget, RuntimeBudget, ApiLimit}
  {
    hide SaysNothing, RunsTogether, RunsOut, AllPass, IsInterrupted;
  }

  lemma SameFailure(a: Agent, st: LoopState, shown: LoopState, turn: CompletedTurn, iteration: nat, script: Script,
                    kind: ErrorKind)
    requires shown == st.(events := shown.events)
    ensures TurnFails(a, shown, turn, iteration, script, kind) <==> TurnFails(a, st, turn, iteration, script, kind)
  {
    hide CallsFail, SaysNothing;
  }

  /** The run gets to iteration `k`, and fails there. */
  ghost predicate FailsAt(a: Agent, env: Env, start: LoopState, k: nat, kind: ErrorKind) {
    StateAt(a, env, start, k).Some? && Fails(a, StateAt(a, env, start, k).value, k, env(k), kind)
  }

  lemma {:induction false} RunReports(a: Agent, env: Env, start: LoopState, k: nat, kind: ErrorKind)
    requires StateAt(a, env, start, k).Some? && AllQuiet(start.events) && k <= a.config.maxIterations
    ensures Reports(RunFrom(a, env, StateAt(a, env, start, k).value, k).events, kind) ==>
              exists j: nat :: j < a.config.maxIterations && FailsAt(a, env, start, j, kind)
    decreases a.config.maxIterations - k
  {
    hide Turn, Fails, Reports;
    StatesOfRun(a, env, start, k);
    var st := StateAt(a, env, start, k).value;
    if k == a.config.maxIterations {
      CloseReports(st, kind, kind, 0);
    } else {
      TurnReports(a, st, k, env(k), kind);
      var out := Turn(a, st, k, env(k));
      if out.flow.Ended? {
        if Fails(a, st, k, env(k), kind) { assert FailsAt(a, env, start, k, kind); }
      } else {
        assert StateAt(a, env, start, k + 1) == Some(out.st);
        RunReports(a, env, start, k + 1, kind);
      }
    }
  }

  /** A run ends with an error of some kind exactly if it gets to an iteration that fails for that reason; so each
      error has its own cause, and no cause goes unreported. */
  lemma RunFailsIff(a: Agent, env: Env, history: seq<Message>, kind: ErrorKind)
    ensures Reports(RunFrom(a, env, StartState(history), 0).events, kind) <==>
            exists k: nat :: k < a.config.maxIterations && FailsAt(a, env, StartState(history), k, kind)
  {
    hide Turn, Fails, Reports;
    var start := StartState(history);
    assert StateAt(a, env, start, 0) == Some(start);
    RunReports(a, env, start, 0, kind);
    forall k: nat | k < a.config.maxIterations && FailsAt(a, env, start, k, kind)
      ensures Reports(RunFrom(a, env, start, 0).events, kind)
    {
      FailureEnds(a, env, start, k, kind);
    }
  }

  lemma FailureEnds(a: Agent, env: Env, start: LoopState, k: nat, kind: ErrorKind)
    requires AllQuiet(start.events) && k < a.config.maxIterations && FailsAt(a, env, start, k, kind)
    ensures Reports(RunFrom(a, env, start, 0).events, kind)
  {
    hide Turn, Fails, Reports, StateAt;
    StatesOfRun(a, env, start, k);
    var st := StateAt(a, env, start, k).value;
    TurnReports(a, st, k, env(k), kind);
    TurnProper(a, st, k, env(k));
    var out := Turn(a, st, k, env(k));
    if !out.flow.Ended? { CloseReports(out.st, kind, kind, 0); }
  }

  // ---- How an iteration ends, or goes on ----

  /** A turn whose request is not answered ends the run: uncounted if it was cancelled before the answer began. */
  lemma UnansweredEnd(a: Agent, st: LoopState, iteration: nat, script: Script)
    requires Asks(a, st, iteration, script) && !Requests(script.attempts, 0).end.Finished?
    ensures var r := Requests(script.attempts, 0);
            var done := Done(if r.end == CutOff(false) then iteration else iteration + 1, st.toolCalls);
            var closing := match r.end
                           case Unavailable => [ProviderUnavailable, done]
                           case Failed(kind) => [Error(kind), done]
                           case _ => [done];
            Turn(a, st, iteration, script) ==
            TurnOut(st.(events := st.events + [ModelTurnStarted(iteration + 1)] + r.events + closing), Ended)
  {
    hide Requests, Respond, Assemble;
    AsksIff(a, st, iteration, script);
  }

  /** A recorded turn that asks for no tools ends the run, unless the model has stopped for the first time and is
      sent a reminder. */
  lemma FinalTurn(a: Agent, st: LoopState, turn: CompletedTurn, iteration: nat, script: Script)
    requires Proceeds(a, st, turn, script) && turn.finishReason != ToolCalls
    ensures var now := Noted(st, turn, script.compression);
            var checks, done := turn.finishReason == Stop && !st.reminderSent, Done(iteration + 1, st.toolCalls);
            Respond(a, st, turn, iteration, script) ==
            if checks && script.reminder.Remind? then
              TurnOut(now.(reminderSent := true, history := now.history + [User(script.reminder.text)]), Skip)
            else if checks && script.reminder.GateFailed? then
              TurnOut(now.(events := now.events + [Error(CompletionGate), done]), Ended)
            else TurnOut(now.(events := now.events + [done]), Ended)
  {
    hide IsEmptyTurn, SaysNothing, Compress, Recorded;
    SaysNothingIff(turn);
    RecordedIs(a, st, turn, script);
  }

  /** All the calls of a turn are made, and the run can go on with their results. */
  predicate CallsDone(a: Agent, toolCalls: nat, calls: seq<ToolCall>, iteration: nat, script: Script) {
    && iteration + 1 < a.config.maxIterations
    && if RunsTogether(a, toolCalls, calls) then !IsInterrupted(script, |calls|)
       else AllPass(a, toolCalls, calls, 0, |calls|, script)
  }

  lemma DispatchGoesOn(a: Agent, st: LoopState, calls: seq<ToolCall>, iteration: nat, script: Script)
    requires AllQuiet(st.events)
    ensures var flow := Dispatch(a, st, calls, iteration, script).flow;
            flow == if CallsDone(a, st.toolCalls, calls, iteration, script) then Next else Ended
  {
    hide Dispatch, Serial, Reports, RunsTogether, RunsOut, AllPass, IsInterrupted, KeysApart;
    if RunsTogether(a, st.toolCalls, calls) {
      var told := GroupTold(a, st, calls, iteration, script);
    } else {
      DispatchIs(a, st, calls, iteration, script);
      SerialReports(a, st, st.toolCalls, calls, 0, iteration, script, NoCalls);
      SerialNeverSkips(a, st, calls, 0, iteration, script);
    }
  }

  /** What lets a run go on after a finished turn: silence that is still tolerated, a reminder, or calls that are
      all made. */
  predicate LeadsOn(a: Agent, st: LoopState, turn: CompletedTurn, iteration: nat, script: Script) {
    || (SaysNothing(turn) && st.empties < a.config.maxEmptyResponses)
    || (Proceeds(a, st, turn, script) && turn.finishReason == Stop && !st.reminderSent && script.reminder.Remind?)
    || (Proceeds(a, st, turn, script) && turn.finishReason == ToolCalls && turn.toolCalls != [] &&
        CallsDone(a, st.toolCalls, turn.toolCalls, iteration, script))
  }

  lemma RespondGoesOn(a: Agent, st: LoopState, turn: CompletedTurn, iteration: nat, script: Script)
    requires AllQuiet(st.events)
    ensures Respond(a, st, turn, iteration, script).flow.Ended? <==> !LeadsOn(a, st, turn, iteration, script)
  {
    hide Dispatch, IsEmptyTurn, SaysNothing, Compress, Recorded, CallsDone;
    SaysNothingIff(turn);
    RecordedIs(a, st, turn, script);
    RecordedQuiet(st, turn, script.compression);
    DispatchGoesOn(a, Noted(st, turn, script.compression), turn.toolCalls, iteration, script);
  }

  /** A run goes on after an iteration exactly if it asked the model, the model answered, and the answer leads on. */
  lemma GoesOnIff(a: Agent, st: LoopState, iteration: nat, script: Script)
    requires AllQuiet(st.events)
    ensures Turn(a, st, iteration, script).flow.Ended? <==>
            !(Asks(a, st, iteration, script) && Requests(script.attempts, 0).end.Finished? &&
              LeadsOn(a, st, Assemble(Requests(script.attempts, 0).end.deltas), iteration, script))
  {
    hide AllQuiet, Respond, Requests, Assemble, LeadsOn, Refusal, TokensReached, TimeIsUp;
    AsksIff(a, st, iteration, script);
    var r := Requests(script.attempts, 0);
    if r.end.Finished? {
      var begun := Emit(st, [ModelTurnStarted(iteration + 1)]);
      RequestsAreQuiet(script.attempts, 0);
      BegunIsQuiet(st, iteration, r.events);
      ShownIs(begun, r, iteration);
      RespondGoesOn(a, Emit(begun, r.events), Assemble(r.end.deltas), iteration, script);
      SameLead(a, st, Emit(begun, r.events), Assemble(r.end.deltas), iteration, script);
    }
  }

  lemma SameLead(a: Agent, st: LoopState, shown: LoopState, turn: CompletedTurn, iteration: nat, script: Script)
    requires shown == st.(events := shown.events)
    ensures LeadsOn(a, shown, turn, iteration, script) <==> LeadsOn(a, st, turn, iteration, script)
  {
    hide CallsDone, SaysNothing;
  }

  // ---- The counters ----

  function Capped(n: nat): nat {
    if n <= 0xFFFF_FFFF then n else 0xFFFF_FFFF
  }

  /** The tokens of the delegations among the calls from `k` on. */
  function Delegated(p: Policy, calls: seq<ToolCall>, k: nat, script: Script): nat
    requires k <= |calls|
    decreases |calls| - k
  {
    if k == |calls| then 0
    else (if IsDelegated(p, calls[k]) then script.answers(k).delegatedTokens else 0) + Delegated(p, calls, k + 1, script)
  }

  /** Apart from messages and events, the state keeps these. */
  predicate Keeps(st: LoopState, out: LoopState, tokens: nat) {
    out.empties == st.empties && out.reminderSent == st.reminderSent && out.tokens == tokens
  }

  lemma OneCallKeeps(a: Agent, st: LoopState, call: ToolCall, k: nat, apiCalls: nat, script: Script)
    requires !OneCall(a, st, call, k, apiCalls, script).flow.Ended? && st.tokens <= 0xFFFF_FFFF
    ensures Keeps(st, OneCall(a, st, call, k, apiCalls, script).st,
                  Capped(st.tokens + if IsDelegated(a.policy, call) then script.answers(k).delegatedTokens else 0))
  {
    KindsExclude(a.policy, call);
    hide IsRefused, IsExecuted, IsDelegated, IsAsked, OneCall;
    if !GetsItsTurn(a, st, k, script) { StoppedCall(a, st, call, k, apiCalls, script); }
    else if IsRefused(a.policy, call) { RefusedCall(a, st, call, k, apiCalls, script); }
    else if IsExecuted(a.policy, call) { ExecutedCall(a, st, call, k, apiCalls, script); }
    else if IsDelegated(a.policy, call) { DelegatedCall(a, st, call, k, apiCalls, script); }
    else if !a.policy.hasDecisions { ClarifiedCall(a, st, call, k, apiCalls, script); }
    else { DecidedCall(a, st, call, k, apiCalls, script); }
  }

  lemma {:induction false} SerialKeeps(a: Agent, st: LoopState, calls: seq<ToolCall>, k: nat, iteration: nat, script: Script)
    requires k <= |calls| && !Serial(a, st, calls, k, iteration, script).flow.Ended? && st.tokens <= 0xFFFF_FFFF
    ensures Keeps(st, Serial(a, st, calls, k, iteration, script).st, Capped(st.tokens + Delegated(a.policy, calls, k, script)))
    decreases |calls| - k
  {
    hide OneCall, IsDelegated;
    if k < |calls| {
      OneCallKeeps(a, st, calls[k], k, iteration + 1, script);
      SerialKeeps(a, OneCall(a, st, calls[k], k, iteration + 1, script).st, calls, k + 1, iteration, script);
    }
  }

  lemma {:induction false} ReadsDelegateNothing(p: Policy, calls: seq<ToolCall>, k: nat, script: Script)
    requires KeysApart(p, calls) && k <= |calls|
    ensures Delegated(p, calls, k, script) == 0
    decreases |calls| - k
  {
    if k < |calls| {
      assert IsParallelRead(p, calls[k]);
      ReadsDelegateNothing(p, calls, k + 1, script);
    }
  }

  lemma DispatchKeeps(a: Agent, st: LoopState, calls: seq<ToolCall>, iteration: nat, script: Script)
    requires !Dispatch(a, st, calls, iteration, script).flow.Ended? && st.tokens <= 0xFFFF_FFFF
    ensures Keeps(st, Dispatch(a, st, calls, iteration, script).st, Capped(st.tokens + Delegated(a.policy, calls, 0, script)))
  {
    hide Serial, KeysApart, GroupMessages, GroupStarts, GroupFinishes, ParallelBatchEligible;
    DispatchIs(a, st, calls, iteration, script);
    if RunsTogether(a, st.toolCalls, calls) {
      ReadsDelegateNothing(a.policy, calls, 0, script);
    } else {
      SerialKeeps(a, st, calls, 0, iteration, script);
    }
  }

  /** The tokens a turn costs: its own, and those of its delegations. */
  function CostOf(p: Policy, turn: CompletedTurn, script: Script): nat {
    if SaysNothing(turn) then 0
    else turn.usage.total + if turn.finishReason == ToolCalls then Delegated(p, turn.toolCalls, 0, script) else 0
  }

  lemma RespondKeeps(a: Agent, st: LoopState, turn: CompletedTurn, iteration: nat, script: Script)
    requires !Respond(a, st, turn, iteration, script).flow.Ended? && st.tokens <= 0xFFFF_FFFF
    ensures var out := Respond(a, st, turn, iteration, script).st;
            && out.tokens == Capped(st.tokens + CostOf(a.policy, turn, script))
            && out.empties == (if SaysNothing(turn) then st.empties + 1 else 0)
            && (out.reminderSent <==> st.reminderSent || (!SaysNothing(turn) && turn.finishReason == Stop))
  {
    hide Dispatch, IsEmptyTurn, SaysNothing, Fail, Close, Compress, Recorded, Delegated;
    SaysNothingIff(turn);
    RecordedIs(a, st, turn, script);
    if !IsEmptyTurn(turn) && turn.finishReason == ToolCalls && turn.toolCalls != [] {
      DispatchKeeps(a, Compress(Recorded(st, turn), script.compression), turn.toolCalls, iteration, script);
    }
  }

  ghost function TurnIn(env: Env, j: nat): Option<CompletedTurn> {
    var end := Requests(env(j).attempts, 0).end;
    if end.Finished? then Some(Assemble(end.deltas)) else None
  }

  /** How many turns right before iteration `k` said nothing. */
  ghost function SilentBefore(env: Env, k: nat): nat {
    if k > 0 && TurnIn(env, k - 1).Some? && SaysNothing(TurnIn(env, k - 1).value) then 1 + SilentBefore(env, k - 1) else 0
  }

  ghost function CostBefore(p: Policy, env: Env, k: nat): nat {
    if k == 0 then 0
    else CostBefore(p, env, k - 1) + if TurnIn(env, k - 1).Some? then CostOf(p, TurnIn(env, k - 1).value, env(k - 1)) else 0
  }

  /** The model stopped in iteration `j`, having said something. */
  ghost predicate StoppedIn(env: Env, j: nat) {
    TurnIn(env, j).Some? && TurnIn(env, j).value.finishReason == Stop && !SaysNothing(TurnIn(env, j).value)
  }

  lemma TurnKeeps(a: Agent, st: LoopState, env: Env, k: nat)
    requires !Turn(a, st, k, env(k)).flow.Ended? && st.tokens <= 0xFFFF_FFFF
    ensures TurnIn(env, k).Some?
    ensures var out, turn := Turn(a, st, k, env(k)).st, TurnIn(env, k).value;
            && out.tokens == Capped(st.tokens + CostOf(a.policy, turn, env(k)))
            && out.empties == (if SaysNothing(turn) then st.empties + 1 else 0)
            && (out.reminderSent <==> st.reminderSent || StoppedIn(env, k))
  {
    hide Respond, Requests, Assemble, CostOf, SaysNothing, Refusal;
    var r := Requests(env(k).attempts, 0);
    var begun := Emit(st, [ModelTurnStarted(k + 1)]);
    if r.end.Finished? { RespondKeeps(a, AfterRequests(begun, r.events, r.end, k), Assemble(r.end.deltas), k, env(k)); }
  }

  /** At every iteration a run gets to, the tokens are those of all turns and delegations before, up to the top of
      the 32-bit range; the count of empty turns is that of the silent turns right before; and a reminder has been
      sent exactly if the model has stopped before. */
  lemma {:induction false} CountersAre(a: Agent, env: Env, history: seq<Message>, k: nat)
    requires StateAt(a, env, StartState(history), k).Some?
    ensures var st := StateAt(a, env, StartState(history), k).value;
            && st.tokens == Capped(CostBefore(a.policy, env, k))
            && st.empties == SilentBefore(env, k)
            && (st.reminderSent <==> exists j: nat :: j < k && StoppedIn(env, j))
  {
    hide Turn, SaysNothing, CostOf, TurnIn, StoppedIn;
    if k > 0 {
      CountersAre(a, env, history, k - 1);
      TurnKeeps(a, StateAt(a, env, StartState(history), k - 1).value, env, k - 1);
    }
  }
}
