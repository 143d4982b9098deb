/** The conversation the agent loop builds: tool results stand where providers expect them, the
    generated messages are exactly those the run appended, and a parallel group of reads leaves
    the conversation that the serial loop would. */
module AgentHistory {
  import opened Text
  import Decimal
  import opened RunBudget
  import opened TurnState
  import opened ToolDispatch
  import opened AgentLoop
  import opened AgentRuns

  // ---- Well-formed histories ----

  /** One result for each call, in call order. */
  predicate Answers(calls: seq<ToolCall>, results: seq<Message>) {
    |results| == |calls| &&
    forall i :: 0 <= i < |calls| ==> results[i].ToolResult? && results[i].callId == calls[i].id
  }

  /** Each assistant message is followed directly by exactly one result per call in call order, and
      results stand nowhere else. */
  predicate WellFormed(h: seq<Message>)
    decreases |h|
  {
    if h == [] then true
    else
      match h[0]
      case Assistant(_, calls) =>
        |calls| < |h| && Answers(calls, h[1..|calls| + 1]) && WellFormed(h[|calls| + 1..])
      case ToolResult(_, _) => false
      case _ => WellFormed(h[1..])
  }

  lemma {:induction false} WellFormedConcat(a: seq<Message>, b: seq<Message>)
    requires WellFormed(a)
    ensures WellFormed(a + b) <==> WellFormed(b)
    decreases |a|
  {
    if a == [] {
      assert a + b == b;
    } else if a[0].Assistant? {
      var n := |a[0].calls| + 1;
      assert (a + b)[1..n] == a[1..n];
      assert (a + b)[n..] == a[n..] + b;
      WellFormedConcat(a[n..], b);
    } else {
      assert (a + b)[1..] == a[1..] + b;
      WellFormedConcat(a[1..], b);
    }
  }

  lemma AnsweredTurn(m: Message, results: seq<Message>)
    requires m.Assistant? && Answers(m.calls, results)
    ensures WellFormed([m] + results)
  {
    var h := [m] + results;
    assert h[1..|m.calls| + 1] == results && h[|m.calls| + 1..] == [];
  }

  /** At `p` stands an assistant message whose calls are followed by a user message instead. */
  predicate TornAt(h: seq<Message>, p: int) {
    0 <= p && p + 1 < |h| && WellFormed(h[..p]) && h[p].Assistant? && h[p].calls != [] && h[p + 1].User?
  }

  predicate Torn(h: seq<Message>) {
    exists p :: 0 <= p < |h| && TornAt(h, p)
  }

  lemma TornStays(h: seq<Message>, more: seq<Message>)
    requires Torn(h)
    ensures Torn(h + more) && !WellFormed(h)
  {
    var p :| 0 <= p < |h| && TornAt(h, p);
    assert (h + more)[..p] == h[..p];
    assert TornAt(h + more, p);
    assert h == h[..p] + h[p..];
    WellFormedConcat(h[..p], h[p..]);
    var tail, n := h[p..], |h[p].calls|;
    if n < |tail| { assert tail[1..n + 1][0] == h[p + 1]; }
  }

  // ---- What one iteration appends ----

  /** The state has gained the same messages in the history and among the generated ones. */
  predicate Gained(st: LoopState, out: LoopState, ms: seq<Message>) {
    out.history == st.history + ms && out.generated == st.generated + ms
  }

  predicate AllResults(ms: seq<Message>) {
    forall i :: 0 <= i < |ms| ==> ms[i].ToolResult?
  }

  function Fresh(st: LoopState, out: LoopState): seq<Message> {
    if |st.history| <= |out.history| then out.history[|st.history|..] else []
  }

  lemma FreshIs(st: LoopState, out: LoopState, ms: seq<Message>)
    requires out.history == st.history + ms
    ensures Fresh(st, out) == ms
  {
  }

  /** Finishing a call appends its one result. */
  lemma FinishGains(begun: LoopState, mid: LoopState, call: ToolCall, result: string)
    requires mid.history == begun.history && mid.generated == begun.generated
    ensures var out := FinishCall(mid, call, result);
            out.flow.Next? && Gained(begun, out.st, Fresh(begun, out.st)) && AllResults(Fresh(begun, out.st)) &&
            Answers([call], Fresh(begun, out.st))
  {
    var out := FinishCall(mid, call, result);
    assert out.st.history == begun.history + [ToolResult(call.id, result)];
    FreshIs(begun, out.st, [ToolResult(call.id, result)]);
  }

  lemma UnchangedGains(begun: LoopState, out: LoopState)
    requires out.history == begun.history && out.generated == begun.generated
    ensures Gained(begun, out, Fresh(begun, out)) && AllResults(Fresh(begun, out))
  {
    assert begun.generated + [] == begun.generated;
  }

  lemma HandleGains(a: Agent, begun: LoopState, call: ToolCall, answer: Answer, apiCalls: nat)
    ensures var out := Handle(a, begun, call, answer, apiCalls);
            var ms := Fresh(begun, out.st);
            Gained(begun, out.st, ms) && AllResults(ms) && (!out.flow.Ended? ==> Answers([call], ms))
  {
    hide Evaluate;
    hide FinishCall;
    hide Gained;
    hide Fresh;
    hide Answers;
    hide AllResults;
    var asked := Emit(begun, [ClarifyRequired]);
    match Evaluate(a.policy, call)
    case Execute => FinishGains(begun, begun, call, a.policy.registry.execute(call));
    case Blocked => FinishGains(begun, begun, call, a.policy.registry.refusal(call));
    case Delegate =>
      FinishGains(begun, begun.(tokens := SaturatingAdd(begun.tokens, answer.delegatedTokens)), call, answer.delegated);
    case Clarify =>
      if answer.clarified.Some? { FinishGains(begun, asked, call, answer.clarified.value); }
      else { UnchangedGains(begun, Handle(a, begun, call, answer, apiCalls).st); }
    case DurableClarify =>
      match answer.decision
      case NoCoordinator => UnchangedGains(begun, Handle(a, begun, call, answer, apiCalls).st);
      case CreationFailed(result) => FinishGains(begun, begun, call, result);
      case Created(result, announced, suspend) =>
        if suspend { UnchangedGains(begun, Handle(a, begun, call, answer, apiCalls).st); }
        else { FinishGains(begun, if announced then asked else begun, call, result); }
  }

  /** Results of calls, in order if they are complete. */
  predicate GainsResults(st: LoopState, out: LoopState, calls: seq<ToolCall>, complete: bool) {
    var ms := Fresh(st, out);
    Gained(st, out, ms) && AllResults(ms) && (complete ==> Answers(calls, ms))
  }

  lemma NothingGained(st: LoopState, out: LoopState, calls: seq<ToolCall>, complete: bool)
    requires out.history == st.history && out.generated == st.generated && (complete ==> calls == [])
    ensures GainsResults(st, out, calls, complete)
  {
    var none: seq<Message> := [];
    assert st.history + none == st.history && st.generated + none == st.generated;
  }

  lemma OneCallGains(a: Agent, st: LoopState, call: ToolCall, k: nat, apiCalls: nat, script: Script)
    ensures var out := OneCall(a, st, call, k, apiCalls, script);
            GainsResults(st, out.st, [call], !out.flow.Ended?)
  {
    hide Handle, GainsResults;
    var out, begun := OneCall(a, st, call, k, apiCalls, script), Begin(st, call);
    if script.cancelledBefore(k) || ToolLimitReached(a.budget, st.toolCalls) {
      NothingGained(st, out.st, [call], false);
    } else {
      HandleGains(a, begun, call, script.answers(k), apiCalls);
      SameStart(begun, st, out.st, [call], !out.flow.Ended?);
    }
  }

  lemma SameStart(begun: LoopState, st: LoopState, out: LoopState, calls: seq<ToolCall>, complete: bool)
    requires begun.history == st.history && begun.generated == st.generated
    requires var ms := Fresh(begun, out); Gained(begun, out, ms) && AllResults(ms) && (complete ==> Answers(calls, ms))
    ensures GainsResults(st, out, calls, complete)
  {
  }

  lemma {:induction false} SerialGains(a: Agent, st: LoopState, calls: seq<ToolCall>, k: nat, iteration: nat, script: Script)
    requires k <= |calls|
    ensures var out := Serial(a, st, calls, k, iteration, script);
            GainsResults(st, out.st, calls[k..], !out.flow.Ended?)
    decreases |calls| - k
  {
    hide OneCall, GainsResults;
    if k == |calls| {
      NothingGained(st, Serial(a, st, calls, k, iteration, script).st, calls[k..], true);
      WeakerGain(st, Serial(a, st, calls, k, iteration, script).st, calls[k..]);
    } else {
      var one := OneCall(a, st, calls[k], k, iteration + 1, script);
      OneCallGains(a, st, calls[k], k, iteration + 1, script);
      assert calls[k..] == [calls[k]] + calls[k + 1..];
      if one.flow.Ended? {
        OtherCalls(st, one.st, [calls[k]], calls[k..]);
      } else {
        SerialGains(a, one.st, calls, k + 1, iteration, script);
        var out := Serial(a, one.st, calls, k + 1, iteration, script);
        JoinGains(st, one.st, out.st, calls[k], calls[k + 1..], !out.flow.Ended?);
      }
    }
  }

  lemma WeakerGain(st: LoopState, out: LoopState, calls: seq<ToolCall>)
    requires GainsResults(st, out, calls, true)
    ensures GainsResults(st, out, calls, false)
  {
  }

  lemma OtherCalls(st: LoopState, out: LoopState, calls: seq<ToolCall>, others: seq<ToolCall>)
    requires GainsResults(st, out, calls, false)
    ensures GainsResults(st, out, others, false)
  {
  }

  lemma JoinGains(st: LoopState, mid: LoopState, out: LoopState, call: ToolCall, rest: seq<ToolCall>, complete: bool)
    requires GainsResults(st, mid, [call], true) && GainsResults(mid, out, rest, complete)
    ensures GainsResults(st, out, [call] + rest, complete)
  {
    var ms := Fresh(st, mid) + Fresh(mid, out);
    assert out.history == st.history + ms && out.generated == st.generated + ms;
    FreshIs(st, out, ms);
  }

  lemma ParallelGains(a: Agent, st: LoopState, calls: seq<ToolCall>, iteration: nat, script: Script)
    ensures GainsResults(st, Parallel(a, st, calls, iteration, script).st, calls, true)
    ensures !Parallel(a, st, calls, iteration, script).flow.Skip?
  {
    var out := Parallel(a, st, calls, iteration, script);
    assert out.st.history == st.history + GroupMessages(a, script, calls);
    FreshIs(st, out.st, GroupMessages(a, script, calls));
  }

  /** What a turn does to the conversation, when nothing is compressed. */
  datatype Contribution =
    | Silent
    | Turned(assistant: Message, results: seq<Message>)
    | Reminded(assistant: Message, reminder: Message)

  function Messages(c: Contribution): seq<Message> {
    match c
    case Silent => []
    case Turned(m, results) => [m] + results
    case Reminded(m, reminder) => [m, reminder]
  }

  function Own(c: Contribution): seq<Message> {
    match c
    case Silent => []
    case Turned(m, results) => [m] + results
    case Reminded(m, _) => [m]
  }

  /** A turn that goes on is answered in full, silent, or reminded. */
  predicate Contributes(st: LoopState, out: TurnOut, c: Contribution) {
    && out.st.history == st.history + Messages(c)
    && out.st.generated == st.generated + Own(c)
    && (c.Turned? ==> c.assistant.Assistant? && AllResults(c.results))
    && (c.Reminded? ==> c.assistant.Assistant? && c.reminder.User? && out.flow.Skip?)
    && (out.flow.Next? ==> c.Turned? && Answers(c.assistant.calls, c.results))
    && (out.flow.Skip? ==> c.Silent? || c.Reminded?)
  }

  function DecideContribution(a: Agent, st: LoopState, turn: CompletedTurn, iteration: nat, script: Script): Contribution {
    var m := AssistantMessage(turn);
    var out := Decide(a, st, turn, iteration, script);
    if out.flow.Skip? then Reminded(m, User(if script.reminder.Remind? then script.reminder.text else ""))
    else Turned(m, Fresh(st, out.st))
  }

  lemma DecideGains(a: Agent, st: LoopState, turn: CompletedTurn, iteration: nat, script: Script)
    ensures var out := Decide(a, st, turn, iteration, script);
            if out.flow.Skip? then
              script.reminder.Remind? && out.st.history == st.history + [User(script.reminder.text)] && out.st.generated == st.generated
            else GainsResults(st, out.st, turn.toolCalls, out.flow.Next?)
  {
    hide Parallel, Serial, GainsResults;
    var calls := turn.toolCalls;
    if turn.finishReason == ToolCalls && calls != [] {
      SerialGains(a, st, calls, 0, iteration, script);
      SerialNeverSkips(a, st, calls, 0, iteration, script);
      assert calls[0..] == calls;
      ParallelGains(a, st, calls, iteration, script);
      var out := Decide(a, st, turn, iteration, script);
      if out.flow.Ended? && ToolBatchFits(a.budget, st.toolCalls, |calls|) && ParallelBatchEligible(a.policy, calls) {
        WeakerGain(st, out.st, calls);
      }
    } else {
      var out := Decide(a, st, turn, iteration, script);
      if !out.flow.Skip? { NothingGained(st, out.st, calls, false); }
    }
  }

  function RespondContribution(a: Agent, st: LoopState, turn: CompletedTurn, iteration: nat, script: Script): Contribution {
    if IsEmptyTurn(turn) then Silent
    else
      var st1 := Recorded(st, turn);
      if TokenLimitExceeded(a.budget, st1.tokens) || script.compression.CheckpointLost? then Turned(AssistantMessage(turn), [])
      else DecideContribution(a, st1, turn, iteration, script)
  }

  lemma RespondContributes(a: Agent, st: LoopState, turn: CompletedTurn, iteration: nat, script: Script)
    requires !script.compression.Compressed?
    ensures Contributes(st, Respond(a, st, turn, iteration, script), RespondContribution(a, st, turn, iteration, script))
  {
    var st1 := Recorded(st, turn);
    assert script.compression.NotNeeded? ==> Compress(st1, script.compression) == st1;
    hide Decide, DecideContribution, Contributes, Recorded, Fail, IsEmptyTurn, TokenLimitExceeded;
    if IsEmptyTurn(turn) {
      SilentContributes(st, st.(empties := st.empties + 1), iteration);
    } else if TokenLimitExceeded(a.budget, st1.tokens) {
      RecordedContributes(st, turn, st1, TokensExceeded, iteration);
    } else if script.compression.CheckpointLost? {
      RecordedContributes(st, turn, Compress(st1, script.compression), CheckpointFailed, iteration);
    } else {
      DecideContributes(a, st, turn, iteration, script);
    }
  }

  lemma SilentContributes(st: LoopState, out: LoopState, iteration: nat)
    requires out.history == st.history && out.generated == st.generated
    ensures Contributes(st, TurnOut(out, Skip), Silent)
    ensures Contributes(st, TurnOut(Fail(out, EmptyResponses, iteration + 1), Ended), Silent)
  {
    var none: seq<Message> := [];
    assert st.history + none == st.history && st.generated + none == st.generated;
  }

  lemma RecordedContributes(st: LoopState, turn: CompletedTurn, st1: LoopState, kind: ErrorKind, iteration: nat)
    requires st1.history == Recorded(st, turn).history && st1.generated == Recorded(st, turn).generated
    ensures Contributes(st, TurnOut(Fail(st1, kind, iteration + 1), Ended), Turned(AssistantMessage(turn), []))
  {
    var none: seq<Message> := [];
    assert [AssistantMessage(turn)] + none == [AssistantMessage(turn)];
  }

  lemma DecideContributes(a: Agent, st: LoopState, turn: CompletedTurn, iteration: nat, script: Script)
    ensures Contributes(st, Decide(a, Recorded(st, turn), turn, iteration, script),
                        DecideContribution(a, Recorded(st, turn), turn, iteration, script))
  {
    hide Decide;
    var m, st1 := AssistantMessage(turn), Recorded(st, turn);
    assert st1.history == st.history + [m] && st1.generated == st.generated + [m];
    hide Recorded;
    DecideGains(a, st1, turn, iteration, script);
    var out := Decide(a, st1, turn, iteration, script);
    var ms := Fresh(st1, out.st);
    assert st.history + [m] + ms == st.history + ([m] + ms);
    assert st.generated + [m] + ms == st.generated + ([m] + ms);
    if out.flow.Skip? {
      assert st.history + [m] + [User(script.reminder.text)] == st.history + [m, User(script.reminder.text)];
    }
  }

  /** The completed turn of an iteration that gets so far. */
  ghost function TurnOf(script: Script): Option<CompletedTurn> {
    var end := Requests(script.attempts, 0).end;
    if end.Finished? then Some(Assemble(end.deltas)) else None
  }

  ghost function TurnContribution(a: Agent, st: LoopState, iteration: nat, script: Script): Contribution {
    if Refusal(a, st, iteration, script).Some? || TurnOf(script).None? then Silent
    else
      var r := Requests(script.attempts, 0);
      var after := AfterRequests(Emit(st, [ModelTurnStarted(iteration + 1)]), r.events, r.end, iteration);
      RespondContribution(a, after, TurnOf(script).value, iteration, script)
  }

  lemma TurnContributes(a: Agent, st: LoopState, iteration: nat, script: Script)
    requires !script.compression.Compressed?
    ensures Contributes(st, Turn(a, st, iteration, script), TurnContribution(a, st, iteration, script))
  {
    hide Respond;
    hide Requests;
    hide RespondContribution;
    hide AfterRequests;
    var none: seq<Message> := [];
    assert st.history + none == st.history && st.generated + none == st.generated;
    var r := Requests(script.attempts, 0);
    var begun := Emit(st, [ModelTurnStarted(iteration + 1)]);
    RequestsKeepMessages(begun, r, iteration);
    if Refusal(a, st, iteration, script).None? && r.end.Finished? {
      RespondContributes(a, AfterRequests(begun, r.events, r.end, iteration), Assemble(r.end.deltas), iteration, script);
    }
  }

  lemma RequestsKeepMessages(st: LoopState, r: Requested, iteration: nat)
    ensures var after := AfterRequests(st, r.events, r.end, iteration);
            after.history == st.history && after.generated == st.generated
  {
  }

  // ---- What the model is shown ----

  predicate NoCompression(env: Env, upTo: nat) {
    forall i :: 0 <= i < upTo ==> !env(i).compression.Compressed?
  }

  /** The turn gets as far as a completion reminder although it asks for tool calls. */
  ghost predicate TearsTurn(a: Agent, st: LoopState, iteration: nat, script: Script) {
    && Refusal(a, st, iteration, script).None?
    && TurnOf(script).Some?
    && SendsReminder(a, st, TurnOf(script).value, script)
    && TurnOf(script).value.toolCalls != []
  }

  ghost predicate Tears(a: Agent, env: Env, history: seq<Message>, j: nat) {
    StateAt(a, env, StartState(history), j).Some? &&
    TearsTurn(a, StateAt(a, env, StartState(history), j).value, j, env(j))
  }

  /** Exactly then its message is followed by the reminder instead of results. */
  lemma TearsTurnIff(a: Agent, st: LoopState, iteration: nat, script: Script)
    requires !script.compression.Compressed?
    ensures var c := TurnContribution(a, st, iteration, script);
            TearsTurn(a, st, iteration, script) <==> c.Reminded? && c.assistant.Assistant? && c.assistant.calls != []
  {
    hide Requests, Decide, Assemble, Refusal, Fresh;
    if Refusal(a, st, iteration, script).None? && TurnOf(script).Some? {
      var turn, r := TurnOf(script).value, Requests(script.attempts, 0);
      var after := AfterRequests(Emit(st, [ModelTurnStarted(iteration + 1)]), r.events, r.end, iteration);
      DecideSkipIff(a, Recorded(after, turn), turn, iteration, script);
    }
  }

  lemma ContributionExtends(h: seq<Message>, c: Contribution)
    requires WellFormed(h) && !c.Silent? && c.assistant.Assistant?
    requires c.Turned? ==> Answers(c.assistant.calls, c.results)
    requires c.Reminded? ==> c.reminder.User?
    ensures if c.Reminded? && c.assistant.calls != [] then Torn(h + Messages(c)) else WellFormed(h + Messages(c))
  {
    WellFormedConcat(h, Messages(c));
    if c.Turned? {
      AnsweredTurn(c.assistant, c.results);
    } else if c.assistant.calls == [] {
      assert Messages(c)[1..1] == [] && Messages(c)[1..] == [c.reminder] && [c.reminder][1..] == [];
      assert WellFormed([c.reminder]);
    } else {
      assert (h + Messages(c))[..|h|] == h;
      assert TornAt(h + Messages(c), |h|);
    }
  }

  /** One more iteration: a torn history stays torn, and a well-formed one is torn by such a turn only. */
  lemma TurnExtends(a: Agent, st: LoopState, iteration: nat, script: Script)
    requires !script.compression.Compressed? && !Turn(a, st, iteration, script).flow.Ended?
    ensures var h := Turn(a, st, iteration, script).st.history;
            && (Torn(st.history) ==> Torn(h))
            && (WellFormed(st.history) ==> if TearsTurn(a, st, iteration, script) then Torn(h) else WellFormed(h))
  {
    hide Turn, TurnContribution, TearsTurn, Torn, WellFormed;
    var c := TurnContribution(a, st, iteration, script);
    TurnContributes(a, st, iteration, script);
    TearsTurnIff(a, st, iteration, script);
    if Torn(st.history) { TornStays(st.history, Messages(c)); }
    if WellFormed(st.history) {
      if c.Silent? { assert st.history + [] == st.history; } else { ContributionExtends(st.history, c); }
    }
  }

  ghost predicate TornBefore(a: Agent, env: Env, history: seq<Message>, k: nat) {
    exists j :: 0 <= j < k && Tears(a, env, history, j)
  }

  lemma {:induction false} HistoryState(a: Agent, env: Env, history: seq<Message>, k: nat)
    requires WellFormed(history) && NoCompression(env, k)
    requires StateAt(a, env, StartState(history), k).Some?
    ensures var h := StateAt(a, env, StartState(history), k).value.history;
            if TornBefore(a, env, history, k) then Torn(h) else WellFormed(h)
  {
    hide Turn, TearsTurn, Torn, WellFormed;
    if k > 0 {
      HistoryState(a, env, history, k - 1);
      var st := StateAt(a, env, StartState(history), k - 1).value;
      TurnExtends(a, st, k - 1, env(k - 1));
      assert Tears(a, env, history, k - 1) <==> TearsTurn(a, st, k - 1, env(k - 1));
      hide Tears, StateAt;
      assert TornBefore(a, env, history, k) <==> TornBefore(a, env, history, k - 1) || Tears(a, env, history, k - 1);
    }
  }

  /** While no history is replaced by a compressed one, the history sent with the model request of iteration
      `k` is well-formed exactly when no earlier turn that asked for tool calls stopped and was answered
      with the completion reminder. */
  lemma RequestsAreWellFormedIff(a: Agent, env: Env, history: seq<Message>, k: nat)
    requires WellFormed(history) && NoCompression(env, k)
    requires StateAt(a, env, StartState(history), k).Some?
    ensures WellFormed(StateAt(a, env, StartState(history), k).value.history) <==>
            !TornBefore(a, env, history, k)
  {
    hide TornBefore, StateAt;
    HistoryState(a, env, history, k);
    var h := StateAt(a, env, StartState(history), k).value.history;
    if Torn(h) { TornStays(h, []); }
  }

  /** The provider ends a turn with `Stop` although it asked for tool calls. */
  ghost predicate StopsWithCalls(script: Script) {
    TurnOf(script).Some? && TurnOf(script).value.finishReason == Stop && TurnOf(script).value.toolCalls != []
  }

  lemma TearsNeedStop(a: Agent, env: Env, history: seq<Message>, j: nat)
    requires Tears(a, env, history, j)
    ensures StopsWithCalls(env(j))
  {
  }

  /** If the provider never stops a turn that asks for tool calls, every request shows the model a
      well-formed history. */
  lemma RequestsAreWellFormed(a: Agent, env: Env, history: seq<Message>, k: nat)
    requires WellFormed(history) && NoCompression(env, k)
    requires StateAt(a, env, StartState(history), k).Some?
    requires forall j :: 0 <= j < k ==> !StopsWithCalls(env(j))
    ensures WellFormed(StateAt(a, env, StartState(history), k).value.history)
  {
    hide Tears, StopsWithCalls, StateAt;
    RequestsAreWellFormedIff(a, env, history, k);
    forall j | 0 <= j < k ensures !Tears(a, env, history, j) {
      if Tears(a, env, history, j) { TearsNeedStop(a, env, history, j); }
    }
  }

  const CALL := [ToolCallStart(0, "c", "read"), Finish(Stop, NO_USAGE)]

  lemma CallIsListed()
    ensures |Listing(CallsOf(CALL))| > 0
  {
    hide Listing;
    var call, finish := CALL[0], CALL[1];
    assert CALL == [call] + [finish] && [call] == [] + [call];
    assert AboutCall(call, 0);
    AboutStep([], call, 0);
    AboutStep([call], finish, 0);
    assert About(CALL, 0) != [];
    hide About;
    IndicesAbout(CALL, 0);
    hide Indices;
    assert 0 in CallsOf(CALL);
    ListingOrdered(CallsOf(CALL), 0);
  }

  lemma CallStops()
    ensures Assemble(CALL).finishReason == Stop && Assemble(CALL).toolCalls != [] && Assemble(CALL).usage == NO_USAGE
  {
    hide Listing, CallsOf;
    CallIsListed();
    hide ContentOf, ReasoningOf;
    var front := CALL[..1];
    assert front == [CALL[0]] && front[..0] == [];
    assert ReasonOf(front[..0]) == Stop && UsageOf(front[..0]) == NO_USAGE;
    assert ReasonOf(front) == Stop && UsageOf(front) == NO_USAGE;
    assert CALL[|CALL| - 1] == Finish(Stop, NO_USAGE) && CALL[..|CALL| - 1] == front;
  }

  /** A provider that asks for a tool and stops, and a pending reminder: the next request shows the model an
      assistant message whose call nobody answered. */
  lemma TornRequestHappens(policy: Policy)
    ensures var a := Agent(LoopConfig(2, 2, 0), UNLIMITED, policy);
            var st := StateAt(a, Streaming(CALL, Remind("go on")), StartState([]), 1);
            st.Some? && !WellFormed(st.value.history)
  {
    var a, env := Agent(LoopConfig(2, 2, 0), UNLIMITED, policy), Streaming(CALL, Remind("go on"));
    var st := StartState([]);
    CallStops();
    StreamedWhole(CALL, Remind("go on"));
    hide Assemble, Consume, Requests, Turn, Decide, WellFormed, Refusal;
    assert StateAt(a, env, st, 0) == Some(st);
    NothingRefused(a, st, 0, env(0));
    SkipIff(a, st, 0, env(0));
    assert Tears(a, env, [], 0);
    assert StateAt(a, env, st, 1) == Some(Turn(a, st, 0, env(0)).st);
    assert WellFormed([]) by { NothingIsWellFormed(); }
    RequestsAreWellFormedIff(a, env, [], 1);
  }

  lemma NothingIsWellFormed()
    ensures WellFormed([])
  {
  }

  // ---- What the run reports as generated ----

  function NonUser(ms: seq<Message>): seq<Message> {
    if ms == [] then [] else (if ms[0].User? then [] else [ms[0]]) + NonUser(ms[1..])
  }

  lemma {:induction false} NonUserConcat(a: seq<Message>, b: seq<Message>)
    ensures NonUser(a + b) == NonUser(a) + NonUser(b)
  {
    if a == [] {
      assert a + b == b;
    } else {
      assert (a + b)[1..] == a[1..] + b;
      NonUserConcat(a[1..], b);
    }
  }

  lemma {:induction false} NonUserResults(ms: seq<Message>)
    requires AllResults(ms)
    ensures NonUser(ms) == ms
  {
    if ms != [] { NonUserResults(ms[1..]); }
  }

  lemma OwnIsNonUser(c: Contribution)
    requires c.Turned? ==> c.assistant.Assistant? && AllResults(c.results)
    requires c.Reminded? ==> c.assistant.Assistant? && c.reminder.User?
    ensures Own(c) == NonUser(Messages(c))
  {
    match c
    case Silent =>
    case Turned(m, results) =>
      NonUserResults(results);
      assert ([m] + results)[1..] == results;
    case Reminded(m, reminder) =>
      assert [m, reminder][1..] == [reminder] && [reminder][1..] == [];
      assert NonUser([reminder]) == [];
  }

  /** The history goes on from the given one, and the generated messages are its others' than the user's. */
  predicate Tracks(history: seq<Message>, st: LoopState) {
    history <= st.history && st.generated == NonUser(st.history[|history|..])
  }

  lemma TurnTracks(a: Agent, history: seq<Message>, st: LoopState, iteration: nat, script: Script)
    requires !script.compression.Compressed? && Tracks(history, st)
    ensures Tracks(history, Turn(a, st, iteration, script).st)
  {
    hide Turn, TurnContribution, Tracks, Own, Messages;
    TurnContributes(a, st, iteration, script);
    Tracked(history, st, Turn(a, st, iteration, script), TurnContribution(a, st, iteration, script));
  }

  lemma Tracked(history: seq<Message>, st: LoopState, out: TurnOut, c: Contribution)
    requires Tracks(history, st) && Contributes(st, out, c)
    ensures Tracks(history, out.st)
  {
    hide Own, Messages, Answers, AllResults, Tracks;
    OwnIsNonUser(c);
    Extends(history, st, out.st, Messages(c));
  }

  lemma Extends(history: seq<Message>, st: LoopState, out: LoopState, ms: seq<Message>)
    requires Tracks(history, st)
    requires out.history == st.history + ms && out.generated == st.generated + NonUser(ms)
    ensures Tracks(history, out)
  {
    hide NonUser;
    var tail := st.history[|history|..];
    NonUserConcat(tail, ms);
    assert out.history[|history|..] == tail + ms;
  }

  lemma {:induction false} RunAppends(a: Agent, env: Env, history: seq<Message>, st: LoopState, iteration: nat)
    requires NoCompression(env, a.config.maxIterations) && Tracks(history, st)
    ensures Tracks(history, RunFrom(a, env, st, iteration))
    decreases a.config.maxIterations - iteration
  {
    hide Turn, Tracks;
    if iteration < a.config.maxIterations {
      var out := Turn(a, st, iteration, env(iteration));
      TurnTracks(a, history, st, iteration, env(iteration));
      if !out.flow.Ended? { RunAppends(a, env, history, out.st, iteration + 1); }
    }
  }

  // ---- Compression and what is generated ----

  /** The same script, except that no compression replaces the history. */
  function Plain(script: Script): Script {
    if script.compression.Compressed? then script.(compression := NotNeeded) else script
  }

  function Uncompressed(env: Env): Env {
    (i: nat) => Plain(env(i))
  }

  lemma NothingCompressed(env: Env, upTo: nat)
    ensures NoCompression(Uncompressed(env), upTo)
  {
    forall i | 0 <= i < upTo ensures !Uncompressed(env)(i).compression.Compressed? {
      assert Uncompressed(env)(i) == Plain(env(i));
    }
  }

  /** Alike in everything but the history and the events. */
  predicate Alike(s: LoopState, t: LoopState) {
    && s.generated == t.generated && s.toolCalls == t.toolCalls && s.tokens == t.tokens
    && s.empties == t.empties && s.reminderSent == t.reminderSent
  }

  predicate AlikeOut(o: TurnOut, p: TurnOut) {
    o.flow == p.flow && Alike(o.st, p.st)
  }

  lemma HandleAlike(a: Agent, s: LoopState, t: LoopState, call: ToolCall, answer: Answer, apiCalls: nat)
    requires Alike(s, t)
    ensures AlikeOut(Handle(a, s, call, answer, apiCalls), Handle(a, t, call, answer, apiCalls))
  {
    hide Evaluate;
  }

  lemma OneCallAlike(a: Agent, s: LoopState, t: LoopState, call: ToolCall, k: nat, apiCalls: nat, script: Script)
    requires Alike(s, t)
    ensures AlikeOut(OneCall(a, s, call, k, apiCalls, script), OneCall(a, t, call, k, apiCalls, Plain(script)))
  {
    hide Handle;
    HandleAlike(a, Begin(s, call), Begin(t, call), call, script.answers(k), apiCalls);
  }

  lemma {:induction false} SerialAlike(a: Agent, s: LoopState, t: LoopState, calls: seq<ToolCall>, k: nat, iteration: nat, script: Script)
    requires Alike(s, t) && k <= |calls|
    ensures AlikeOut(Serial(a, s, calls, k, iteration, script), Serial(a, t, calls, k, iteration, Plain(script)))
    decreases |calls| - k
  {
    hide OneCall;
    if k < |calls| {
      OneCallAlike(a, s, t, calls[k], k, iteration + 1, script);
      var o := OneCall(a, s, calls[k], k, iteration + 1, script);
      var p := OneCall(a, t, calls[k], k, iteration + 1, Plain(script));
      if !o.flow.Ended? { SerialAlike(a, o.st, p.st, calls, k + 1, iteration, script); }
    }
  }

  lemma ParallelAlike(a: Agent, s: LoopState, t: LoopState, calls: seq<ToolCall>, iteration: nat, script: Script)
    requires Alike(s, t)
    ensures AlikeOut(Parallel(a, s, calls, iteration, script), Parallel(a, t, calls, iteration, Plain(script)))
  {
    assert GroupMessages(a, script, calls) == GroupMessages(a, Plain(script), calls);
    assert GroupCancelled(script, |calls|) == GroupCancelled(Plain(script), |calls|);
    hide GroupMessages, GroupCancelled, Plain;
  }

  lemma DecideAlike(a: Agent, s: LoopState, t: LoopState, turn: CompletedTurn, iteration: nat, script: Script)
    requires Alike(s, t)
    ensures AlikeOut(Decide(a, s, turn, iteration, script), Decide(a, t, turn, iteration, Plain(script)))
  {
    hide Serial, Parallel, ParallelBatchEligible, ToolBatchFits;
    SerialAlike(a, s, t, turn.toolCalls, 0, iteration, script);
    ParallelAlike(a, s, t, turn.toolCalls, iteration, script);
  }

  lemma RespondAlike(a: Agent, s: LoopState, t: LoopState, turn: CompletedTurn, iteration: nat, script: Script)
    requires Alike(s, t)
    ensures AlikeOut(Respond(a, s, turn, iteration, script), Respond(a, t, turn, iteration, Plain(script)))
  {
    hide Decide, IsEmptyTurn;
    DecideAlike(a, Compress(Recorded(s, turn), script.compression), Compress(Recorded(t, turn), Plain(script).compression),
                turn, iteration, script);
  }

  lemma PlainKeeps(script: Script)
    ensures Plain(script).attempts == script.attempts
  {
  }

  lemma RefusalAlike(a: Agent, s: LoopState, t: LoopState, iteration: nat, script: Script)
    requires Alike(s, t)
    ensures var o, p := Refusal(a, s, iteration, script), Refusal(a, t, iteration, Plain(script));
            o.Some? == p.Some? && (o.Some? ==> Alike(o.value, p.value))
  {
  }

  lemma TurnAlike(a: Agent, s: LoopState, t: LoopState, iteration: nat, script: Script)
    requires Alike(s, t)
    ensures AlikeOut(Turn(a, s, iteration, script), Turn(a, t, iteration, Plain(script)))
  {
    hide Respond, Assemble, Requests, Refusal, Plain;
    RefusalAlike(a, s, t, iteration, script);
    var r := Requests(script.attempts, 0);
    assert Plain(script).attempts == script.attempts by { PlainKeeps(script); }
    if Refusal(a, s, iteration, script).None? && r.end.Finished? {
      RespondAlike(a, AfterRequests(Emit(s, [ModelTurnStarted(iteration + 1)]), r.events, r.end, iteration),
                   AfterRequests(Emit(t, [ModelTurnStarted(iteration + 1)]), r.events, r.end, iteration),
                   Assemble(r.end.deltas), iteration, script);
    }
  }

  lemma {:induction false} RunAlike(a: Agent, env: Env, s: LoopState, t: LoopState, iteration: nat)
    requires Alike(s, t)
    ensures Alike(RunFrom(a, env, s, iteration), RunFrom(a, Uncompressed(env), t, iteration))
    decreases a.config.maxIterations - iteration
  {
    hide Turn;
    if iteration < a.config.maxIterations {
      TurnAlike(a, s, t, iteration, env(iteration));
      var o, p := Turn(a, s, iteration, env(iteration)), Turn(a, t, iteration, Uncompressed(env)(iteration));
      if !o.flow.Ended? { RunAlike(a, env, o.st, p.st, iteration + 1); }
    }
  }

  /** The generated messages of a run are exactly the assistant and tool messages it appends to the
      history, in order. Where compression replaces the history meanwhile, they are those that the same run
      appends without it. */
  lemma GeneratedIsAppended(a: Agent, env: Env, history: seq<Message>)
    ensures var plain := RunFrom(a, Uncompressed(env), StartState(history), 0);
            history <= plain.history &&
            RunFrom(a, env, StartState(history), 0).generated == NonUser(plain.history[|history|..])
    ensures NoCompression(env, a.config.maxIterations) ==>
              var end := RunFrom(a, env, StartState(history), 0);
              history <= end.history && end.generated == NonUser(end.history[|history|..])
  {
    hide RunFrom;
    assert history[|history|..] == [];
    NothingCompressed(env, a.config.maxIterations);
    RunAppends(a, Uncompressed(env), history, StartState(history), 0);
    RunAlike(a, env, StartState(history), StartState(history), 0);
    if NoCompression(env, a.config.maxIterations) { RunAppends(a, env, history, StartState(history), 0); }
  }

  // ---- Parallel reads and the serial loop ----

  predicate Undisturbed(script: Script, n: nat) {
    !script.cancelledAfterGroup && forall i :: 0 <= i < n ==> !script.interrupted(i) && !script.cancelledBefore(i)
  }

  lemma {:induction false} SerialReads(a: Agent, st: LoopState, calls: seq<ToolCall>, k: nat, iteration: nat, script: Script)
    requires k <= |calls| && Undisturbed(script, |calls|)
    requires forall i :: 0 <= i < |calls| ==> Evaluate(a.policy, calls[i]) == Execute
    requires a.budget.maxToolCalls.Some? ==> st.toolCalls + (|calls| - k) <= a.budget.maxToolCalls.value
    ensures var out := Serial(a, st, calls, k, iteration, script);
            var all := GroupMessages(a, script, calls);
            && out.flow == (if iteration + 1 >= a.config.maxIterations then Ended else Next)
            && out.st.history == st.history + all[k..] && out.st.generated == st.generated + all[k..]
            && out.st.toolCalls == st.toolCalls + (|calls| - k) && out.st.tokens == st.tokens
    decreases |calls| - k
  {
    hide GroupMessages;
    hide Evaluate;
    var all := GroupMessages(a, script, calls);
    GroupMessageAt(a, script, calls, k);
    if k == |calls| {
      assert all[k..] == [];
      assert st.history + [] == st.history && st.generated + [] == st.generated;
    } else {
      var one := OneCall(a, st, calls[k], k, iteration + 1, script);
      assert one.flow.Next? && one.st.history == st.history + [all[k]] && one.st.generated == st.generated + [all[k]];
      assert one.st.toolCalls == st.toolCalls + 1 && one.st.tokens == st.tokens;
      hide OneCall;
      SerialReads(a, one.st, calls, k + 1, iteration, script);
      assert all[k..] == [all[k]] + all[k + 1..];
      assert st.history + [all[k]] + all[k + 1..] == st.history + all[k..];
      assert st.generated + [all[k]] + all[k + 1..] == st.generated + all[k..];
    }
  }

  lemma GroupMessageAt(a: Agent, script: Script, calls: seq<ToolCall>, k: nat)
    requires Undisturbed(script, |calls|)
    ensures |GroupMessages(a, script, calls)| == |calls|
    ensures k < |calls| ==>
              GroupMessages(a, script, calls)[k] == ToolResult(calls[k].id, a.policy.registry.execute(calls[k]))
  {
  }

  /** Whatever order an eligible, undisturbed group of reads completes in, it leaves the history,
      the generated messages and the counters that the serial loop would, and goes on or ends alike. */
  lemma ParallelIsSerial(a: Agent, st: LoopState, calls: seq<ToolCall>, iteration: nat, script: Script)
    requires ParallelBatchEligible(a.policy, calls) && ToolBatchFits(a.budget, st.toolCalls, |calls|)
    requires Undisturbed(script, |calls|) && st.toolCalls + |calls| <= Decimal.U32_MAX
    ensures var p := Parallel(a, st, calls, iteration, script);
            var s := Serial(a, st, calls, 0, iteration, script);
            && p.flow == s.flow
            && p.st.history == s.st.history && p.st.generated == s.st.generated
            && p.st.toolCalls == s.st.toolCalls && p.st.tokens == s.st.tokens
            && p.st.history == st.history + GroupMessages(a, script, calls)
  {
    forall i | 0 <= i < |calls| ensures Evaluate(a.policy, calls[i]) == Execute { EligibleMeansExecute(a.policy, calls, i); }
    hide GroupMessages;
    hide ParallelBatchEligible;
    hide Serial;
    SerialReads(a, st, calls, 0, iteration, script);
    var all := GroupMessages(a, script, calls);
    assert all[0..] == all;
    assert !GroupCancelled(script, |calls|);
  }

  /** The messages read off the slots, one for each that has been filled. */
  function SlotMessages(calls: seq<ToolCall>, slots: seq<Option<string>>): seq<Message>
    requires |slots| == |calls|
    decreases |slots|
  {
    if slots == [] then []
    else
      var n := |slots| - 1;
      SlotMessages(calls[..n], slots[..n]) + (if slots[n].Some? then [ToolResult(calls[n].id, slots[n].value)] else [])
  }

  lemma {:induction false} FullSlots(calls: seq<ToolCall>, slots: seq<Option<string>>, results: seq<string>)
    requires |slots| == |calls| == |results| && forall i :: 0 <= i < |slots| ==> slots[i] == Some(results[i])
    ensures |SlotMessages(calls, slots)| == |calls|
    ensures forall i :: 0 <= i < |calls| ==> SlotMessages(calls, slots)[i] == ToolResult(calls[i].id, results[i])
    decreases |slots|
  {
    if slots != [] {
      var n := |slots| - 1;
      FullSlots(calls[..n], slots[..n], results[..n]);
    }
  }

  /** In whatever order the calls of a group complete and fill their slots, the messages read off the slots are the
      same; and two orders of the same group differ in nothing but the order of the events. */
  lemma CompletionOrderIsInvisible(a: Agent, st: LoopState, calls: seq<ToolCall>, iteration: nat, script: Script, order: seq<nat>)
    requires IsOrder(order, |calls|)
    ensures SlotMessages(calls, Filled(ReadResults(a, script, calls), order)) == GroupMessages(a, script, calls)
    ensures var p := Parallel(a, st, calls, iteration, script);
            var q := Parallel(a, st, calls, iteration, script.(completion := order));
            p.flow == q.flow && p.st == q.st.(events := p.st.events)
  {
    assert GroupMessages(a, script, calls) == GroupMessages(a, script.(completion := order), calls);
    SlotsAgree(a, calls, script, order);
    hide Filled, SlotMessages;
  }

  lemma SlotsAgree(a: Agent, calls: seq<ToolCall>, script: Script, order: seq<nat>)
    requires IsOrder(order, |calls|)
    ensures SlotMessages(calls, Filled(ReadResults(a, script, calls), order)) == GroupMessages(a, script, calls)
  {
    hide Filled, SlotMessages, ReadResult;
    var results := ReadResults(a, script, calls);
    FilledInAnyOrder(results, order);
    FullSlots(calls, Filled(results, order), results);
  }
}
