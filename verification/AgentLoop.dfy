/** The agent's tool-calling loop. Everything a run meets from outside (what the provider streams,
    when the run is cancelled, in which order parallel reads complete, how questions are answered)
    is scripted per iteration; for each script the loop's events and messages are determined. The
    class follows the source's loops and is proved against the functions before it. */
module AgentLoop {
  import opened Text
  import opened RunBudget
  import opened TurnState
  import opened ToolDispatch

  // ---- Provider errors and fast retries ----

  datatype ProviderError =
    | Auth
    | RateLimited(retryAfter: Option<nat>)
    | InvalidResponse
    | Network
    | HttpStatus(status: nat)
    | StreamEnded

  predicate IsRetryable(e: ProviderError) {
    e.RateLimited? || e.Network? || e.StreamEnded? ||
    (e.HttpStatus? && e.status in {408, 425, 500, 502, 503, 504})
  }

  const RETRY_DELAYS := [1, 2, 4, 8, 16, 30]

  /** The seconds to wait before the next request, if there is to be one. */
  function FastRetry(e: ProviderError, retryIndex: nat): Option<nat> {
    if retryIndex >= |RETRY_DELAYS| then None
    else
      match e
      case RateLimited(after) => Some(Min(if after.Some? then after.value else RETRY_DELAYS[retryIndex], 30))
      case Network => Some(RETRY_DELAYS[retryIndex])
      case HttpStatus(_) => if IsRetryable(e) then Some(RETRY_DELAYS[retryIndex]) else None
      case StreamEnded => Some(RETRY_DELAYS[retryIndex])
      case _ => None
  }

  // ---- Messages, events, state ----

  datatype Message =
    | System(content: string)
    | User(content: string)
    | Assistant(text: Option<string>, calls: seq<ToolCall>)
    | ToolResult(callId: string, content: string)

  datatype ErrorKind =
    | TokenBudget | RuntimeBudget | ApiLimit | ProviderFailed | StreamBroken | EmptyResponses
    | TokensExceeded | CheckpointFailed | CompletionGate | NoCalls | IterationLimit | ToolBudget

  datatype Event =
    | TextDelta(text: string)
    | ReasoningDelta(text: string)
    | ModelTurnStarted(iteration: nat)
    | ToolCallStarted(callId: string)
    | ToolCallFinished(callId: string, result: string)
    | ClarifyRequired
    | TurnCompleted(reason: FinishReason)
    | ContextCompressing
    | RunPaused
    | ProviderUnavailable
    | Done(apiCalls: nat, toolCalls: nat)
    | Error(kind: ErrorKind)

  datatype LoopConfig = LoopConfig(maxIterations: nat, maxApiCalls: nat, maxEmptyResponses: nat)

  datatype Agent = Agent(config: LoopConfig, budget: Budget, policy: Policy)

  datatype LoopState = LoopState(
    history: seq<Message>, generated: seq<Message>, events: seq<Event>,
    toolCalls: nat, tokens: nat, empties: nat, reminderSent: bool)

  function StartState(history: seq<Message>): LoopState {
    LoopState(history, [], [], 0, 0, 0, false)
  }

  function Emit(st: LoopState, es: seq<Event>): LoopState {
    st.(events := st.events + es)
  }

  function Close(st: LoopState, apiCalls: nat): LoopState {
    Emit(st, [Done(apiCalls, st.toolCalls)])
  }

  function Fail(st: LoopState, kind: ErrorKind, apiCalls: nat): LoopState {
    Emit(st, [Error(kind), Done(apiCalls, st.toolCalls)])
  }

  function Push(st: LoopState, m: Message): LoopState {
    st.(history := st.history + [m], generated := st.generated + [m])
  }

  // ---- The script of one iteration ----

  datatype Item = Delta(delta: StreamDelta) | Broke(error: ProviderError) | CancelledInStream

  datatype Attempt =
    | CancelledInRequest
    | Refused(error: ProviderError, cancelledInWait: bool)
    | Opened(items: seq<Item>, cancelledInWait: bool)

  /** What the context manager, if any, does after a turn. */
  datatype Compression = NotNeeded | CheckpointLost | Compressed(history: seq<Message>)

  datatype Reminder = NoReminder | Remind(text: string) | GateFailed

  datatype Decision =
    | NoCoordinator
    | CreationFailed(result: string)
    | Created(result: string, announced: bool, suspend: bool)

  /** Answers to one call: a clarification (nothing if cancelled), a durable decision, a delegation. */
  datatype Answer = Answer(clarified: Option<string>, decision: Decision, delegated: string, delegatedTokens: nat)

  datatype Script = Script(
    elapsed: nat,
    cancelledAtStart: bool,
    attempts: nat -> Attempt,
    compression: Compression,
    reminder: Reminder,
    completion: seq<nat>,
    interrupted: nat -> bool,
    cancelledAfterGroup: bool,
    cancelledBefore: nat -> bool,
    answers: nat -> Answer)

  // ---- Requesting one model turn ----

  function Display(d: StreamDelta): seq<Event> {
    if d.Text? then [TextDelta(d.text)] else if d.Reasoning? then [ReasoningDelta(d.text)] else []
  }

  function DisplayAll(ds: seq<StreamDelta>): seq<Event> {
    if ds == [] then [] else DisplayAll(ds[..|ds| - 1]) + Display(ds[|ds| - 1])
  }

  datatype StreamStop = Completed | Cut | BrokeOff(error: ProviderError)

  datatype Streamed = Streamed(deltas: seq<StreamDelta>, stop: StreamStop)

  /** The deltas received before the stream stops, and how it stops. */
  function Consume(items: seq<Item>): Streamed {
    if items == [] then Streamed([], Completed)
    else
      match items[0]
      case Delta(d) => var rest := Consume(items[1..]); Streamed([d] + rest.deltas, rest.stop)
      case Broke(e) => Streamed([], BrokeOff(e))
      case CancelledInStream => Streamed([], Cut)
  }

  datatype RequestEnd = Finished(deltas: seq<StreamDelta>) | CutOff(counted: bool) | Unavailable | Failed(kind: ErrorKind)

  datatype Requested = Requested(events: seq<Event>, end: RequestEnd, requests: nat, waited: nat)

  datatype Tried = Settled(result: Requested) | RetryAfter(delay: nat)

  /** One request: it settles the turn, or is to be repeated after a wait that was not cancelled. */
  function TryOnce(attempt: Attempt, retryIndex: nat): Tried {
    match attempt
    case CancelledInRequest => Settled(Requested([], CutOff(false), 1, 0))
    case Refused(e, cancelled) =>
      (match FastRetry(e, retryIndex)
       case None => Settled(Requested([], if IsRetryable(e) then Unavailable else Failed(ProviderFailed), 1, 0))
       case Some(delay) => if cancelled then Settled(Requested([], CutOff(false), 1, delay)) else RetryAfter(delay))
    case Opened(items, cancelled) => AfterStream(Consume(items), retryIndex, cancelled)
  }

  function AfterStream(s: Streamed, retryIndex: nat, cancelled: bool): Tried {
    var shown := DisplayAll(s.deltas);
    match s.stop
    case Completed => Settled(Requested(shown, Finished(s.deltas), 1, 0))
    case Cut => Settled(Requested(shown, CutOff(true), 1, 0))
    case BrokeOff(e) =>
      var retry := FastRetry(e, retryIndex);
      if s.deltas == [] && retry.Some? then
        if cancelled then Settled(Requested([], CutOff(true), 1, retry.value)) else RetryAfter(retry.value)
      else
        Settled(Requested(shown, if s.deltas == [] && IsRetryable(e) then Unavailable else Failed(StreamBroken), 1, 0))
  }

  /** Requests from the given retry index on; request errors and errors before the first delta
      share the index. */
  function Requests(attempts: nat -> Attempt, retryIndex: nat): Requested
    requires retryIndex <= |RETRY_DELAYS|
    decreases |RETRY_DELAYS| - retryIndex
  {
    match TryOnce(attempts(retryIndex), retryIndex)
    case Settled(r) => r
    case RetryAfter(delay) => After(delay, Requests(attempts, retryIndex + 1))
  }

  /** The seconds waited for a retry, whether or not the wait is cut short. */
  function Waited(t: Tried): nat {
    match t
    case RetryAfter(delay) => delay
    case Settled(r) => r.waited
  }

  function Later(requests: nat, waited: nat, r: Requested): Requested {
    r.(requests := requests + r.requests, waited := waited + r.waited)
  }

  function After(delay: nat, r: Requested): Requested {
    r.(requests := r.requests + 1, waited := r.waited + delay)
  }

  // ---- One iteration ----

  /** `Next` goes on after the final-iteration check; `Skip` goes on without it. */
  datatype Flow = Next | Skip | Ended

  datatype TurnOut = TurnOut(st: LoopState, flow: Flow)

  const READ_INTERRUPTED := "run cancellation interrupted parallel read"
  const DECISIONS_UNAVAILABLE := "durable decision runtime is unavailable"

  predicate IsOrder(order: seq<nat>, n: nat) {
    && |order| == n
    && (forall j :: 0 <= j < n ==> order[j] < n)
    && (forall i, j :: 0 <= i < j < n ==> order[i] != order[j])
  }

  function Completion(script: Script, n: nat): seq<nat> {
    if IsOrder(script.completion, n) then script.completion else seq(n, i => i)
  }

  function ReadResult(a: Agent, script: Script, calls: seq<ToolCall>, i: nat): string
    requires i < |calls|
  {
    if script.interrupted(i) then READ_INTERRUPTED else a.policy.registry.execute(calls[i])
  }

  function GroupMessages(a: Agent, script: Script, calls: seq<ToolCall>): seq<Message> {
    seq(|calls|, i requires 0 <= i < |calls| => ToolResult(calls[i].id, ReadResult(a, script, calls, i)))
  }

  function GroupStarts(calls: seq<ToolCall>): seq<Event> {
    seq(|calls|, i requires 0 <= i < |calls| => ToolCallStarted(calls[i].id))
  }

  function GroupFinishes(a: Agent, script: Script, calls: seq<ToolCall>, order: seq<nat>): seq<Event>
    requires forall j :: 0 <= j < |order| ==> order[j] < |calls|
  {
    seq(|order|, j requires 0 <= j < |order| =>
      ToolCallFinished(calls[order[j]].id, ReadResult(a, script, calls, order[j])))
  }

  predicate GroupCancelled(script: Script, n: nat) {
    script.cancelledAfterGroup || exists i :: 0 <= i < n && script.interrupted(i)
  }

  function LimitCheck(a: Agent, st: LoopState, iteration: nat): TurnOut {
    if iteration + 1 >= a.config.maxIterations then TurnOut(Fail(st, IterationLimit, iteration + 1), Ended)
    else TurnOut(st, Next)
  }

  function Grouped(a: Agent, st: LoopState, calls: seq<ToolCall>, script: Script): LoopState {
    var messages := GroupMessages(a, script, calls);
    st.(history := st.history + messages, generated := st.generated + messages,
        events := st.events + GroupStarts(calls) + GroupFinishes(a, script, calls, Completion(script, |calls|)),
        toolCalls := st.toolCalls + |calls|)
  }

  /** Reads run together; their results enter the history in provider order. */
  function Parallel(a: Agent, st: LoopState, calls: seq<ToolCall>, iteration: nat, script: Script): TurnOut {
    var done := Grouped(a, st, calls, script);
    if GroupCancelled(script, |calls|) then TurnOut(Close(done, iteration + 1), Ended)
    else LimitCheck(a, done, iteration)
  }

  function FinishCall(st: LoopState, call: ToolCall, result: string): TurnOut {
    TurnOut(Push(Emit(st, [ToolCallFinished(call.id, result)]), ToolResult(call.id, result)), Next)
  }

  /** What becomes of a call that has been counted and announced. */
  function Handle(a: Agent, begun: LoopState, call: ToolCall, answer: Answer, apiCalls: nat): TurnOut {
    match Evaluate(a.policy, call)
    case Execute => FinishCall(begun, call, a.policy.registry.execute(call))
    case Blocked => FinishCall(begun, call, a.policy.registry.refusal(call))
    case Clarify =>
      var asked := Emit(begun, [ClarifyRequired]);
      if answer.clarified.None? then TurnOut(Close(asked, apiCalls), Ended)
      else FinishCall(asked, call, answer.clarified.value)
    case DurableClarify =>
      (match answer.decision
       case NoCoordinator =>
         TurnOut(Close(Emit(begun, [ToolCallFinished(call.id, DECISIONS_UNAVAILABLE)]), apiCalls), Ended)
       case CreationFailed(result) => FinishCall(begun, call, result)
       case Created(result, announced, suspend) =>
         var asked := if announced then Emit(begun, [ClarifyRequired]) else begun;
         if suspend then TurnOut(Emit(asked, [ToolCallFinished(call.id, result), RunPaused]), Ended)
         else FinishCall(asked, call, result))
    case Delegate =>
      FinishCall(begun.(tokens := SaturatingAdd(begun.tokens, answer.delegatedTokens)), call, answer.delegated)
  }

  function Begin(st: LoopState, call: ToolCall): LoopState {
    Emit(st.(toolCalls := st.toolCalls + 1), [ToolCallStarted(call.id)])
  }

  /** The call at position `k` of its turn. */
  function OneCall(a: Agent, st: LoopState, call: ToolCall, k: nat, apiCalls: nat, script: Script): TurnOut {
    if script.cancelledBefore(k) then TurnOut(Close(st, apiCalls), Ended)
    else if ToolLimitReached(a.budget, st.toolCalls) then TurnOut(Fail(st, ToolBudget, apiCalls), Ended)
    else Handle(a, Begin(st, call), call, script.answers(k), apiCalls)
  }

  function Serial(a: Agent, st: LoopState, calls: seq<ToolCall>, k: nat, iteration: nat, script: Script): TurnOut
    requires k <= |calls|
    decreases |calls| - k
  {
    if k == |calls| then LimitCheck(a, st, iteration)
    else
      var out := OneCall(a, st, calls[k], k, iteration + 1, script);
      if out.flow.Ended? then out else Serial(a, out.st, calls, k + 1, iteration, script)
  }

  function Dispatch(a: Agent, st: LoopState, calls: seq<ToolCall>, iteration: nat, script: Script): TurnOut {
    if ToolBatchFits(a.budget, st.toolCalls, |calls|) && ParallelBatchEligible(a.policy, calls)
    then Parallel(a, st, calls, iteration, script)
    else Serial(a, st, calls, 0, iteration, script)
  }

  /** After the assistant message has been recorded and any compression is done. */
  function Decide(a: Agent, st: LoopState, turn: CompletedTurn, iteration: nat, script: Script): TurnOut {
    match turn.finishReason
    case Stop =>
      if !st.reminderSent && script.reminder.Remind? then
        TurnOut(st.(reminderSent := true, history := st.history + [User(script.reminder.text)]), Skip)
      else if !st.reminderSent && script.reminder.GateFailed? then
        TurnOut(Fail(st, CompletionGate, iteration + 1), Ended)
      else TurnOut(Close(st, iteration + 1), Ended)
    case ContentFilter => TurnOut(Close(st, iteration + 1), Ended)
    case Length => TurnOut(Close(st, iteration + 1), Ended)
    case ToolCalls =>
      if turn.toolCalls == [] then TurnOut(Fail(st, NoCalls, iteration + 1), Ended)
      else Dispatch(a, st, turn.toolCalls, iteration, script)
  }

  function Compress(st: LoopState, compression: Compression): LoopState {
    match compression
    case NotNeeded => st
    case CheckpointLost => Emit(st, [ContextCompressing])
    case Compressed(history) => Emit(st.(history := history), [ContextCompressing])
  }

  predicate IsEmptyTurn(turn: CompletedTurn) {
    Trim(turn.content) == "" && Trim(turn.reasoning) == "" && turn.toolCalls == [] && turn.finishReason == Stop
  }

  function AssistantMessage(turn: CompletedTurn): Message {
    Assistant(if turn.content == "" then None else Some(turn.content), turn.toolCalls)
  }

  function Recorded(st: LoopState, turn: CompletedTurn): LoopState {
    Emit(Push(st.(empties := 0), AssistantMessage(turn)), [TurnCompleted(turn.finishReason)])
      .(tokens := SaturatingAdd(st.tokens, turn.usage.total))
  }

  function Respond(a: Agent, st: LoopState, turn: CompletedTurn, iteration: nat, script: Script): TurnOut {
    if IsEmptyTurn(turn) then
      var st1 := st.(empties := st.empties + 1);
      if st1.empties <= a.config.maxEmptyResponses then TurnOut(st1, Skip)
      else TurnOut(Fail(st1, EmptyResponses, iteration + 1), Ended)
    else
      var st1 := Recorded(st, turn);
      if TokenLimitExceeded(a.budget, st1.tokens) then TurnOut(Fail(st1, TokensExceeded, iteration + 1), Ended)
      else
        var st2 := Compress(st1, script.compression);
        if script.compression.CheckpointLost? then TurnOut(Fail(st2, CheckpointFailed, iteration + 1), Ended)
        else Decide(a, st2, turn, iteration, script)
  }

  /** The checks before a model turn; a state means that the run ends there. */
  function Refusal(a: Agent, st: LoopState, iteration: nat, script: Script): Option<LoopState> {
    if TokenLimitReached(a.budget, st.tokens) then Some(Fail(st, TokenBudget, iteration))
    else if RuntimeLimitReached(a.budget, script.elapsed) then Some(Fail(st, RuntimeBudget, iteration))
    else if script.cancelledAtStart then Some(Close(st, iteration))
    else if iteration >= a.config.maxApiCalls then Some(Fail(st, ApiLimit, iteration))
    else None
  }

  ghost function Turn(a: Agent, st: LoopState, iteration: nat, script: Script): TurnOut {
    match Refusal(a, st, iteration, script)
    case Some(end) => TurnOut(end, Ended)
    case None =>
      var r := Requests(script.attempts, 0);
      var st1 := AfterRequests(Emit(st, [ModelTurnStarted(iteration + 1)]), r.events, r.end, iteration);
      if r.end.Finished? then Respond(a, st1, Assemble(r.end.deltas), iteration, script) else TurnOut(st1, Ended)
  }

  /** How a run's state stands after its requests for one turn. */
  function AfterRequests(st: LoopState, events: seq<Event>, end: RequestEnd, iteration: nat): LoopState {
    var shown := Emit(st, events);
    match end
    case Finished(_) => shown
    case CutOff(counted) => Close(shown, if counted then iteration + 1 else iteration)
    case Unavailable => Emit(shown, [ProviderUnavailable, Done(iteration + 1, shown.toolCalls)])
    case Failed(kind) => Fail(shown, kind, iteration + 1)
  }

  predicate Answered(before: LoopState, r: Requested, iteration: nat, after: LoopState, finished: bool, deltas: seq<StreamDelta>) {
    && after == AfterRequests(before, r.events, r.end, iteration)
    && (finished <==> r.end.Finished?)
    && (finished ==> r.end.deltas == deltas)
  }

  predicate Attempted(t: Tried, before: LoopState, iteration: nat, after: LoopState,
                      retry: bool, finished: bool, deltas: seq<StreamDelta>) {
    match t
    case RetryAfter(_) => retry && !finished && after == before
    case Settled(r) => !retry && Answered(before, r, iteration, after, finished, deltas)
  }

  type Env = nat -> Script

  /** The state in which the stream of events ends. */
  ghost function RunFrom(a: Agent, env: Env, st: LoopState, iteration: nat): LoopState
    decreases a.config.maxIterations - iteration
  {
    if iteration >= a.config.maxIterations then st
    else
      var out := Turn(a, st, iteration, env(iteration));
      if out.flow.Ended? then out.st else RunFrom(a, env, out.st, iteration + 1)
  }

  // ---- The loop as the source runs it ----

  class Loop {
    const agent: Agent
    var messages: seq<Message>
    var generatedMessages: seq<Message>
    /** The events yielded so far. */
    var events: seq<Event>
    /** The counters of the current run. */
    var totalToolCalls: nat
    var totalTokens: nat
    var emptyResponses: nat
    var completionReminderSent: bool

    ghost function View(): LoopState
      reads this
    {
      LoopState(messages, generatedMessages, events, totalToolCalls, totalTokens, emptyResponses, completionReminderSent)
    }

    constructor (agent: Agent, messages: seq<Message>)
      ensures this.agent == agent && View() == StartState(messages)
    {
      this.agent := agent;
      this.messages, generatedMessages, events := messages, [], [];
      totalToolCalls, totalTokens, emptyResponses, completionReminderSent := 0, 0, 0, false;
    }

    method Yield(e: Event)
      modifies this`events
      ensures View() == Emit(old(View()), [e])
    {
      events := events + [e];
    }

    method YieldDone(apiCalls: nat)
      modifies this`events
      ensures View() == Close(old(View()), apiCalls)
    {
      events := events + [Done(apiCalls, totalToolCalls)];
    }

    method YieldError(kind: ErrorKind, apiCalls: nat)
      modifies this`events
      ensures View() == Fail(old(View()), kind, apiCalls)
    {
      events := events + [Error(kind)];
      events := events + [Done(apiCalls, totalToolCalls)];
    }

    method PushGenerated(m: Message)
      modifies this`messages, this`generatedMessages
      ensures View() == Push(old(View()), m)
    {
      messages := messages + [m];
      generatedMessages := generatedMessages + [m];
    }

    /** Shows one delta and feeds it to the accumulator. */
    method Receive(d: StreamDelta, turn: TurnAccumulator, ghost deltas: seq<StreamDelta>)
      requires turn.Holds(deltas)
      modifies this`events, turn
      ensures View() == Emit(old(View()), Display(d)) && turn.Holds(deltas + [d])
    {
      turn.Apply(d, deltas);
      if d.Text? { events := events + [TextDelta(d.text)]; }
      if d.Reasoning? { events := events + [ReasoningDelta(d.text)]; }
    }

    /** Reads one stream until it stops. */
    method ReadStream(items: seq<Item>, turn: TurnAccumulator)
      returns (ghost deltas: seq<StreamDelta>, received: bool, stop: StreamStop)
      requires turn.Holds([])
      modifies this`events, turn
      ensures Streamed(deltas, stop) == Consume(items)
      ensures received <==> deltas != []
      ensures View() == Emit(old(View()), DisplayAll(deltas))
      ensures turn.Holds(deltas)
    {
      hide StreamHolds;
      deltas, received := [], false;
      var i := 0;
      assert StreamHolds(items, 0, []) by { StreamStarts(items); }
      while i < |items| && items[i].Delta?
        invariant 0 <= i <= |items|
        invariant StreamHolds(items, i, deltas)
        invariant received <==> deltas != []
        invariant View() == Emit(old(View()), DisplayAll(deltas))
        invariant turn.Holds(deltas)
      {
        received := true;
        Receive(items[i].delta, turn, deltas);
        StreamGoesOn(items, i, deltas);
        DisplaySnoc(deltas, items[i].delta);
        deltas := deltas + [items[i].delta];
        i := i + 1;
      }
      StreamStops(items, i, deltas);
      if i == |items| {
        stop := Completed;
      } else if items[i].Broke? {
        stop := BrokeOff(items[i].error);
      } else {
        stop := Cut;
      }
    }

    /** Ends a turn whose request failed for good. */
    method GiveUp(unavailable: bool, kind: ErrorKind, iteration: nat)
      modifies this`events
      ensures View() == Emit(old(View()), [if unavailable then ProviderUnavailable else Error(kind),
                                           Done(iteration + 1, old(totalToolCalls))])
    {
      Yield(if unavailable then ProviderUnavailable else Error(kind));
      YieldDone(iteration + 1);
    }

    /** Reads the answer to a request; `retry` asks for another one. */
    method ReadAnswer(items: seq<Item>, cancelled: bool, retryIndex: nat, iteration: nat, turn: TurnAccumulator)
      returns (retry: bool, finished: bool, ghost deltas: seq<StreamDelta>, ghost waited: nat)
      requires turn.Holds([])
      modifies this`events, turn
      ensures waited == Waited(AfterStream(Consume(items), retryIndex, cancelled))
      ensures Attempted(AfterStream(Consume(items), retryIndex, cancelled), old(View()), iteration, View(), retry, finished, deltas)
      ensures retry ==> turn.Holds([])
      ensures finished ==> turn.Holds(deltas)
    {
      hide FastRetry;
      hide Consume;
      var received, stop;
      deltas, received, stop := ReadStream(items, turn);
      match stop {
        case Completed => return false, true, deltas, 0;
        case Cut =>
          YieldDone(iteration + 1);
          return false, false, deltas, 0;
        case BrokeOff(e) =>
          var delay := FastRetry(e, retryIndex);
          if received || delay.None? {
            GiveUp(!received && IsRetryable(e), StreamBroken, iteration);
            return false, false, deltas, 0;
          }
          if cancelled {
            YieldDone(iteration + 1);
            return false, false, deltas, delay.value;
          }
          return true, false, [], delay.value;
      }
    }

    /** Makes one request; `retry` asks for another one. */
    method Request(attempt: Attempt, retryIndex: nat, iteration: nat, turn: TurnAccumulator)
      returns (retry: bool, finished: bool, ghost deltas: seq<StreamDelta>, ghost waited: nat)
      requires turn.Holds([])
      modifies this`events, turn
      ensures waited == Waited(TryOnce(attempt, retryIndex))
      ensures Attempted(TryOnce(attempt, retryIndex), old(View()), iteration, View(), retry, finished, deltas)
      ensures retry ==> turn.Holds([])
      ensures finished ==> turn.Holds(deltas)
    {
      hide FastRetry;
      hide AfterStream;
      match attempt {
        case CancelledInRequest =>
          YieldDone(iteration);
          return false, false, [], 0;
        case Refused(e, cancelled) =>
          var delay := FastRetry(e, retryIndex);
          if delay.None? {
            GiveUp(IsRetryable(e), ProviderFailed, iteration);
            return false, false, [], 0;
          }
          if cancelled {
            YieldDone(iteration);
            return false, false, [], delay.value;
          }
          return true, false, [], delay.value;
        case Opened(items, cancelled) =>
          retry, finished, deltas, waited := ReadAnswer(items, cancelled, retryIndex, iteration, turn);
      }
    }

    /** Requests one model turn; a finished one is left in `turn`. The requests made and the seconds waited
        between them are counted on the side. */
    method RequestTurn(script: Script, iteration: nat, turn: TurnAccumulator)
      returns (finished: bool, ghost deltas: seq<StreamDelta>, ghost requests: nat, ghost waited: nat)
      requires turn.Holds([])
      modifies this`events, turn
      ensures Answered(old(View()), Requests(script.attempts, 0), iteration, View(), finished, deltas)
      ensures finished ==> turn.Holds(deltas)
      ensures requests == Requests(script.attempts, 0).requests <= 7
      ensures waited == Requests(script.attempts, 0).waited <= 180
    {
      hide TryOnce;
      hide AfterRequests;
      var retryIndex := 0;
      var retry := true;
      finished, deltas, requests, waited := false, [], 0, 0;
      ghost var whole := Requests(script.attempts, 0);
      RequestsBounded(script.attempts, 0);
      while retry
        invariant retryIndex <= |RETRY_DELAYS|
        invariant retry ==> View() == old(View()) && turn.Holds([])
        invariant retry ==> whole == Later(requests, waited, Requests(script.attempts, retryIndex))
        invariant !retry ==> Answered(old(View()), whole, iteration, View(), finished, deltas)
        invariant !retry ==> requests == whole.requests && waited == whole.waited
        invariant !retry && finished ==> turn.Holds(deltas)
        decreases retry, |RETRY_DELAYS| - retryIndex
      {
        ghost var pause;
        SettledOnce(script.attempts(retryIndex), retryIndex);
        retry, finished, deltas, pause := Request(script.attempts(retryIndex), retryIndex, iteration, turn);
        requests, waited := requests + 1, waited + pause;
        if retry {
          RetriesEnd(script.attempts(retryIndex), retryIndex);
          retryIndex := retryIndex + 1;
        }
      }
    }

    method StartAll(calls: seq<ToolCall>)
      modifies this
      ensures View() == old(View()).(events := old(events) + GroupStarts(calls), toolCalls := old(totalToolCalls) + |calls|)
    {
      for i := 0 to |calls|
        invariant View() == old(View()).(events := old(events) + GroupStarts(calls)[..i], toolCalls := old(totalToolCalls) + i)
      {
        totalToolCalls := totalToolCalls + 1;
        Yield(ToolCallStarted(calls[i].id));
      }
      assert GroupStarts(calls)[..|calls|] == GroupStarts(calls);
    }

    /** The reads complete in the given order; each result goes to its call's own place. */
    method FinishAll(calls: seq<ToolCall>, script: Script, order: seq<nat>) returns (ordered: array<Option<string>>)
      requires IsOrder(order, |calls|)
      modifies this
      ensures fresh(ordered) && ordered.Length == |calls|
      ensures ordered[..] == Filled(ReadResults(agent, script, calls), order)
      ensures forall i :: 0 <= i < |calls| ==> ordered[i] == Some(ReadResult(agent, script, calls, i))
      ensures View() == old(View()).(events := old(events) + GroupFinishes(agent, script, calls, order))
    {
      hide ReadResult, GroupFinishes, Filled;
      var n := |calls|;
      ghost var results, finishes := ReadResults(agent, script, calls), GroupFinishes(agent, script, calls, order);
      FinishesAre(agent, calls, script, order);
      FilledNone(results);
      ordered := new Option<string>[n](i => None);
      assert order[..0] == [];
      for j := 0 to n
        invariant ordered[..] == Filled(results, order[..j])
        invariant View() == old(View()).(events := old(events) + finishes[..j])
      {
        var index := order[j];
        var result := ReadResult(agent, script, calls, index);
        Yield(ToolCallFinished(calls[index].id, result));
        ordered[index] := Some(result);
        FilledStep(results, order, j);
      }
      assert finishes[..n] == finishes && order[..n] == order;
      FilledInAnyOrder(results, order);
    }

    method AppendResults(calls: seq<ToolCall>, script: Script, ordered: array<Option<string>>)
      requires ordered.Length == |calls|
      requires forall i :: 0 <= i < |calls| ==> ordered[i] == Some(ReadResult(agent, script, calls, i))
      modifies this
      ensures View() == old(View()).(history := old(messages) + GroupMessages(agent, script, calls),
                                     generated := old(generatedMessages) + GroupMessages(agent, script, calls))
    {
      for i := 0 to |calls|
        invariant View() == old(View()).(
                    history := old(messages) + GroupMessages(agent, script, calls)[..i],
                    generated := old(generatedMessages) + GroupMessages(agent, script, calls)[..i])
        invariant forall k :: 0 <= k < |calls| ==> ordered[k] == Some(ReadResult(agent, script, calls, k))
      {
        if ordered[i].Some? { PushGenerated(ToolResult(calls[i].id, ordered[i].value)); }
      }
      assert GroupMessages(agent, script, calls)[..|calls|] == GroupMessages(agent, script, calls);
    }

    /** Runs a group of reads together, filling the results by index as they complete. */
    method RunGroup(calls: seq<ToolCall>, iteration: nat, script: Script) returns (flow: Flow)
      modifies this
      ensures TurnOut(View(), flow) == Parallel(agent, old(View()), calls, iteration, script)
    {
      hide GroupStarts;
      hide GroupFinishes;
      hide GroupMessages;
      var order := Completion(script, |calls|);
      StartAll(calls);
      var ordered := FinishAll(calls, script, order);
      AppendResults(calls, script, ordered);
      if GroupCancelled(script, |calls|) {
        YieldDone(iteration + 1);
        return Ended;
      }
      flow := CheckLimit(iteration);
    }

    method CheckLimit(iteration: nat) returns (flow: Flow)
      modifies this`events
      ensures TurnOut(View(), flow) == LimitCheck(agent, old(View()), iteration)
    {
      if iteration + 1 >= agent.config.maxIterations {
        YieldError(IterationLimit, iteration + 1);
        return Ended;
      }
      return Next;
    }

    /** One call of a turn; the run goes on unless the flow says it ended. */
    method RunCall(call: ToolCall, k: nat, apiCalls: nat, script: Script) returns (flow: Flow)
      modifies this
      ensures TurnOut(View(), flow) == OneCall(agent, old(View()), call, k, apiCalls, script)
    {
      hide Handle;
      if script.cancelledBefore(k) {
        YieldDone(apiCalls);
        return Ended;
      }
      if ToolLimitReached(agent.budget, totalToolCalls) {
        YieldError(ToolBudget, apiCalls);
        return Ended;
      }
      totalToolCalls := totalToolCalls + 1;
      Yield(ToolCallStarted(call.id));
      flow := HandleCall(call, script.answers(k), apiCalls);
    }

    method HandleCall(call: ToolCall, answer: Answer, apiCalls: nat) returns (flow: Flow)
      modifies this
      ensures TurnOut(View(), flow) == Handle(agent, old(View()), call, answer, apiCalls)
    {
      hide Evaluate;
      var result := "";
      match Evaluate(agent.policy, call) {
        case Execute => result := agent.policy.registry.execute(call);
        case Blocked => result := agent.policy.registry.refusal(call);
        case Clarify =>
          Yield(ClarifyRequired);
          if answer.clarified.None? {
            YieldDone(apiCalls);
            return Ended;
          }
          result := answer.clarified.value;
        case DurableClarify =>
          match answer.decision {
            case NoCoordinator =>
              Yield(ToolCallFinished(call.id, DECISIONS_UNAVAILABLE));
              YieldDone(apiCalls);
              return Ended;
            case CreationFailed(text) => result := text;
            case Created(text, announced, suspend) =>
              if announced { Yield(ClarifyRequired); }
              if suspend {
                Yield(ToolCallFinished(call.id, text));
                Yield(RunPaused);
                return Ended;
              }
              result := text;
          }
        case Delegate =>
          totalTokens := SaturatingAdd(totalTokens, answer.delegatedTokens);
          result := answer.delegated;
      }
      Yield(ToolCallFinished(call.id, result));
      PushGenerated(ToolResult(call.id, result));
      return Next;
    }

    method RunSerially(calls: seq<ToolCall>, iteration: nat, script: Script) returns (flow: Flow)
      modifies this
      ensures TurnOut(View(), flow) == Serial(agent, old(View()), calls, 0, iteration, script)
    {
      for k := 0 to |calls|
        invariant Serial(agent, old(View()), calls, 0, iteration, script) == Serial(agent, View(), calls, k, iteration, script)
      {
        flow := RunCall(calls[k], k, iteration + 1, script);
        if flow.Ended? {
          return;
        }
      }
      flow := CheckLimit(iteration);
    }

    /** Acts on a finished turn. */
    method Act(turn: CompletedTurn, iteration: nat, script: Script) returns (flow: Flow)
      modifies this
      ensures TurnOut(View(), flow) == Respond(agent, old(View()), turn, iteration, script)
    {
      if IsEmptyTurn(turn) {
        emptyResponses := emptyResponses + 1;
        if emptyResponses <= agent.config.maxEmptyResponses {
          return Skip;
        }
        YieldError(EmptyResponses, iteration + 1);
        return Ended;
      }
      Record(turn);
      if TokenLimitExceeded(agent.budget, totalTokens) {
        YieldError(TokensExceeded, iteration + 1);
        return Ended;
      }
      CompressHistory(script.compression);
      if script.compression.CheckpointLost? {
        YieldError(CheckpointFailed, iteration + 1);
        return Ended;
      }
      flow := Proceed(turn, iteration, script);
    }

    method Record(turn: CompletedTurn)
      modifies this
      ensures View() == Recorded(old(View()), turn)
    {
      emptyResponses := 0;
      PushGenerated(AssistantMessage(turn));
      Yield(TurnCompleted(turn.finishReason));
      totalTokens := SaturatingAdd(totalTokens, turn.usage.total);
    }

    method CompressHistory(compression: Compression)
      modifies this
      ensures View() == Compress(old(View()), compression)
    {
      if !compression.NotNeeded? {
        Yield(ContextCompressing);
        if compression.Compressed? { messages := compression.history; }
      }
    }

    method Proceed(turn: CompletedTurn, iteration: nat, script: Script) returns (flow: Flow)
      modifies this
      ensures TurnOut(View(), flow) == Decide(agent, old(View()), turn, iteration, script)
    {
      hide Parallel;
      hide Serial;
      if turn.finishReason.Stop? {
        if !completionReminderSent {
          if script.reminder.Remind? {
            completionReminderSent := true;
            messages := messages + [User(script.reminder.text)];
            return Skip;
          }
          if script.reminder.GateFailed? {
            YieldError(CompletionGate, iteration + 1);
            return Ended;
          }
        }
        YieldDone(iteration + 1);
        return Ended;
      }
      if turn.finishReason.ContentFilter? || turn.finishReason.Length? {
        YieldDone(iteration + 1);
        return Ended;
      }
      if turn.toolCalls == [] {
        YieldError(NoCalls, iteration + 1);
        return Ended;
      }
      if ToolBatchFits(agent.budget, totalToolCalls, |turn.toolCalls|) &&
         ParallelBatchEligible(agent.policy, turn.toolCalls) {
        flow := RunGroup(turn.toolCalls, iteration, script);
      } else {
        flow := RunSerially(turn.toolCalls, iteration, script);
      }
    }

    method RunTurn(iteration: nat, script: Script) returns (flow: Flow, ghost requests: nat, ghost waited: nat)
      modifies this
      ensures TurnOut(View(), flow) == Turn(agent, old(View()), iteration, script)
      ensures requests <= 7 && waited <= 180
      ensures iteration >= agent.config.maxApiCalls ==> flow.Ended? && requests == waited == 0
    {
      requests, waited := 0, 0;
      if TokenLimitReached(agent.budget, totalTokens) {
        YieldError(TokenBudget, iteration);
        return Ended, 0, 0;
      }
      if RuntimeLimitReached(agent.budget, script.elapsed) {
        YieldError(RuntimeBudget, iteration);
        return Ended, 0, 0;
      }
      if script.cancelledAtStart {
        YieldDone(iteration);
        return Ended, 0, 0;
      }
      if iteration >= agent.config.maxApiCalls {
        YieldError(ApiLimit, iteration);
        return Ended, 0, 0;
      }
      Yield(ModelTurnStarted(iteration + 1));
      var turn := new TurnAccumulator();
      var finished;
      ghost var deltas;
      finished, deltas, requests, waited := RequestTurn(script, iteration, turn);
      if !finished {
        return Ended, requests, waited;
      }
      var completed := turn.Complete(deltas);
      flow := Act(completed, iteration, script);
    }

    method Run(env: Env) returns (ghost requests: nat, ghost waited: nat)
      modifies this
      ensures View() == RunFrom(agent, env, StartState(old(messages)), 0)
      ensures RequestsWithin(requests, waited, Min(agent.config.maxIterations, agent.config.maxApiCalls))
    {
      hide Turn, RunFrom;
      requests, waited := 0, 0;
      generatedMessages, events := [], [];
      totalToolCalls, totalTokens, emptyResponses, completionReminderSent := 0, 0, 0, false;
      ghost var end := RunFrom(agent, env, View(), 0);
      for iteration := 0 to agent.config.maxIterations
        invariant end == RunFrom(agent, env, View(), iteration)
        invariant iteration <= agent.config.maxApiCalls && RequestsWithin(requests, waited, iteration)
      {
        var flow;
        ghost var turnRequests, turnWaited;
        RunUnfolds(agent, env, View(), iteration);
        flow, turnRequests, turnWaited := RunTurn(iteration, env(iteration));
        requests, waited := requests + turnRequests, waited + turnWaited;
        if flow.Ended? {
          return;
        }
      }
      RunUnfolds(agent, env, View(), agent.config.maxIterations);
    }
  }

  predicate RequestsWithin(requests: nat, waited: nat, turns: nat) {
    requests <= 7 * turns && waited <= 180 * turns
  }

  lemma RunUnfolds(a: Agent, env: Env, st: LoopState, iteration: nat)
    ensures RunFrom(a, env, st, iteration) ==
            if iteration >= a.config.maxIterations then st
            else
              var out := Turn(a, st, iteration, env(iteration));
              if out.flow.Ended? then out.st else RunFrom(a, env, out.st, iteration + 1)
  {
  }

  /** After `i` items, all deltas, the rest of the stream decides. */
  predicate StreamHolds(items: seq<Item>, i: nat, deltas: seq<StreamDelta>) {
    i <= |items| &&
    Consume(items) == Streamed(deltas + Consume(items[i..]).deltas, Consume(items[i..]).stop)
  }

  lemma StreamStarts(items: seq<Item>)
    ensures StreamHolds(items, 0, [])
  {
    assert items[0..] == items;
    assert [] + Consume(items).deltas == Consume(items).deltas;
  }

  lemma StreamGoesOn(items: seq<Item>, i: nat, deltas: seq<StreamDelta>)
    requires i < |items| && items[i].Delta? && StreamHolds(items, i, deltas)
    ensures StreamHolds(items, i + 1, deltas + [items[i].delta])
  {
    var rest := Consume(items[i + 1..]);
    assert items[i..][1..] == items[i + 1..];
    assert deltas + ([items[i].delta] + rest.deltas) == deltas + [items[i].delta] + rest.deltas;
  }

  lemma StreamStops(items: seq<Item>, i: nat, deltas: seq<StreamDelta>)
    requires StreamHolds(items, i, deltas) && (i == |items| || !items[i].Delta?)
    ensures Consume(items) == Streamed(deltas, if i == |items| then Completed
                                               else if items[i].Broke? then BrokeOff(items[i].error) else Cut)
  {
    assert deltas + [] == deltas;
  }

  lemma DisplaySnoc(ds: seq<StreamDelta>, d: StreamDelta)
    ensures DisplayAll(ds + [d]) == DisplayAll(ds) + Display(d)
  {
    assert (ds + [d])[..|ds|] == ds;
  }

  /** One retry index bounds request errors and first-delta errors together. */
  lemma {:induction false} RequestsBounded(attempts: nat -> Attempt, retryIndex: nat)
    requires retryIndex <= |RETRY_DELAYS|
    ensures Requests(attempts, retryIndex).requests <= 7 - retryIndex
    ensures Requests(attempts, retryIndex).waited <= 30 * (6 - retryIndex)
    decreases |RETRY_DELAYS| - retryIndex
  {
    hide TryOnce;
    if TryOnce(attempts(retryIndex), retryIndex).RetryAfter? {
      RetriesEnd(attempts(retryIndex), retryIndex);
      RequestsBounded(attempts, retryIndex + 1);
    } else {
      SettledBounded(attempts(retryIndex), retryIndex);
    }
  }

  lemma SettledOnce(attempt: Attempt, retryIndex: nat)
    ensures TryOnce(attempt, retryIndex).Settled? ==> TryOnce(attempt, retryIndex).result.requests == 1
  {
  }

  lemma SettledBounded(attempt: Attempt, retryIndex: nat)
    requires retryIndex <= |RETRY_DELAYS| && TryOnce(attempt, retryIndex).Settled?
    ensures var r := TryOnce(attempt, retryIndex).result;
            r.requests == 1 && r.waited <= 30 && (retryIndex == |RETRY_DELAYS| ==> r.waited == 0)
  {
  }

  /** The delays run out: no request is repeated beyond them. */
  lemma RetriesEnd(attempt: Attempt, retryIndex: nat)
    requires TryOnce(attempt, retryIndex).RetryAfter?
    ensures retryIndex < |RETRY_DELAYS| && TryOnce(attempt, retryIndex).delay <= 30
  {
  }

  // ---- A completion order reaches every call ----

  function Elements(order: seq<nat>): set<nat> {
    set x | x in order
  }

  function UpTo(n: nat): (r: set<nat>)
    ensures |r| == n && forall i :: i in r <==> 0 <= i < n
  {
    if n == 0 then {} else UpTo(n - 1) + {n - 1}
  }

  lemma {:induction false} DistinctCount(order: seq<nat>)
    requires forall i, j :: 0 <= i < j < |order| ==> order[i] != order[j]
    ensures |Elements(order)| == |order|
  {
    if order != [] {
      var last := |order| - 1;
      DistinctCount(order[..last]);
      assert Elements(order) == Elements(order[..last]) + {order[last]};
    }
  }

  lemma SubsetOfSameSize(a: set<nat>, b: set<nat>)
    requires a <= b && |a| == |b|
    ensures a == b
  {
    assert b == a + (b - a);
    assert |b| == |a| + |b - a|;
  }

  lemma OrderCovers(order: seq<nat>, n: nat)
    requires IsOrder(order, n)
    ensures forall i :: 0 <= i < n ==> i in order
  {
    DistinctCount(order);
    SubsetOfSameSize(Elements(order), UpTo(n));
    forall i | 0 <= i < n ensures i in order { assert i in UpTo(n); }
  }

  function ReadResults(a: Agent, script: Script, calls: seq<ToolCall>): seq<string> {
    seq(|calls|, i requires 0 <= i < |calls| => ReadResult(a, script, calls, i))
  }

  /** The slots after results have come in for these indices, one after the other. */
  function Filled(results: seq<string>, order: seq<nat>): (slots: seq<Option<string>>)
    requires forall j :: 0 <= j < |order| ==> order[j] < |results|
    ensures |slots| == |results|
  {
    if order == [] then seq(|results|, i => None)
    else
      var last := order[|order| - 1];
      Filled(results, order[..|order| - 1])[last := Some(results[last])]
  }

  lemma FilledNone(results: seq<string>)
    ensures Filled(results, []) == seq(|results|, i => None)
  {
  }

  lemma FilledStep(results: seq<string>, order: seq<nat>, j: nat)
    requires j < |order| && forall k :: 0 <= k < |order| ==> order[k] < |results|
    ensures Filled(results, order[..j + 1]) == Filled(results, order[..j])[order[j] := Some(results[order[j]])]
  {
    assert order[..j + 1][..j] == order[..j];
  }

  lemma FinishesAre(a: Agent, calls: seq<ToolCall>, script: Script, order: seq<nat>)
    requires IsOrder(order, |calls|)
    ensures var finishes := GroupFinishes(a, script, calls, order);
            |finishes| == |order| && forall j :: 0 <= j < |order| ==>
              finishes[j] == ToolCallFinished(calls[order[j]].id, ReadResult(a, script, calls, order[j]))
  {
    hide ReadResult;
  }

  lemma {:induction false} FilledAt(results: seq<string>, order: seq<nat>, i: nat)
    requires (forall j :: 0 <= j < |order| ==> order[j] < |results|) && i < |results|
    ensures Filled(results, order)[i] == if i in order then Some(results[i]) else None
  {
    if order != [] {
      var front := order[..|order| - 1];
      FilledAt(results, front, i);
      assert order == front + [order[|order| - 1]];
    }
  }

  /** In whatever order the calls complete, each slot ends up with the result of its own call. */
  lemma FilledInAnyOrder(results: seq<string>, order: seq<nat>)
    requires IsOrder(order, |results|)
    ensures forall i :: 0 <= i < |results| ==> Filled(results, order)[i] == Some(results[i])
  {
    OrderCovers(order, |results|);
    forall i | 0 <= i < |results| ensures Filled(results, order)[i] == Some(results[i]) {
      FilledAt(results, order, i);
    }
  }
}
