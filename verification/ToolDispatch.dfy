/** Which tool calls run, which are refused or put to the user, and which batches may run in
    parallel. The registry is given by total functions of the call. */
module ToolDispatch {
  import opened Text
  import opened TurnState

  datatype Capability = Capability(parallelSafe: bool, resourceKey: string)

  /** What the arguments of a question to the user amount to. */
  datatype Question = NotAQuestion | MissingBlocking | Question

  /** `capability` is nothing for an unknown tool or arguments that do not parse. */
  datatype Registry = Registry(
    capability: ToolCall -> Option<Capability>,
    execute: ToolCall -> string,
    question: ToolCall -> Question,
    delegateParses: ToolCall -> bool,
    refusal: ToolCall -> string)

  datatype Policy = Policy(
    registry: Registry, allowed: Option<set<string>>, hasDecisions: bool, hasClarifyGate: bool)

  const DELEGATE_BLOCKED := {"delegate_task", "decision", "clarify"}

  predicate IsAllowed(p: Policy, name: string) {
    p.allowed.None? || (name in p.allowed.value && name !in DELEGATE_BLOCKED)
  }

  datatype Route = Execute | Blocked | Clarify | DurableClarify | Delegate

  function Evaluate(p: Policy, call: ToolCall): Route {
    if !IsAllowed(p, call.name) then Blocked
    else if call.name == "decision" || call.name == "clarify" then
      match p.registry.question(call)
      case NotAQuestion => Execute
      case MissingBlocking => Blocked
      case Question =>
        if p.hasDecisions then DurableClarify else if p.hasClarifyGate then Clarify else Execute
    else if call.name == "delegate_task" then
      if p.registry.delegateParses(call) then Delegate else Blocked
    else Execute
  }

  predicate ParallelReady(p: Policy, call: ToolCall) {
    && IsAllowed(p, call.name)
    && call.name !in {"decision", "clarify", "delegate_task"}
    && p.registry.capability(call).Some?
    && p.registry.capability(call).value.parallelSafe
  }

  /** Stops at the first call that is not ready or whose resource is already taken. */
  function AllFresh(p: Policy, calls: seq<ToolCall>, taken: set<string>): bool
    decreases |calls|
  {
    calls == [] ||
    (ParallelReady(p, calls[0]) &&
     var key := p.registry.capability(calls[0]).value.resourceKey;
     key !in taken && AllFresh(p, calls[1..], taken + {key}))
  }

  predicate ParallelBatchEligible(p: Policy, calls: seq<ToolCall>) {
    |calls| >= 2 && AllFresh(p, calls, {})
  }

  /** A tool that may be used, asks nobody, delegates nothing, and declares that it only reads. */
  predicate IsParallelRead(p: Policy, call: ToolCall) {
    && (p.allowed.None? || call.name in p.allowed.value)
    && call.name != "decision" && call.name != "clarify" && call.name != "delegate_task"
    && p.registry.capability(call).Some? && p.registry.capability(call).value.parallelSafe
  }

  function Key(p: Policy, call: ToolCall): string
    requires IsParallelRead(p, call)
  {
    p.registry.capability(call).value.resourceKey
  }

  predicate KeysApart(p: Policy, calls: seq<ToolCall>) {
    && (forall i :: 0 <= i < |calls| ==> IsParallelRead(p, calls[i]))
    && (forall i, j :: 0 <= i < j < |calls| ==> Key(p, calls[i]) != Key(p, calls[j]))
  }

  lemma ReadyIff(p: Policy, call: ToolCall)
    ensures ParallelReady(p, call) <==> IsParallelRead(p, call)
  {
  }

  lemma {:induction false} AllFreshIff(p: Policy, calls: seq<ToolCall>, taken: set<string>)
    ensures AllFresh(p, calls, taken) <==>
            KeysApart(p, calls) && forall i :: 0 <= i < |calls| ==> Key(p, calls[i]) !in taken
    decreases |calls|
  {
    hide ParallelReady, IsParallelRead;
    if calls != [] {
      ReadyIff(p, calls[0]);
      if IsParallelRead(p, calls[0]) {
        var key, rest := Key(p, calls[0]), calls[1..];
        AllFreshIff(p, rest, taken + {key});
        assert forall i :: 1 <= i < |calls| ==> calls[i] == rest[i - 1];
        assert forall i :: 0 <= i < |rest| ==> rest[i] == calls[i + 1];
      }
    }
  }

  /** A batch may run in parallel exactly when it has at least two calls, each is a parallel-safe
      read, and no two touch the same resource; so the order of the calls does not matter. */
  lemma EligibleIff(p: Policy, calls: seq<ToolCall>)
    ensures ParallelBatchEligible(p, calls) <==> |calls| >= 2 && KeysApart(p, calls)
  {
    AllFreshIff(p, calls, {});
  }

  /** Parallel and serial dispatch apply the same policy: every call of an eligible batch is one
      the serial path would execute. */
  lemma EligibleMeansExecute(p: Policy, calls: seq<ToolCall>, i: nat)
    requires ParallelBatchEligible(p, calls) && i < |calls|
    ensures Evaluate(p, calls[i]) == Execute
  {
    EligibleIff(p, calls);
  }
}
