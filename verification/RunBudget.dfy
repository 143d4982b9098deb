/** Run budgets: inclusive limits on tool calls, run time and tokens, and the division of what is
    left among delegated children. */
module RunBudget {
  import opened Text
  import Decimal

  datatype Budget = Budget(maxToolCalls: Option<nat>, maxRuntime: Option<nat>, maxTotalTokens: Option<nat>)

  function SaturatingAdd(a: nat, b: nat): nat {
    if a + b > Decimal.U32_MAX then Decimal.U32_MAX else a + b
  }

  function SaturatingSub(a: nat, b: nat): nat {
    if a < b then 0 else a - b
  }

  function Min(a: nat, b: nat): nat {
    if a <= b then a else b
  }

  function Max(a: nat, b: nat): nat {
    if a <= b then b else a
  }

  predicate TokenLimitReached(b: Budget, total: nat) {
    b.maxTotalTokens.Some? && total >= b.maxTotalTokens.value
  }

  predicate TokenLimitExceeded(b: Budget, total: nat) {
    b.maxTotalTokens.Some? && total > b.maxTotalTokens.value
  }

  predicate RuntimeLimitReached(b: Budget, elapsed: nat) {
    b.maxRuntime.Some? && elapsed >= b.maxRuntime.value
  }

  predicate ToolBatchFits(b: Budget, completed: nat, batchSize: nat) {
    b.maxToolCalls.None? || SaturatingAdd(completed, Min(batchSize, Decimal.U32_MAX)) <= b.maxToolCalls.value
  }

  predicate ToolLimitReached(b: Budget, completed: nat) {
    b.maxToolCalls.Some? && completed >= b.maxToolCalls.value
  }

  // ---- Dividing a pool among children ----

  function AllocateChildBudget(total: nat, count: nat, position: nat): nat {
    if count == 0 then 0 else total / count + (if position < total % count then 1 else 0)
  }

  /** The shares of the first `upTo` children. */
  function Allotted(total: nat, count: nat, upTo: nat): nat {
    if upTo == 0 then 0 else Allotted(total, count, upTo - 1) + AllocateChildBudget(total, count, upTo - 1)
  }

  lemma {:induction false} AllottedIs(total: nat, count: nat, upTo: nat)
    requires 0 < count
    ensures Allotted(total, count, upTo) == upTo * (total / count) + Min(upTo, total % count)
  {
    if upTo > 0 {
      AllottedIs(total, count, upTo - 1);
      assert upTo * (total / count) == (upTo - 1) * (total / count) + total / count;
    }
  }

  /** The shares add up to the whole, and no two differ by more than one. */
  lemma AllotmentConserves(total: nat, count: nat)
    requires 0 < count
    ensures Allotted(total, count, count) == total
    ensures forall i: nat, j: nat ::
              AllocateChildBudget(total, count, i) <= AllocateChildBudget(total, count, j) + 1
    ensures total >= count ==> forall i: nat :: AllocateChildBudget(total, count, i) >= 1
  {
    AllottedIs(total, count, count);
    assert total == count * (total / count) + total % count;
    if total >= count { assert total / count >= 1; }
  }

  /** The share is the whole in so many equal parts, rounded up for the first children and down for the rest. */
  predicate IsShare(share: nat, total: nat, count: nat, position: nat)
    requires position < count
  {
    count * share <= total + (count - 1 - position) < count * share + count
  }

  lemma ShareIs(total: nat, count: nat, position: nat)
    requires position < count
    ensures IsShare(AllocateChildBudget(total, count, position), total, count, position)
  {
    var q, r := total / count, total % count;
    assert total == count * q + r;
    assert count * (q + 1) == count * q + count;
  }

  datatype ChildTask = ChildTask(index: nat, maxTurns: nat, maxToolCalls: Option<nat>, maxTotalTokens: Option<nat>)

  /** A quarter of the tokens left, at least a thousand, stays with the parent. */
  function ChildTokenPool(remaining: nat): (pool: nat)
    ensures remaining <= 1000 ==> pool == 0
    ensures 1000 <= remaining <= 4000 ==> remaining - pool == 1000
    ensures 4000 <= remaining ==> pool <= remaining && 4 * (remaining - pool) <= remaining < 4 * (remaining - pool + 1)
  {
    SaturatingSub(remaining, Min(Max(remaining / 4, 1000), remaining))
  }

  function Quota(pool: Option<nat>, count: nat, position: nat): Option<nat> {
    if pool.None? then None else Some(AllocateChildBudget(pool.value, count, position))
  }

  function Allot(task: ChildTask, api: nat, tools: Option<nat>, tokens: Option<nat>, count: nat, position: nat): ChildTask {
    task.(maxTurns := Min(task.maxTurns, Max(AllocateChildBudget(api, count, position), 1)),
          maxToolCalls := Quota(tools, count, position),
          maxTotalTokens := Quota(tokens, count, position))
  }

  /** The budgets written into the tasks of one delegation; none is started when the model turns
      left are fewer than the tasks. */
  method AllotTasks(tasks: array<ChildTask>, remainingApi: nat, remainingTools: Option<nat>, remainingTokens: Option<nat>)
    returns (started: bool)
    modifies tasks
    ensures started <==> remainingApi >= tasks.Length
    ensures !started ==> tasks[..] == old(tasks[..])
    ensures started ==>
              var pool := if remainingTokens.None? then None else Some(ChildTokenPool(remainingTokens.value));
              forall i :: 0 <= i < tasks.Length ==>
                tasks[i] == Allot(old(tasks[i]), remainingApi, remainingTools, pool, tasks.Length, i)
  {
    var count := tasks.Length;
    if remainingApi < count {
      return false;
    }
    var pool := if remainingTokens.None? then None else Some(ChildTokenPool(remainingTokens.value));
    for position := 0 to count
      invariant forall i :: 0 <= i < position ==>
                  tasks[i] == Allot(old(tasks[i]), remainingApi, remainingTools, pool, count, i)
      invariant forall i :: position <= i < count ==> tasks[i] == old(tasks[i])
    {
      tasks[position] := Allot(tasks[position], remainingApi, remainingTools, pool, count, position);
    }
    return true;
  }

  function TotalTurns(tasks: seq<ChildTask>): nat {
    if tasks == [] then 0 else TotalTurns(tasks[..|tasks| - 1]) + tasks[|tasks| - 1].maxTurns
  }

  function TotalQuota(tasks: seq<ChildTask>, tools: bool): nat {
    if tasks == [] then 0
    else
      var quota := if tools then tasks[|tasks| - 1].maxToolCalls else tasks[|tasks| - 1].maxTotalTokens;
      TotalQuota(tasks[..|tasks| - 1], tools) + (if quota.None? then 0 else quota.value)
  }

  lemma {:induction false} AllottedTotals(tasks: seq<ChildTask>, before: seq<ChildTask>, api: nat, tools: Option<nat>,
                                          tokens: Option<nat>, count: nat)
    requires |tasks| == |before| <= count && count <= api
    requires forall i :: 0 <= i < |tasks| ==> tasks[i] == Allot(before[i], api, tools, tokens, count, i)
    ensures TotalTurns(tasks) <= Allotted(api, count, |tasks|)
    ensures tools.Some? ==> TotalQuota(tasks, true) == Allotted(tools.value, count, |tasks|)
    ensures tokens.Some? ==> TotalQuota(tasks, false) == Allotted(tokens.value, count, |tasks|)
  {
    if tasks != [] {
      var last := |tasks| - 1;
      AllottedTotals(tasks[..last], before[..last], api, tools, tokens, count);
      AllotmentConserves(api, count);
    }
  }

  /** The task keeps its index, gets its share of each pool there is, and of turns no more than it asked for. */
  predicate GetsShares(task: ChildTask, before: ChildTask, api: nat, tools: Option<nat>, tokens: Option<nat>,
                       count: nat, i: nat)
    requires i < count
  {
    && task.index == before.index && task.maxTurns <= before.maxTurns
    && (task.maxTurns == before.maxTurns || IsShare(task.maxTurns, api, count, i))
    && (task.maxTurns == before.maxTurns ==> count * task.maxTurns <= api + (count - 1 - i))
    && (if tools.None? then task.maxToolCalls.None?
        else task.maxToolCalls.Some? && IsShare(task.maxToolCalls.value, tools.value, count, i))
    && (if tokens.None? then task.maxTotalTokens.None?
        else task.maxTotalTokens.Some? && IsShare(task.maxTotalTokens.value, tokens.value, count, i))
  }

  lemma TurnsAreShare(own: nat, share: nat, api: nat, count: nat, i: nat)
    requires i < count && IsShare(share, api, count, i)
    ensures own <= share ==> count * own <= api + (count - 1 - i)
  {
    if own <= share { MoreOfEach(count, own, share); }
  }

  lemma MoreOfEach(count: nat, a: nat, b: nat)
    requires a <= b
    ensures count * a <= count * b
  {
  }

  lemma AllotGetsShares(task: ChildTask, api: nat, tools: Option<nat>, tokens: Option<nat>, count: nat, i: nat)
    requires i < count <= api
    ensures GetsShares(Allot(task, api, tools, tokens, count, i), task, api, tools, tokens, count, i)
  {
    hide AllocateChildBudget, IsShare;
    AllotmentConserves(api, count);
    ShareIs(api, count, i);
    TurnsAreShare(task.maxTurns, AllocateChildBudget(api, count, i), api, count, i);
    if tools.Some? { ShareIs(tools.value, count, i); }
    if tokens.Some? { ShareIs(tokens.value, count, i); }
  }

  /** Together the children get at most the model turns left, exactly the tool calls left, and
      exactly the tokens left beyond the parent's reserve. */
  lemma DelegationConserves(tasks: seq<ChildTask>, before: seq<ChildTask>, api: nat, tools: Option<nat>, tokens: Option<nat>)
    requires tasks != [] && |tasks| == |before| <= api
    requires forall i :: 0 <= i < |tasks| ==> tasks[i] == Allot(before[i], api, tools, tokens, |tasks|, i)
    ensures TotalTurns(tasks) <= api
    ensures tools.Some? ==> TotalQuota(tasks, true) == tools.value
    ensures tokens.Some? ==> TotalQuota(tasks, false) == tokens.value
    ensures forall i :: 0 <= i < |tasks| ==> GetsShares(tasks[i], before[i], api, tools, tokens, |tasks|, i)
  {
    AllottedTotals(tasks, before, api, tools, tokens, |tasks|);
    forall i | 0 <= i < |tasks| ensures GetsShares(tasks[i], before[i], api, tools, tokens, |tasks|, i) {
      AllotGetsShares(before[i], api, tools, tokens, |tasks|, i);
    }
    AllotmentConserves(api, |tasks|);
    if tools.Some? { AllotmentConserves(tools.value, |tasks|); }
    if tokens.Some? { AllotmentConserves(tokens.value, |tasks|); }
  }
}
