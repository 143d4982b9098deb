/** Cancelling sandbox executions. An execution and a cancellation are two tasks that share a
    registration map and a set of cancelled ids; each writes its own entry before it reads the
    other's. Every lock section is one step, and the results hold for all interleavings of any
    number of executions (with distinct ids and process ids) and cancellations. */
module CancelProtocol {
  import opened Text

  type Id = string
  type Pid = nat

  // ---- Execution ids ----

  predicate HasWhitespace(s: string) {
    exists i :: 0 <= i < |s| && IsWhitespace(s[i])
  }

  predicate AcceptedId(id: Id) {
    Trim(id) != "" && |id| <= 256 && !HasWhitespace(id)
  }

  /** The id a cancellation request acts on, if it is not refused. */
  function CancelTarget(raw: string): Option<Id> {
    var id := Trim(raw);
    if id == "" || |id| > 256 || HasWhitespace(id) then None else Some(id)
  }

  /** An id is up to 256 characters, none of them white space, and at least one. */
  lemma AcceptedIff(id: Id)
    ensures AcceptedId(id) <==> 1 <= |id| <= 256 && forall i :: 0 <= i < |id| ==> !IsWhitespace(id[i])
  {
    hide IsWhitespace, Trim;
    TrimFixed(id);
    var i, j := TrimIs(id);
    if Trim(id) == "" && id != "" { assert IsWhitespace(id[0]); }
  }

  /** Exactly the ids that an execution may carry are reached unchanged by a cancellation. */
  lemma AcceptedIdsAreCancellable(id: Id)
    ensures AcceptedId(id) <==> CancelTarget(id) == Some(id)
  {
    TrimFixed(id);
    if AcceptedId(id) && id != "" {
      assert !IsWhitespace(id[0]) && !IsWhitespace(id[|id| - 1]);
    }
  }

  // ---- Shared state and its lock sections ----

  datatype Shared = Shared(executions: map<Id, Pid>, cancelled: set<Id>)

  function InsertCancelled(sh: Shared, id: Id): Shared {
    sh.(cancelled := sh.cancelled + {id})
  }

  function Register(sh: Shared, id: Id, pid: Pid): Shared {
    sh.(executions := sh.executions[id := pid])
  }

  function RemoveExecution(sh: Shared, id: Id): Shared {
    sh.(executions := sh.executions - {id})
  }

  function RemoveCancelled(sh: Shared, id: Id): Shared {
    sh.(cancelled := sh.cancelled - {id})
  }

  /** The runner's registries as the source keeps them; every method is one lock section,
      except `FinishExecution`, which is two. */
  class RunnerState {
    var executions: map<Id, Pid>
    var cancelledExecutions: set<Id>

    ghost function View(): Shared
      reads this
    {
      Shared(executions, cancelledExecutions)
    }

    constructor ()
      ensures View() == Shared(map[], {})
    {
      executions, cancelledExecutions := map[], {};
    }

    method ExecutionCancelled(id: Option<Id>) returns (r: bool)
      ensures r <==> id.Some? && id.value in View().cancelled
    {
      r := id.Some? && id.value in cancelledExecutions;
    }

    method RegisterExecution(id: Option<Id>, pid: Pid)
      modifies this
      ensures View() == if id.Some? then Register(old(View()), id.value, pid) else old(View())
    {
      if id.Some? { executions := executions[id.value := pid]; }
    }

    method FinishExecution(id: Option<Id>)
      modifies this
      ensures View() == if id.Some? then RemoveCancelled(RemoveExecution(old(View()), id.value), id.value) else old(View())
    {
      if id.Some? {
        executions := executions - {id.value};
        cancelledExecutions := cancelledExecutions - {id.value};
      }
    }

    /** Returns the process to terminate, if one is registered. */
    method CancelExecution(raw: string) returns (accepted: bool, process: Option<Pid>)
      modifies this
      ensures accepted <==> CancelTarget(raw).Some?
      ensures !accepted ==> View() == old(View()) && process.None?
      ensures accepted ==>
                var id := CancelTarget(raw).value;
                View() == InsertCancelled(old(View()), id) &&
                process == if id in old(executions) then Some(old(executions)[id]) else None
    {
      var id := Trim(raw);
      if id == "" || |id| > 256 || HasWhitespace(id) {
        return false, None;
      }
      cancelledExecutions := cancelledExecutions + {id};
      return true, if id in executions then Some(executions[id]) else None;
    }
  }

  // ---- Tasks ----

  /** `Execute` waits for its process; `StartProcess` hands it to the process table and returns. */
  datatype Kind = Execute | StartProcess

  datatype Pc =
    | PreCheck | AbortExecution | AbortCancelled | Refused
    | Spawn | Registering | PostCheck | Terminate
    | Waiting | TimeoutKill | Reap | Publish
    | FinishExecution | FinishCancelled | Returned

  datatype Exec = Exec(kind: Kind, pid: Pid, pc: Pc)

  /** `Done` remembers whether the execution had already been deregistered when the cancellation looked. */
  datatype CancelPc = Inserting | LookingUp | Signalling(pid: Pid) | Done(late: bool)

  datatype Cancel = Cancel(target: Id, pc: CancelPc)

  datatype State = State(
    shared: Shared,
    execs: map<Id, Exec>,
    cancels: map<nat, Cancel>,
    signalled: set<Pid>,
    reaped: set<Pid>)

  datatype Step =
    | ExecStep(id: Id, timedOut: bool)
    | CancelStep(c: nat)
    | WatcherReap(id: Id)

  function Goto(s: State, id: Id, pc: Pc): State
    requires id in s.execs
  {
    s.(execs := s.execs[id := s.execs[id].(pc := pc)])
  }

  /** One lock section, system call or completed wait of the execution `id`. */
  function ExecNext(s: State, id: Id, timedOut: bool): State
    requires id in s.execs
  {
    var e := s.execs[id];
    match e.pc
    case PreCheck => Goto(s, id, if id in s.shared.cancelled then AbortExecution else Spawn)
    case AbortExecution => Goto(s, id, AbortCancelled).(shared := RemoveExecution(s.shared, id))
    case AbortCancelled => Goto(s, id, Refused).(shared := RemoveCancelled(s.shared, id))
    case Refused => s
    case Spawn => Goto(s, id, Registering)
    case Registering => Goto(s, id, PostCheck).(shared := Register(s.shared, id, e.pid))
    case PostCheck =>
      Goto(s, id, if id in s.shared.cancelled then Terminate else if e.kind.Execute? then Waiting else Publish)
    case Terminate => Goto(s, id, if e.kind.Execute? then Waiting else Reap).(signalled := s.signalled + {e.pid})
    case Waiting =>
      if timedOut then Goto(s, id, TimeoutKill) else Goto(s, id, FinishExecution).(reaped := s.reaped + {e.pid})
    case TimeoutKill => Goto(s, id, Reap).(signalled := s.signalled + {e.pid})
    case Reap => Goto(s, id, FinishExecution).(reaped := s.reaped + {e.pid})
    case Publish => Goto(s, id, FinishExecution)
    case FinishExecution => Goto(s, id, FinishCancelled).(shared := RemoveExecution(s.shared, id))
    case FinishCancelled => Goto(s, id, Returned).(shared := RemoveCancelled(s.shared, id))
    case Returned => s
  }

  function CancelGoto(s: State, c: nat, pc: CancelPc): State
    requires c in s.cancels
  {
    s.(cancels := s.cancels[c := s.cancels[c].(pc := pc)])
  }

  function CancelNext(s: State, c: nat): State
    requires c in s.cancels
  {
    var k := s.cancels[c];
    match k.pc
    case Inserting => CancelGoto(s, c, LookingUp).(shared := InsertCancelled(s.shared, k.target))
    case LookingUp =>
      if k.target in s.shared.executions then CancelGoto(s, c, Signalling(s.shared.executions[k.target]))
      else CancelGoto(s, c, Done(k.target in s.execs && Deregistered(s.execs[k.target].pc)))
    case Signalling(pid) => CancelGoto(s, c, Done(false)).(signalled := s.signalled + {pid})
    case Done(_) => s
  }

  /** A step of a task that is not there, or has nothing left to do, changes nothing. */
  function Next(s: State, step: Step): State {
    match step
    case ExecStep(id, timedOut) => if id in s.execs then ExecNext(s, id, timedOut) else s
    case CancelStep(c) => if c in s.cancels then CancelNext(s, c) else s
    case WatcherReap(id) =>
      if id in s.execs && s.execs[id].kind.StartProcess? && HandedOver(s.execs[id].pc)
      then s.(reaped := s.reaped + {s.execs[id].pid}) else s
  }

  function Run(s: State, steps: seq<Step>): State
    decreases |steps|
  {
    if steps == [] then s else Run(Next(s, steps[0]), steps[1..])
  }

  ghost predicate Init(s: State) {
    && s.shared == Shared(map[], {})
    && (forall id <- s.execs :: s.execs[id].pc == PreCheck)
    && (forall i <- s.execs, j <- s.execs :: i != j ==> s.execs[i].pid != s.execs[j].pid)
    && (forall c <- s.cancels :: s.cancels[c].pc == Inserting)
    && s.signalled == {} && s.reaped == {}
  }

  /** From here on the process of a start has its own watcher. */
  predicate HandedOver(pc: Pc) {
    pc in {FinishExecution, FinishCancelled, Returned}
  }

  // ---- Invariant ----

  /** Between registration and deregistration. */
  predicate IsRegistered(pc: Pc) {
    pc in {PostCheck, Terminate, Waiting, TimeoutKill, Reap, Publish, FinishExecution}
  }

  predicate Deregistered(pc: Pc) {
    pc in {FinishCancelled, Returned}
  }

  predicate NeverSpawned(pc: Pc) {
    pc in {AbortExecution, AbortCancelled, Refused}
  }

  /** Still ahead of the check after registration, or ordered by it to terminate. */
  predicate Ahead(pc: Pc) {
    pc in {PreCheck, Spawn, Registering, PostCheck, Terminate}
  }

  predicate ExecInv(s: State, id: Id)
    requires id in s.execs
  {
    var e := s.execs[id];
    && (id in s.shared.executions <==> IsRegistered(e.pc))
    && (id in s.shared.executions ==> s.shared.executions[id] == e.pid)
    && (e.kind.Execute? && (e.pc.FinishExecution? || Deregistered(e.pc)) ==> e.pid in s.reaped)
    && (e.pc.Publish? ==> e.kind.StartProcess?)
    && (e.pc.Reap? ==> e.pid in s.signalled)
  }

  predicate CancelInv(s: State, c: nat)
    requires c in s.cancels && s.cancels[c].target in s.execs
  {
    var k := s.cancels[c];
    var e := s.execs[k.target];
    && (k.pc.Inserting? || k.target in s.shared.cancelled || e.pc.Refused? || e.pc.Returned?)
    && (k.pc.Signalling? ==> k.pc.pid == e.pid)
    && (k.pc.Done? ==> Handled(s, k) && (k.pc.late ==> Deregistered(e.pc)))
  }

  /** What a returned cancellation guarantees. */
  predicate Handled(s: State, k: Cancel)
    requires k.pc.Done? && k.target in s.execs
  {
    var e := s.execs[k.target];
    || e.pid in s.signalled
    || e.pid in s.reaped
    || NeverSpawned(e.pc)
    || Ahead(e.pc)
    || (k.pc.late && e.kind.StartProcess? && Deregistered(e.pc))
  }

  ghost predicate Inv(s: State) {
    && (forall i <- s.execs, j <- s.execs :: i != j ==> s.execs[i].pid != s.execs[j].pid)
    && (forall id <- s.execs :: ExecInv(s, id))
    && (forall c <- s.cancels :: s.cancels[c].target in s.execs ==> CancelInv(s, c))
  }

  /** An execution's step touches its own entries only; signals and reaped processes accumulate. */
  lemma ExecFrame(s: State, id: Id, timedOut: bool)
    requires id in s.execs
    ensures var t := ExecNext(s, id, timedOut);
            && t.cancels == s.cancels
            && t.execs == s.execs[id := s.execs[id].(pc := t.execs[id].pc)]
            && t.shared.executions - {id} == s.shared.executions - {id}
            && t.shared.cancelled - {id} == s.shared.cancelled - {id}
            && s.signalled <= t.signalled && s.reaped <= t.reaped
  {
    ExecFrameTasks(s, id, timedOut);
    ExecFrameShared(s, id, timedOut);
    hide ExecNext;
  }

  lemma ExecFrameTasks(s: State, id: Id, timedOut: bool)
    requires id in s.execs
    ensures var t := ExecNext(s, id, timedOut);
            && t.cancels == s.cancels && id in t.execs && t.execs == s.execs[id := s.execs[id].(pc := t.execs[id].pc)]
            && s.signalled <= t.signalled && s.reaped <= t.reaped
  {
  }

  lemma ExecFrameShared(s: State, id: Id, timedOut: bool)
    requires id in s.execs
    ensures var t := ExecNext(s, id, timedOut);
            && t.shared.executions - {id} == s.shared.executions - {id}
            && t.shared.cancelled - {id} == s.shared.cancelled - {id}
  {
  }

  lemma ExecKeepsOwn(s: State, id: Id, timedOut: bool)
    requires id in s.execs && ExecInv(s, id)
    ensures ExecInv(ExecNext(s, id, timedOut), id)
  {
    ExecKeepsPlace(s, id, timedOut);
    ExecKeepsOutcome(s, id, timedOut);
    hide ExecNext;
  }

  lemma ExecKeepsPlace(s: State, id: Id, timedOut: bool)
    requires id in s.execs && ExecInv(s, id)
    ensures var t := ExecNext(s, id, timedOut);
            && id in t.execs
            && (id in t.shared.executions <==> IsRegistered(t.execs[id].pc))
            && (id in t.shared.executions ==> t.shared.executions[id] == t.execs[id].pid)
  {
  }

  lemma ExecKeepsOutcome(s: State, id: Id, timedOut: bool)
    requires id in s.execs && ExecInv(s, id)
    ensures var t := ExecNext(s, id, timedOut);
            && id in t.execs
            && var e := t.execs[id];
               && (e.kind.Execute? && (e.pc.FinishExecution? || Deregistered(e.pc)) ==> e.pid in t.reaped)
               && (e.pc.Publish? ==> e.kind.StartProcess?)
               && (e.pc.Reap? ==> e.pid in t.signalled)
  {
  }

  lemma FrameKeepsExec(s: State, t: State, id: Id, j: Id)
    requires j in s.execs && j in t.execs && ExecInv(s, j) && j != id
    requires t.execs[j] == s.execs[j] && t.shared.executions - {id} == s.shared.executions - {id}
    requires s.signalled <= t.signalled && s.reaped <= t.reaped
    ensures ExecInv(t, j)
  {
    assert j in t.shared.executions <==> j in t.shared.executions - {id};
    assert j in s.shared.executions <==> j in s.shared.executions - {id};
    if j in s.shared.executions - {id} {
      assert (t.shared.executions - {id})[j] == (s.shared.executions - {id})[j];
    }
  }

  lemma ExecKeepsOwnCancel(s: State, timedOut: bool, c: nat)
    requires c in s.cancels && s.cancels[c].target in s.execs
    requires CancelInv(s, c) && ExecInv(s, s.cancels[c].target)
    ensures CancelInv(ExecNext(s, s.cancels[c].target, timedOut), c)
  {
  }

  lemma FrameKeepsCancel(s: State, t: State, id: Id, c: nat)
    requires t.cancels == s.cancels && c in s.cancels && s.cancels[c].target != id
    requires s.cancels[c].target in s.execs && s.cancels[c].target in t.execs
    requires t.execs[s.cancels[c].target] == s.execs[s.cancels[c].target]
    requires t.shared.cancelled - {id} == s.shared.cancelled - {id}
    requires s.signalled <= t.signalled && s.reaped <= t.reaped
    requires CancelInv(s, c)
    ensures CancelInv(t, c)
  {
    assert s.cancels[c].target in t.shared.cancelled <==> s.cancels[c].target in t.shared.cancelled - {id};
    assert s.cancels[c].target in s.shared.cancelled <==> s.cancels[c].target in s.shared.cancelled - {id};
  }

  lemma ExecKeepsInv(s: State, id: Id, timedOut: bool)
    requires Inv(s) && id in s.execs
    ensures Inv(ExecNext(s, id, timedOut))
  {
    hide ExecInv;
    hide CancelInv;
    hide ExecNext;
    var t := ExecNext(s, id, timedOut);
    ExecFrame(s, id, timedOut);
    forall j <- t.execs ensures ExecInv(t, j) {
      if j == id { ExecKeepsOwn(s, id, timedOut); } else { FrameKeepsExec(s, t, id, j); }
    }
    forall c <- t.cancels | t.cancels[c].target in t.execs ensures CancelInv(t, c) {
      if t.cancels[c].target == id { ExecKeepsOwnCancel(s, timedOut, c); } else { FrameKeepsCancel(s, t, id, c); }
    }
  }

  lemma CancelKeepsCancel(s: State, c: nat, d: nat)
    requires c in s.cancels && d in s.cancels && s.cancels[d].target in s.execs
    requires CancelInv(s, d) && ExecInv(s, s.cancels[d].target)
    ensures CancelInv(CancelNext(s, c), d)
  {
  }

  lemma CancelKeepsInv(s: State, c: nat)
    requires Inv(s) && c in s.cancels
    ensures Inv(CancelNext(s, c))
  {
    hide CancelInv;
    var t := CancelNext(s, c);
    forall j <- t.execs ensures ExecInv(t, j) { assert ExecInv(s, j); }
    forall d <- t.cancels | t.cancels[d].target in t.execs ensures CancelInv(t, d) { CancelKeepsCancel(s, c, d); }
  }

  lemma StepKeepsInv(s: State, step: Step)
    requires Inv(s)
    ensures Inv(Next(s, step))
  {
    match step
    case ExecStep(id, timedOut) => if id in s.execs { ExecKeepsInv(s, id, timedOut); }
    case CancelStep(c) => if c in s.cancels { CancelKeepsInv(s, c); }
    case WatcherReap(id) =>
      var t := Next(s, step);
      forall j <- t.execs ensures ExecInv(t, j) { assert ExecInv(s, j); }
      forall d <- t.cancels | t.cancels[d].target in t.execs ensures CancelInv(t, d) { assert CancelInv(s, d); }
  }

  lemma {:induction false} RunKeepsInv(s: State, steps: seq<Step>)
    requires Inv(s)
    ensures Inv(Run(s, steps))
    decreases |steps|
  {
    if steps != [] {
      StepKeepsInv(s, steps[0]);
      RunKeepsInv(Next(s, steps[0]), steps[1..]);
    }
  }

  // ---- No cancellation is lost ----

  /** In every interleaving, once a cancellation of a running `execute` has returned, the process
      was never spawned, has been signalled, has been reaped, or is still ahead of the check. */
  lemma NoCancelLost(s: State, steps: seq<Step>, c: nat)
    requires Init(s)
    requires var t := Run(s, steps);
             c in t.cancels && t.cancels[c].pc.Done? && t.cancels[c].target in t.execs &&
             t.execs[t.cancels[c].target].kind.Execute?
    ensures var t := Run(s, steps);
            var e := t.execs[t.cancels[c].target];
            e.pid in t.signalled || e.pid in t.reaped || NeverSpawned(e.pc) || Ahead(e.pc)
  {
    RunKeepsInv(s, steps);
    var t := Run(s, steps);
    assert CancelInv(t, c) && ExecInv(t, t.cancels[c].target);
  }

  /** A background start escapes a returned cancellation only if that looked after the start had handed its
      process over and deregistered it; `EscapesIff` says exactly when. */
  lemma StartEscapesOnlyAfterHandOver(s: State, steps: seq<Step>, c: nat)
    requires Init(s)
    requires var t := Run(s, steps);
             c in t.cancels && t.cancels[c].pc.Done? && t.cancels[c].target in t.execs
    ensures var t := Run(s, steps);
            var e := t.execs[t.cancels[c].target];
            e.pid in t.signalled || e.pid in t.reaped || NeverSpawned(e.pc) || Ahead(e.pc) ||
            (t.cancels[c].pc.late && e.kind.StartProcess? && Deregistered(e.pc))
  {
    RunKeepsInv(s, steps);
    assert CancelInv(Run(s, steps), c);
  }

  /** How many own steps an execution ahead of its check needs to act on a cancellation. */
  function StepsAhead(pc: Pc): nat {
    match pc
    case PreCheck => 1
    case Spawn => 4
    case Registering => 3
    case PostCheck => 2
    case Terminate => 1
    case _ => 0
  }

  function OwnSteps(steps: seq<Step>, id: Id): nat {
    if steps == [] then 0
    else (if steps[0].ExecStep? && steps[0].id == id then 1 else 0) + OwnSteps(steps[1..], id)
  }

  predicate Settled(s: State, id: Id)
    requires id in s.execs
  {
    s.execs[id].pid in s.signalled || NeverSpawned(s.execs[id].pc)
  }

  lemma SettledStays(s: State, step: Step, id: Id)
    requires id in s.execs && Settled(s, id)
    ensures id in Next(s, step).execs && Settled(Next(s, step), id)
  {
  }

  lemma OneStepCloser(s: State, step: Step, c: nat)
    requires c in s.cancels && s.cancels[c].pc.Done? && s.cancels[c].target in s.execs && CancelInv(s, c)
    requires var id := s.cancels[c].target; Ahead(s.execs[id].pc) && !Settled(s, id)
    ensures var id := s.cancels[c].target; var t := Next(s, step);
            && id in t.execs && c in t.cancels && t.cancels[c] == s.cancels[c]
            && (Settled(t, id) ||
                (Ahead(t.execs[id].pc) &&
                 StepsAhead(t.execs[id].pc) + (if step.ExecStep? && step.id == id then 1 else 0) <= StepsAhead(s.execs[id].pc)))
  {
  }

  /** An execution that is still ahead when a cancellation has returned acts on it within at most
      four steps of its own, whatever the other tasks do meanwhile. */
  lemma {:induction false} AheadIsSignalled(s: State, steps: seq<Step>, c: nat)
    requires Inv(s) && c in s.cancels && s.cancels[c].pc.Done? && s.cancels[c].target in s.execs
    requires Ahead(s.execs[s.cancels[c].target].pc)
    requires OwnSteps(steps, s.cancels[c].target) >= StepsAhead(s.execs[s.cancels[c].target].pc)
    ensures s.cancels[c].target in Run(s, steps).execs && Settled(Run(s, steps), s.cancels[c].target)
    decreases |steps|
  {
    hide Inv;
    hide Next;
    var id := s.cancels[c].target;
    InvAt(s, c);
    if Settled(s, id) {
      SettledForever(s, steps, id);
    } else if steps != [] {
      var t := Next(s, steps[0]);
      OneStepCloser(s, steps[0], c);
      StepKeepsInv(s, steps[0]);
      if Settled(t, id) { SettledForever(t, steps[1..], id); } else { AheadIsSignalled(t, steps[1..], c); }
    }
  }

  lemma InvAt(s: State, c: nat)
    requires Inv(s) && c in s.cancels && s.cancels[c].target in s.execs
    ensures CancelInv(s, c)
  {
  }

  lemma {:induction false} SettledForever(s: State, steps: seq<Step>, id: Id)
    requires id in s.execs && Settled(s, id)
    ensures id in Run(s, steps).execs && Settled(Run(s, steps), id)
    decreases |steps|
  {
    hide Settled;
    hide Next;
    if steps != [] {
      SettledStays(s, steps[0], id);
      SettledForever(Next(s, steps[0]), steps[1..], id);
    }
  }

  /** When every task has run to its end, no registration is left behind. */
  lemma NothingStaysRegistered(s: State, steps: seq<Step>)
    requires Init(s)
    requires forall id <- Run(s, steps).execs ::
               Run(s, steps).execs[id].pc.Refused? || Run(s, steps).execs[id].pc.Returned?
    ensures Run(s, steps).shared.executions.Keys !! s.execs.Keys
  {
    RunKeepsInv(s, steps);
    RunKeepsTasks(s, steps);
    var t := Run(s, steps);
    forall id <- t.execs ensures id !in t.shared.executions { assert ExecInv(t, id); }
  }

  lemma {:induction false} RunKeepsTasks(s: State, steps: seq<Step>)
    ensures Run(s, steps).execs.Keys == s.execs.Keys
    decreases |steps|
  {
    if steps != [] { RunKeepsTasks(Next(s, steps[0]), steps[1..]); }
  }

  // ---- What stays in the cancel set ----

  /** The execution has run to its end, or there is none of this name. */
  predicate Over(s: State, id: Id) {
    id in s.execs ==> s.execs[id].pc.Refused? || s.execs[id].pc.Returned?
  }

  /** The step records a cancellation for an execution that is over. */
  predicate InsertsLate(s: State, step: Step, id: Id) {
    && step.CancelStep? && step.c in s.cancels
    && s.cancels[step.c].pc.Inserting? && s.cancels[step.c].target == id
    && Over(s, id)
  }

  predicate CancelledLate(s: State, steps: seq<Step>, id: Id)
    decreases |steps|
  {
    steps != [] && (InsertsLate(s, steps[0], id) || CancelledLate(Next(s, steps[0]), steps[1..], id))
  }

  lemma OneStepOver(s: State, step: Step, id: Id)
    ensures var t := Next(s, step);
            (Over(t, id) && id in t.shared.cancelled) <==>
            (Over(s, id) && id in s.shared.cancelled) || InsertsLate(s, step, id)
  {
  }

  lemma {:induction false} CancelledFrom(s: State, steps: seq<Step>, id: Id)
    ensures var t := Run(s, steps);
            (Over(t, id) && id in t.shared.cancelled) <==>
            (Over(s, id) && id in s.shared.cancelled && Over(t, id)) || (CancelledLate(s, steps, id) && Over(t, id))
    decreases |steps|
  {
    hide Next, Over, InsertsLate;
    if steps != [] {
      OneStepOver(s, steps[0], id);
      CancelledFrom(Next(s, steps[0]), steps[1..], id);
    }
  }

  /** Once an execution is over, its name is left in the cancel set exactly if a cancellation was recorded after
      that; a name no execution has is left there by any cancellation. */
  lemma CancelStaysIff(s: State, steps: seq<Step>, id: Id)
    requires Init(s) && Over(Run(s, steps), id)
    ensures id in Run(s, steps).shared.cancelled <==> CancelledLate(s, steps, id)
  {
    CancelledFrom(s, steps, id);
  }

  // ---- Which processes are signalled ----

  /** Up to the check after registration. */
  predicate Unchecked(pc: Pc) {
    pc in {PreCheck, Spawn, Registering, PostCheck}
  }

  /** The step decides that the execution is refused or its process signalled: a cancellation of it is recorded
      before its check, or looks it up while it is registered, or it times out while it waits. */
  predicate Catches(s: State, step: Step, id: Id)
    requires id in s.execs
  {
    || (step.CancelStep? && step.c in s.cancels && s.cancels[step.c].target == id &&
        ((s.cancels[step.c].pc.Inserting? && Unchecked(s.execs[id].pc)) ||
         (s.cancels[step.c].pc.LookingUp? && IsRegistered(s.execs[id].pc))))
    || (step == ExecStep(id, true) && s.execs[id].pc.Waiting?)
  }

  predicate Caught(s: State, steps: seq<Step>, id: Id)
    requires id in s.execs
    decreases |steps|
  {
    steps != [] && (Catches(s, steps[0], id) || (id in Next(s, steps[0]).execs && Caught(Next(s, steps[0]), steps[1..], id)))
  }

  /** Only executions that wait for their process can time out, and only known ones are registered or about to
      be signalled. */
  ghost predicate Sound(s: State) {
    && (forall id <- s.execs :: s.execs[id].pc in {Waiting, TimeoutKill} ==> s.execs[id].kind.Execute?)
    && s.shared.executions.Keys <= s.execs.Keys
    && (forall c <- s.cancels :: s.cancels[c].pc.Signalling? ==> s.cancels[c].target in s.execs)
  }

  lemma ExecKeepsSound(s: State, id: Id, timedOut: bool)
    requires Sound(s) && id in s.execs
    ensures Sound(ExecNext(s, id, timedOut))
  {
    ExecFrame(s, id, timedOut);
    var t := ExecNext(s, id, timedOut);
    assert t.execs[id].pc in {Waiting, TimeoutKill} ==> t.execs[id].kind.Execute?;
    assert t.shared.executions.Keys <= s.shared.executions.Keys + {id};
    hide ExecNext;
  }

  lemma CancelKeepsSound(s: State, c: nat)
    requires Sound(s) && c in s.cancels
    ensures Sound(CancelNext(s, c))
  {
  }

  lemma StepKeepsSound(s: State, step: Step)
    requires Sound(s)
    ensures Sound(Next(s, step))
  {
    hide ExecNext, CancelNext;
    match step
    case ExecStep(id, timedOut) => if id in s.execs { ExecKeepsSound(s, id, timedOut); }
    case CancelStep(c) => if c in s.cancels { CancelKeepsSound(s, c); }
    case WatcherReap(_) =>
  }

  predicate AboutToSignal(s: State, id: Id) {
    exists c <- s.cancels :: s.cancels[c].target == id && s.cancels[c].pc.Signalling?
  }

  /** Refused, signalled, or bound to be. */
  predicate Marked(s: State, id: Id)
    requires id in s.execs
  {
    var e := s.execs[id];
    || e.pid in s.signalled || NeverSpawned(e.pc) || e.pc.Terminate? || e.pc.TimeoutKill?
    || (Unchecked(e.pc) && id in s.shared.cancelled)
    || AboutToSignal(s, id)
  }

  lemma SameCancels(s: State, t: State, id: Id)
    requires t.cancels == s.cancels
    ensures AboutToSignal(t, id) <==> AboutToSignal(s, id)
  {
  }

  lemma OwnMarks(s: State, id: Id, timedOut: bool)
    requires id in s.execs && ExecInv(s, id)
    ensures Marked(ExecNext(s, id, timedOut), id) <==> Marked(s, id) || Catches(s, ExecStep(id, timedOut), id)
  {
    SameCancels(s, ExecNext(s, id, timedOut), id);
    hide AboutToSignal;
  }

  lemma OtherMarks(s: State, t: State, own: Id, id: Id)
    requires id in s.execs && id in t.execs && own != id && t.execs[id] == s.execs[id] && t.cancels == s.cancels
    requires t.shared.cancelled - {own} == s.shared.cancelled - {own}
    requires s.execs[id].pid in t.signalled <==> s.execs[id].pid in s.signalled
    ensures Marked(t, id) <==> Marked(s, id)
  {
    SameCancels(s, t, id);
    hide AboutToSignal;
    assert id in t.shared.cancelled - {own} <==> id in s.shared.cancelled - {own};
  }

  lemma ExecSignals(s: State, own: Id, timedOut: bool)
    requires own in s.execs
    ensures ExecNext(s, own, timedOut).signalled <= s.signalled + {s.execs[own].pid}
  {
  }

  lemma ExecMarks(s: State, own: Id, timedOut: bool, id: Id)
    requires Inv(s) && own in s.execs && id in s.execs
    ensures id in ExecNext(s, own, timedOut).execs
    ensures Marked(ExecNext(s, own, timedOut), id) <==> Marked(s, id) || Catches(s, ExecStep(own, timedOut), id)
  {
    hide ExecNext, Marked, CancelInv, ExecInv;
    ExecFrame(s, own, timedOut);
    if own == id {
      OwnMarks(s, id, timedOut);
    } else {
      ExecSignals(s, own, timedOut);
      assert s.execs[own].pid != s.execs[id].pid;
      OtherMarks(s, ExecNext(s, own, timedOut), own, id);
    }
  }

  /** One cancellation has moved on, to or from something else than a pending signal. */
  lemma AboutFrame(s: State, t: State, c: nat, k: Cancel, id: Id)
    requires c in s.cancels && t.cancels == s.cancels[c := k] && k.target == s.cancels[c].target
    requires k.target != id || (!k.pc.Signalling? && !s.cancels[c].pc.Signalling?)
    ensures AboutToSignal(t, id) <==> AboutToSignal(s, id)
  {
    if AboutToSignal(s, id) {
      var d :| d in s.cancels && s.cancels[d].target == id && s.cancels[d].pc.Signalling?;
      assert d in t.cancels && t.cancels[d] == s.cancels[d];
    }
    if AboutToSignal(t, id) {
      var d :| d in t.cancels && t.cancels[d].target == id && t.cancels[d].pc.Signalling?;
      assert d in s.cancels && t.cancels[d] == s.cancels[d];
    }
  }

  lemma PendingSignal(s: State, c: nat)
    requires c in s.cancels && s.cancels[c].pc.Signalling?
    ensures AboutToSignal(s, s.cancels[c].target)
  {
  }

  lemma InsertMarks(s: State, c: nat, id: Id)
    requires c in s.cancels && s.cancels[c].pc.Inserting? && id in s.execs
    ensures id in CancelNext(s, c).execs
    ensures Marked(CancelNext(s, c), id) <==> Marked(s, id) || Catches(s, CancelStep(c), id)
  {
    AboutFrame(s, CancelNext(s, c), c, s.cancels[c].(pc := LookingUp), id);
    hide AboutToSignal;
  }

  lemma LookUpMarks(s: State, c: nat, id: Id)
    requires c in s.cancels && s.cancels[c].pc.LookingUp? && id in s.execs && ExecInv(s, id)
    ensures id in CancelNext(s, c).execs
    ensures Marked(CancelNext(s, c), id) <==> Marked(s, id) || Catches(s, CancelStep(c), id)
  {
    var t, k := CancelNext(s, c), s.cancels[c];
    if k.target == id && id in s.shared.executions {
      PendingSignal(t, c);
    } else {
      AboutFrame(s, t, c, t.cancels[c], id);
    }
    hide AboutToSignal;
  }

  lemma SignalMarks(s: State, c: nat, id: Id)
    requires c in s.cancels && s.cancels[c].pc.Signalling? && id in s.execs && s.cancels[c].target in s.execs
    requires s.cancels[c].pc.pid == s.execs[s.cancels[c].target].pid
    requires s.cancels[c].target != id ==> s.execs[id].pid != s.execs[s.cancels[c].target].pid
    ensures id in CancelNext(s, c).execs
    ensures Marked(CancelNext(s, c), id) <==> Marked(s, id) || Catches(s, CancelStep(c), id)
  {
    var t, k := CancelNext(s, c), s.cancels[c];
    if k.target == id {
      PendingSignal(s, c);
    } else {
      AboutFrame(s, t, c, t.cancels[c], id);
    }
    hide AboutToSignal;
  }

  lemma CancelMarks(s: State, c: nat, id: Id)
    requires Inv(s) && Sound(s) && c in s.cancels && id in s.execs
    ensures id in CancelNext(s, c).execs
    ensures Marked(CancelNext(s, c), id) <==> Marked(s, id) || Catches(s, CancelStep(c), id)
  {
    hide Marked, ExecInv, Handled;
    match s.cancels[c].pc
    case Inserting => InsertMarks(s, c, id);
    case LookingUp => LookUpMarks(s, c, id);
    case Signalling(_) =>
      assert CancelInv(s, c);
      SignalMarks(s, c, id);
    case Done(_) =>
  }

  lemma StepMarks(s: State, step: Step, id: Id)
    requires Inv(s) && Sound(s) && id in s.execs
    ensures id in Next(s, step).execs && Next(s, step).execs[id].kind == s.execs[id].kind
    ensures Marked(Next(s, step), id) <==> Marked(s, id) || Catches(s, step, id)
  {
    hide Inv, Sound, ExecNext, CancelNext;
    match step
    case ExecStep(own, timedOut) =>
      if own in s.execs {
        ExecMarks(s, own, timedOut, id);
        ExecFrame(s, own, timedOut);
      }
      hide Marked;
    case CancelStep(c) =>
      if c in s.cancels {
        CancelMarks(s, c, id);
        CancelKeepsExecs(s, c);
      }
      hide Marked;
    case WatcherReap(_) =>
      SameCancels(s, Next(s, step), id);
      hide AboutToSignal;
  }

  lemma CancelKeepsExecs(s: State, c: nat)
    requires c in s.cancels
    ensures CancelNext(s, c).execs == s.execs
  {
  }

  lemma {:induction false} RunMarks(s: State, steps: seq<Step>, id: Id)
    requires Inv(s) && Sound(s) && id in s.execs
    ensures id in Run(s, steps).execs
    ensures Marked(Run(s, steps), id) <==> Marked(s, id) || Caught(s, steps, id)
    decreases |steps|
  {
    hide Inv, Sound, Next, Marked, Catches;
    if steps != [] {
      StepMarks(s, steps[0], id);
      StepKeepsInv(s, steps[0]);
      StepKeepsSound(s, steps[0]);
      RunMarks(Next(s, steps[0]), steps[1..], id);
    }
  }

  lemma UnmarkedAtFirst(s: State, id: Id)
    requires Init(s) && id in s.execs
    ensures Inv(s) && Sound(s) && !Marked(s, id)
  {
  }

  /** No execution of either kind is refused or signalled without cause: it was caught, by a cancellation recorded
      before its check or looking it up while it was registered, or by its own timeout. */
  lemma OnlyCaughtAreSignalled(s: State, steps: seq<Step>, id: Id)
    requires Init(s) && id in s.execs
    ensures id in Run(s, steps).execs
    ensures var t := Run(s, steps);
            t.execs[id].pid in t.signalled || NeverSpawned(t.execs[id].pc) ==> Caught(s, steps, id)
  {
    UnmarkedAtFirst(s, id);
    RunMarks(s, steps, id);
    hide Run, Caught;
  }

  /** When an execution of either kind is through and no signal to it is pending, it has been refused or its
      process signalled exactly if it was caught. */
  lemma SignalledIffCaught(s: State, steps: seq<Step>, id: Id)
    requires Init(s) && id in s.execs
    requires var t := Run(s, steps);
             id in t.execs && (t.execs[id].pc.Refused? || Deregistered(t.execs[id].pc)) && !AboutToSignal(t, id)
    ensures var t := Run(s, steps);
            t.execs[id].pid in t.signalled || t.execs[id].pc.Refused? <==> Caught(s, steps, id)
  {
    UnmarkedAtFirst(s, id);
    RunMarks(s, steps, id);
    hide Run, Caught;
  }

  /** In particular a background start that has been handed over and deregistered keeps running, unsignalled,
      exactly if it was not caught. */
  lemma EscapesIff(s: State, steps: seq<Step>, id: Id)
    requires Init(s) && id in s.execs && s.execs[id].kind.StartProcess?
    requires var t := Run(s, steps); id in t.execs && Deregistered(t.execs[id].pc) && !AboutToSignal(t, id)
    ensures Run(s, steps).execs[id].pid !in Run(s, steps).signalled <==> !Caught(s, steps, id)
  {
    hide Run, Caught;
    SignalledIffCaught(s, steps, id);
  }

  // ---- Which executions are refused ----

  /** The step records a cancellation of an execution that has not made its first check. */
  predicate RecordsEarly(s: State, step: Step, id: Id)
    requires id in s.execs
  {
    && step.CancelStep? && step.c in s.cancels && s.cancels[step.c].target == id
    && s.cancels[step.c].pc.Inserting? && s.execs[id].pc.PreCheck?
  }

  predicate CancelledEarly(s: State, steps: seq<Step>, id: Id)
    requires id in s.execs
    decreases |steps|
  {
    steps != [] &&
    (RecordsEarly(s, steps[0], id) || (id in Next(s, steps[0]).execs && CancelledEarly(Next(s, steps[0]), steps[1..], id)))
  }

  predicate BoundToBeRefused(s: State, id: Id)
    requires id in s.execs
  {
    NeverSpawned(s.execs[id].pc) || (s.execs[id].pc.PreCheck? && id in s.shared.cancelled)
  }

  lemma OwnRefusal(s: State, id: Id, timedOut: bool)
    requires id in s.execs
    ensures BoundToBeRefused(ExecNext(s, id, timedOut), id) <==> BoundToBeRefused(s, id)
  {
  }

  lemma OtherRefusal(s: State, t: State, own: Id, id: Id)
    requires id in s.execs && own != id && id in t.execs && t.execs[id] == s.execs[id]
    requires t.shared.cancelled - {own} == s.shared.cancelled - {own}
    ensures BoundToBeRefused(t, id) <==> BoundToBeRefused(s, id)
  {
    assert id in t.shared.cancelled - {own} <==> id in s.shared.cancelled - {own};
  }

  lemma CancelRefusal(s: State, c: nat, id: Id)
    requires id in s.execs && c in s.cancels
    ensures id in CancelNext(s, c).execs
    ensures BoundToBeRefused(CancelNext(s, c), id) <==> BoundToBeRefused(s, id) || RecordsEarly(s, CancelStep(c), id)
  {
  }

  lemma RefusalStep(s: State, step: Step, id: Id)
    requires id in s.execs
    ensures id in Next(s, step).execs
    ensures BoundToBeRefused(Next(s, step), id) <==> BoundToBeRefused(s, id) || RecordsEarly(s, step, id)
  {
    hide ExecNext, CancelNext, NeverSpawned;
    match step
    case ExecStep(own, timedOut) =>
      if own in s.execs {
        ExecFrame(s, own, timedOut);
        if own == id { OwnRefusal(s, id, timedOut); } else { OtherRefusal(s, ExecNext(s, own, timedOut), own, id); }
      }
    case CancelStep(c) => if c in s.cancels { CancelRefusal(s, c, id); }
    case WatcherReap(_) =>
  }

  lemma {:induction false} RefusalsFrom(s: State, steps: seq<Step>, id: Id)
    requires id in s.execs
    ensures id in Run(s, steps).execs
    ensures BoundToBeRefused(Run(s, steps), id) <==> BoundToBeRefused(s, id) || CancelledEarly(s, steps, id)
    decreases |steps|
  {
    hide Next, BoundToBeRefused, RecordsEarly;
    if steps != [] {
      RefusalStep(s, steps[0], id);
      RefusalsFrom(Next(s, steps[0]), steps[1..], id);
    }
  }

  /** Once an execution has made its first check, it is refused, its process never spawned, exactly if a
      cancellation of it had been recorded before. */
  lemma RefusedIff(s: State, steps: seq<Step>, id: Id)
    requires Init(s) && id in s.execs
    requires id in Run(s, steps).execs && !Run(s, steps).execs[id].pc.PreCheck?
    ensures NeverSpawned(Run(s, steps).execs[id].pc) <==> CancelledEarly(s, steps, id)
  {
    RefusalsFrom(s, steps, id);
    hide Run, CancelledEarly;
  }

  lemma RunOne(s: State, step: Step, rest: seq<Step>)
    ensures Run(s, [step] + rest) == Run(Next(s, step), rest)
  {
    hide Next;
    assert ([step] + rest)[1..] == rest;
  }

  lemma {:induction false} RunConcat(s: State, a: seq<Step>, b: seq<Step>)
    ensures Run(s, a + b) == Run(Run(s, a), b)
    decreases |a|
  {
    hide Next;
    if a == [] {
      assert a + b == b;
    } else {
      assert (a + b)[1..] == a[1..] + b;
      RunConcat(Next(s, a[0]), a[1..], b);
    }
  }

  /** A start that goes its way while a cancellation of it has not begun. */
  function Started(id: Id, pc: Pc, registered: bool, cancel: CancelPc, cancelled: bool): State {
    State(Shared(if registered then map[id := 7] else map[], if cancelled then {id} else {}),
          map[id := Exec(StartProcess, 7, pc)], map[0 := Cancel(id, cancel)], {}, {})
  }

  lemma OwnStep(id: Id, pc: Pc, registered: bool)
    requires pc in {PreCheck, Spawn, Registering, PostCheck, Publish, FinishExecution}
    requires registered <==> pc in {PostCheck, Publish, FinishExecution}
    ensures var next := match pc
                        case PreCheck => Spawn case Spawn => Registering case Registering => PostCheck
                        case PostCheck => Publish case Publish => FinishExecution case _ => FinishCancelled;
            Next(Started(id, pc, registered, Inserting, false), ExecStep(id, false)) ==
            Started(id, next, IsRegistered(next), Inserting, false)
  {
    var s := Started(id, pc, registered, Inserting, false);
    var t := ExecNext(s, id, false);
    assert map[id := 7] - {id} == map[];
    assert map[][id := 7] == map[id := 7];
    assert s.execs[id := s.execs[id].(pc := t.execs[id].pc)] == map[id := Exec(StartProcess, 7, t.execs[id].pc)];
  }

  /** The six steps of a start up to its deregistration. */
  function Starting(id: Id): seq<Step> {
    var step := ExecStep(id, false);
    [step] + ([step] + ([step] + ([step] + ([step] + ([step] + [])))))
  }

  lemma HandedOverUnsignalled(id: Id)
    ensures Run(Started(id, PreCheck, false, Inserting, false), Starting(id)) ==
            Started(id, FinishCancelled, false, Inserting, false)
  {
    hide Run, Next, Started;
    var step := ExecStep(id, false);
    OwnStep(id, PreCheck, false);
    OwnStep(id, Spawn, false);
    OwnStep(id, Registering, false);
    OwnStep(id, PostCheck, true);
    OwnStep(id, Publish, true);
    OwnStep(id, FinishExecution, true);
    var one := [step] + [];
    var two := [step] + one;
    var three := [step] + two;
    var four := [step] + three;
    RunOne(Started(id, PreCheck, false, Inserting, false), step, [step] + four);
    RunOne(Started(id, Spawn, false, Inserting, false), step, four);
    RunOne(Started(id, Registering, false, Inserting, false), step, three);
    RunOne(Started(id, PostCheck, true, Inserting, false), step, two);
    RunOne(Started(id, Publish, true, Inserting, false), step, one);
    RunOne(Started(id, FinishExecution, true, Inserting, false), step, []);
    RunNone(Started(id, FinishCancelled, false, Inserting, false));
  }

  lemma RunNone(s: State)
    ensures Run(s, []) == s
  {
  }

  lemma LateCancelSteps(id: Id)
    ensures Next(Started(id, FinishCancelled, false, Inserting, false), CancelStep(0)) ==
            Started(id, FinishCancelled, false, LookingUp, true)
    ensures Next(Started(id, FinishCancelled, false, LookingUp, true), CancelStep(0)) ==
            Started(id, FinishCancelled, false, Done(true), true)
    ensures Next(Started(id, FinishCancelled, false, Done(true), true), ExecStep(id, false)) ==
            Started(id, Returned, false, Done(true), false)
  {
    var s := Started(id, FinishCancelled, false, Done(true), true);
    assert s.execs[id := s.execs[id].(pc := Returned)] == map[id := Exec(StartProcess, 7, Returned)];
    assert {id} - {id} == {};
    forall before: CancelPc, after: CancelPc
      ensures map[0 := Cancel(id, before)][0 := Cancel(id, after)] == map[0 := Cancel(id, after)]
    {
    }
  }

  /** A run that escapes: the start is handed over and deregistered before its cancellation is recorded. The
      cancellation returns, the start returns, and nobody has signalled the process or seen it end. */
  lemma EscapeHappens(id: Id)
    ensures var s := Started(id, PreCheck, false, Inserting, false);
            var t := Run(s, Starting(id) + ([CancelStep(0)] + ([CancelStep(0)] + ([ExecStep(id, false)] + []))));
            && Init(s) && id in t.execs && t.execs[id].pc.Returned?
            && 0 in t.cancels && t.cancels[0].pc == Done(true)
            && t.signalled == {} && t.reaped == {}
  {
    var s, own := Started(id, PreCheck, false, Inserting, false), ExecStep(id, false);
    assert Init(s);
    HandedOverUnsignalled(id);
    LateCancelSteps(id);
    var last := [own] + [];
    var two := [CancelStep(0)] + last;
    hide Run, Next, Starting;
    RunConcat(s, Starting(id), [CancelStep(0)] + two);
    RunOne(Started(id, FinishCancelled, false, Inserting, false), CancelStep(0), two);
    RunOne(Started(id, FinishCancelled, false, LookingUp, true), CancelStep(0), last);
    RunOne(Started(id, FinishCancelled, false, Done(true), true), own, []);
    RunNone(Started(id, Returned, false, Done(true), false));
  }
}
