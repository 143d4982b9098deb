/** The registry of write locks for Drive paths: weak references, pruned on every request. */
module DriveLocks {
  type Path = string

  /** A strong reference to a mutex, with the path it was requested for. */
  datatype Handle = Handle(path: Path, mutex: nat)

  /** How far the request that holds the registry has come. */
  datatype Phase =
    | Idle
    | Retaining(path: Path, todo: set<Path>)
    | Inserting(path: Path, handle: nat)

  /** `registry` holds the weak references, `owners` maps a locked mutex to the handle that locked it. */
  datatype State = State(registry: map<Path, nat>, handles: map<nat, Handle>, owners: map<nat, nat>,
                         nextMutex: nat, nextHandle: nat, phase: Phase)

  const START := State(map[], map[], map[], 0, 0, Idle)

  /** The steps of a request (one entry of the retain at a time), and what holders of handles do meanwhile. */
  datatype Step =
    | Begin(path: Path) | Prune(path: Path) | Upgrade | Insert
    | Drop(handle: nat) | Lock(handle: nat) | Unlock(handle: nat)

  function Holders(s: State, mutex: nat): set<nat> {
    set h | h in s.handles && s.handles[h].mutex == mutex
  }

  predicate Alive(s: State, mutex: nat) {
    |Holders(s, mutex)| > 0
  }

  /** The request in progress has not handed this handle out yet. */
  predicate Held(s: State, h: nat) {
    s.phase.Inserting? && s.phase.handle == h
  }

  predicate Enabled(s: State, step: Step) {
    match step
    case Begin(_) => s.phase.Idle?
    case Prune(path) => s.phase.Retaining? && path in s.phase.todo && path in s.registry
    case Upgrade => s.phase.Retaining? && s.phase.todo == {}
    case Insert => s.phase.Inserting? && s.phase.handle in s.handles
    case Drop(h) => h in s.handles && !Held(s, h) && h !in s.owners.Values
    case Lock(h) => h in s.handles && !Held(s, h) && s.handles[h].mutex !in s.owners
    case Unlock(h) => h in s.handles && s.handles[h].mutex in s.owners && s.owners[s.handles[h].mutex] == h
  }

  function After(s: State, step: Step): State
    requires Enabled(s, step)
  {
    match step
    case Begin(path) => s.(phase := Retaining(path, s.registry.Keys))
    case Prune(path) =>
      s.(registry := if Alive(s, s.registry[path]) then s.registry else s.registry - {path},
         phase := s.phase.(todo := s.phase.todo - {path}))
    case Upgrade =>
      var path := s.phase.path;
      if path in s.registry && Alive(s, s.registry[path]) then
        s.(handles := s.handles[s.nextHandle := Handle(path, s.registry[path])], nextHandle := s.nextHandle + 1, phase := Idle)
      else
        s.(handles := s.handles[s.nextHandle := Handle(path, s.nextMutex)], nextHandle := s.nextHandle + 1,
           nextMutex := s.nextMutex + 1, phase := Inserting(path, s.nextHandle))
    case Insert => s.(registry := s.registry[s.phase.path := s.handles[s.phase.handle].mutex], phase := Idle)
    case Drop(h) => s.(handles := s.handles - {h})
    case Lock(h) => s.(owners := s.owners[s.handles[h].mutex := h])
    case Unlock(h) => s.(owners := s.owners - {s.handles[h].mutex})
  }

  // ---- Runs ----

  /** The state at `k` is one step from the one before it, whoever takes the step. */
  ghost predicate StepsTo(run: seq<State>, k: nat)
    requires 0 < k < |run|
  {
    Next(run[k - 1], run[k])
  }

  ghost predicate Next(s: State, s': State) {
    exists step :: Enabled(s, step) && s' == After(s, step)
  }

  ghost predicate IsRun(run: seq<State>) {
    forall k :: 0 < k < |run| ==> StepsTo(run, k)
  }

  // ---- What every step keeps ----

  /** Identifiers in use have been given out before. */
  predicate Issued(s: State) {
    && (forall h :: h in s.handles ==> h < s.nextHandle && s.handles[h].mutex < s.nextMutex)
    && (forall p :: p in s.registry ==> s.registry[p] < s.nextMutex)
  }

  /** Every handle's mutex is the one registered for its path; only a mutex about to be inserted is not
      registered, and then its path has no live entry. */
  predicate Registered(s: State) {
    && (forall h :: h in s.handles && !Held(s, h) ==>
          s.handles[h].path in s.registry && s.registry[s.handles[h].path] == s.handles[h].mutex)
    && (forall p, q :: p in s.registry && q in s.registry && s.registry[p] == s.registry[q] ==> p == q)
  }

  predicate PhaseFits(s: State) {
    match s.phase
    case Idle => true
    case Retaining(_, todo) => todo <= s.registry.Keys
    case Inserting(path, handle) =>
      && handle in s.handles && s.handles[handle].path == path
      && (forall h :: h in s.handles && s.handles[h].path == path ==> h == handle)
      && (forall p :: p in s.registry ==> s.registry[p] != s.handles[handle].mutex)
  }

  /** Whoever has locked a mutex still has a handle to it. */
  predicate OwnersHold(s: State) {
    forall m :: m in s.owners ==> s.owners[m] in s.handles && s.handles[s.owners[m]].mutex == m && !Held(s, s.owners[m])
  }

  predicate Inv(s: State) {
    Issued(s) && Registered(s) && PhaseFits(s) && OwnersHold(s)
  }

  lemma HolderMakesAlive(s: State, h: nat)
    requires h in s.handles
    ensures Alive(s, s.handles[h].mutex)
  {
    assert h in Holders(s, s.handles[h].mutex);
  }

  lemma AliveHasHolder(s: State, mutex: nat)
    requires Alive(s, mutex)
    ensures exists h :: h in s.handles && s.handles[h].mutex == mutex
  {
    var h :| h in Holders(s, mutex);
  }

  lemma PruneKeepsInv(s: State, path: Path)
    requires Inv(s) && Enabled(s, Prune(path))
    ensures Inv(After(s, Prune(path)))
  {
    hide Alive;
    forall h | h in s.handles && s.handles[h].path == path ensures Alive(s, s.registry[path]) {
      HolderMakesAlive(s, h);
    }
  }

  lemma UpgradeKeepsInv(s: State)
    requires Inv(s) && Enabled(s, Upgrade)
    ensures Inv(After(s, Upgrade))
  {
    hide Alive;
    var path := s.phase.path;
    forall h | h in s.handles && s.handles[h].path == path ensures path in s.registry && Alive(s, s.registry[path]) {
      HolderMakesAlive(s, h);
    }
  }

  lemma InsertKeepsInv(s: State)
    requires Inv(s) && Enabled(s, Insert)
    ensures Inv(After(s, Insert))
  {
  }

  lemma HolderStepKeepsInv(s: State, step: Step)
    requires Inv(s) && Enabled(s, step) && (step.Drop? || step.Lock? || step.Unlock?)
    ensures Inv(After(s, step))
  {
    hide Alive;
  }

  lemma StepKeepsInv(s: State, step: Step)
    requires Inv(s) && Enabled(s, step)
    ensures Inv(After(s, step))
  {
    match step
    case Begin(_) => hide Alive;
    case Prune(path) => PruneKeepsInv(s, path);
    case Upgrade => UpgradeKeepsInv(s);
    case Insert => InsertKeepsInv(s);
    case _ => HolderStepKeepsInv(s, step);
  }

  lemma {:induction false} RunKeepsInv(run: seq<State>, k: nat)
    requires IsRun(run) && k < |run| && Inv(run[0])
    ensures Inv(run[k])
  {
    if k > 0 {
      hide Enabled, After, Inv;
      RunKeepsInv(run, k - 1);
      assert StepsTo(run, k);
      var step :| Enabled(run[k - 1], step) && run[k] == After(run[k - 1], step);
      StepKeepsInv(run[k - 1], step);
    }
  }

  // ---- One mutex for one path ----

  /** In every run of requests and drops, two live handles are for the same path exactly when they are
      handles to the same mutex. */
  lemma SamePathIffSameMutex(run: seq<State>, k: nat, h1: nat, h2: nat)
    requires IsRun(run) && k < |run| && run[0] == START
    requires h1 in run[k].handles && h2 in run[k].handles
    ensures run[k].handles[h1].path == run[k].handles[h2].path <==> run[k].handles[h1].mutex == run[k].handles[h2].mutex
  {
    RunKeepsInv(run, k);
  }

  predicate HoldsLock(s: State, h: nat) {
    h in s.handles && s.handles[h].mutex in s.owners && s.owners[s.handles[h].mutex] == h
  }

  /** So no two holders of handles are ever in the critical section of one path. */
  lemma OneWriterPerPath(run: seq<State>, k: nat, h1: nat, h2: nat)
    requires IsRun(run) && k < |run| && run[0] == START
    requires HoldsLock(run[k], h1) && HoldsLock(run[k], h2) && run[k].handles[h1].path == run[k].handles[h2].path
    ensures h1 == h2
  {
    SamePathIffSameMutex(run, k, h1, h2);
  }

  lemma LockStays(s: State, step: Step, h: nat)
    requires Inv(s) && Enabled(s, step) && HoldsLock(s, h)
    ensures HoldsLock(After(s, step), h) || step == Unlock(h)
  {
  }

  /** A lock once taken is kept until its own holder gives it up; nobody else can take it meanwhile. */
  lemma {:induction false} LockIsKept(run: seq<State>, i: nat, k: nat, h: nat)
    requires IsRun(run) && i <= k < |run| && run[0] == START
    requires HoldsLock(run[i], h) && !HoldsLock(run[k], h)
    ensures exists j :: i <= j < k && GivesUp(run[j], run[j + 1], h)
    decreases k
  {
    assert Inv(START);
    hide HoldsLock, Enabled, After, Inv;
    if HoldsLock(run[k - 1], h) {
      RunKeepsInv(run, k - 1);
      assert StepsTo(run, k);
      var step :| Enabled(run[k - 1], step) && run[k] == After(run[k - 1], step);
      LockStays(run[k - 1], step, h);
      assert GivesUp(run[k - 1], run[k - 1 + 1], h);
    } else {
      LockIsKept(run, i, k - 1, h);
    }
  }

  predicate GivesUp(s: State, s': State, h: nat) {
    HoldsLock(s, h) && Enabled(s, Unlock(h)) && s' == After(s, Unlock(h))
  }

  /** And a writer of one path never keeps a writer of another waiting. */
  lemma OtherPathsDoNotBlock(run: seq<State>, k: nat, h: nat)
    requires IsRun(run) && k < |run| && run[0] == START
    requires h in run[k].handles && !Held(run[k], h)
    requires forall other :: HoldsLock(run[k], other) ==> run[k].handles[other].path != run[k].handles[h].path
    ensures Enabled(run[k], Lock(h))
  {
    RunKeepsInv(run, k);
    var m := run[k].handles[h].mutex;
    if m in run[k].owners {
      assert HoldsLock(run[k], run[k].owners[m]);
      SamePathIffSameMutex(run, k, h, run[k].owners[m]);
      assert false;
    }
  }

  // ---- Pruning ----

  /** The entry is gone, or it is a dead one the retain has yet to come to. */
  predicate GoneOrDue(s: State, path: Path, mutex: nat) {
    && mutex < s.nextMutex
    && !Alive(s, mutex)
    && (path in s.registry && s.registry[path] == mutex ==> s.phase.Retaining? && path in s.phase.todo)
  }

  /** A dead mutex never comes back to life. */
  lemma DeadStaysDead(s: State, step: Step, mutex: nat)
    requires Inv(s) && Enabled(s, step) && mutex < s.nextMutex && !Alive(s, mutex)
    ensures !Alive(After(s, step), mutex)
  {
    var s' := After(s, step);
    if Alive(s', mutex) {
      AliveHasHolder(s', mutex);
      var h :| h in s'.handles && s'.handles[h].mutex == mutex;
      if h in s.handles { HolderMakesAlive(s, h); }
      assert false;
    }
  }

  lemma StepKeepsGoneOrDue(s: State, step: Step, path: Path, mutex: nat)
    requires Inv(s) && Enabled(s, step) && GoneOrDue(s, path, mutex)
    ensures GoneOrDue(After(s, step), path, mutex)
  {
    DeadStaysDead(s, step, mutex);
    hide Alive;
    if step.Insert? { HolderMakesAlive(s, s.phase.handle); }
  }

  lemma {:induction false} RunKeepsGoneOrDue(run: seq<State>, i: nat, k: nat, path: Path, mutex: nat)
    requires IsRun(run) && i <= k < |run| && Inv(run[0]) && GoneOrDue(run[i], path, mutex)
    ensures GoneOrDue(run[k], path, mutex)
    decreases k
  {
    if i < k {
      hide Enabled, After, Inv, GoneOrDue;
      RunKeepsGoneOrDue(run, i, k - 1, path, mutex);
      RunKeepsInv(run, k - 1);
      assert StepsTo(run, k);
      var step :| Enabled(run[k - 1], step) && run[k] == After(run[k - 1], step);
      StepKeepsGoneOrDue(run[k - 1], step, path, mutex);
    }
  }

  /** An entry that is dead while a request's retain has yet to come to it (at its retain step at the
      latest) has left the registry once the retain is over, and that entry never returns. */
  lemma DeadEntriesArePruned(run: seq<State>, i: nat, k: nat, path: Path)
    requires IsRun(run) && i <= k < |run| && run[0] == START
    requires run[i].phase.Retaining? && path in run[i].phase.todo && path in run[i].registry
    requires !Alive(run[i], run[i].registry[path])
    requires !run[k].phase.Retaining? || run[k].phase.todo == {}
    ensures path !in run[k].registry || run[k].registry[path] != run[i].registry[path]
  {
    RunKeepsInv(run, i);
    RunKeepsGoneOrDue(run, i, k, path, run[i].registry[path]);
  }

  /** What is left of the entries a request began with was live when it began. */
  lemma LeftWasAlive(run: seq<State>, path: Path)
    requires IsRun(run) && |run| > 1 && Inv(run[0]) && Enabled(run[0], Begin(path)) && run[1] == After(run[0], Begin(path))
    requires run[|run| - 1].phase.Idle?
    ensures forall p :: p in run[0].registry && p in run[|run| - 1].registry && run[|run| - 1].registry[p] == run[0].registry[p] ==>
              Alive(run[0], run[0].registry[p])
  {
    forall p | p in run[0].registry && p in run[|run| - 1].registry && run[|run| - 1].registry[p] == run[0].registry[p]
      ensures Alive(run[0], run[0].registry[p])
    {
      var mutex := run[0].registry[p];
      assert Holders(run[1], mutex) == Holders(run[0], mutex);
      if !Alive(run[0], mutex) {
        RunKeepsGoneOrDue(run, 1, |run| - 1, p, mutex);
        assert false;
      }
    }
  }

  /** A live entry, in contrast, is never pruned. */
  lemma LiveEntriesStay(run: seq<State>, k: nat, h: nat)
    requires IsRun(run) && k < |run| && run[0] == START
    requires h in run[k].handles && !Held(run[k], h)
    ensures run[k].handles[h].path in run[k].registry
    ensures run[k].registry[run[k].handles[h].path] == run[k].handles[h].mutex
  {
    RunKeepsInv(run, k);
  }

  // ---- The request itself ----

  class DriveWriteLocks {
    var registry: map<Path, nat>
    var handles: map<nat, Handle>
    var owners: map<nat, nat>
    var nextMutex: nat
    var nextHandle: nat
    ghost var phase: Phase

    ghost function View(): State
      reads this
    {
      State(registry, handles, owners, nextMutex, nextHandle, phase)
    }

    constructor ()
      ensures View() == START
    {
      registry, handles, owners, nextMutex, nextHandle, phase := map[], map[], map[], 0, 0, Idle;
    }

    /** Whatever the holders of handles do while a request is at work; `mine` has not been handed out. */
    method Others(ghost run: seq<State>, mine: set<nat>) returns (ghost run': seq<State>)
      requires RunTo(run, View())
      requires forall h :: Held(View(), h) ==> h in mine
      modifies this`handles, this`owners
      ensures RunTo(run', View()) && Continues(run, run')
      ensures forall h :: h in mine && h in old(handles) ==> h in handles && handles[h] == old(handles)[h]
    {
      hide IsRun;
      run' := run;
      var count: int := *;
      for i := 0 to if count > 0 then count else 0
        invariant RunTo(run', View()) && Continues(run, run')
        invariant phase == old(phase) && registry == old(registry)
        invariant forall h :: h in mine && h in old(handles) ==> h in handles && handles[h] == old(handles)[h]
      {
        var step: Step := *;
        match step {
          case Drop(h) =>
            if h in handles && h !in mine && h !in owners.Values {
              run' := Extended(run', View(), step);
              handles := handles - {h};
            }
          case Lock(h) =>
            if h in handles && h !in mine && handles[h].mutex !in owners {
              run' := Extended(run', View(), step);
              owners := owners[handles[h].mutex := h];
            }
          case Unlock(h) =>
            if h in handles && handles[h].mutex in owners && owners[handles[h].mutex] == h {
              run' := Extended(run', View(), step);
              owners := owners - {handles[h].mutex};
            }
          case _ =>
        }
      }
    }

    /** A strong count above zero: a weak reference to the mutex can be upgraded. */
    method StrongCountPositive(mutex: nat) returns (positive: bool)
      ensures positive == Alive(View(), mutex)
    {
      var holders := set h | h in handles && handles[h].mutex == mutex;
      assert holders == Holders(View(), mutex);
      return |holders| > 0;
    }

    /** One entry of the retain. */
    method PruneEntry(path: Path, ghost run: seq<State>) returns (ghost run': seq<State>)
      requires RunTo(run, View())
      requires phase.Retaining? && path in phase.todo && path in registry
      modifies this`registry, this`phase
      ensures RunTo(run', View()) && Continues(run, run')
      ensures View() == After(old(View()), Prune(path))
    {
      run' := Extended(run, View(), Prune(path));
      var live := StrongCountPositive(registry[path]);
      phase := phase.(todo := phase.todo - {path});
      if !live {
        registry := registry - {path};
      }
    }

    /** The retain, with the other tasks at work between any two entries. */
    method Retain(ghost run: seq<State>) returns (ghost run': seq<State>)
      requires Inv(View()) && RunTo(run, View())
      requires phase.Retaining? && phase.todo == registry.Keys
      modifies this`registry, this`phase, this`handles, this`owners
      ensures RunTo(run', View()) && Continues(run, run')
      ensures phase == Retaining(old(phase).path, {})
      ensures forall p :: p in registry ==> p in old(registry) && registry[p] == old(registry)[p]
    {
      hide IsRun, Enabled, Alive;
      var todo := registry.Keys;
      run' := run;
      while todo != {}
        invariant RunTo(run', View()) && Continues(run, run')
        invariant phase == Retaining(old(phase).path, todo) && todo <= registry.Keys
        invariant forall p :: p in registry ==> p in old(registry) && registry[p] == old(registry)[p]
        decreases |todo|
      {
        var path :| path in todo;
        run' := PruneEntry(path, run');
        todo := todo - {path};
        run' := Others(run', {});
      }
    }

    /** Looks the path's mutex up, or makes and registers one. */
    method Obtain(path: Path, ghost run: seq<State>) returns (handle: nat, ghost run': seq<State>)
      requires RunTo(run, View())
      requires phase == Retaining(path, {})
      modifies this
      ensures RunTo(run', View()) && Continues(run, run')
      ensures phase.Idle? && handle == old(nextHandle) && nextHandle == handle + 1
      ensures handle in handles && handles[handle].path == path
      ensures registry == old(registry)[path := handles[handle].mutex]
    {
      handle := nextHandle;
      nextHandle := nextHandle + 1;
      run' := Extended(run, old(View()), Upgrade);
      var live := false;
      if path in registry {
        live := StrongCountPositive(registry[path]);
        assert Holders(View(), registry[path]) == Holders(old(View()), registry[path]);
      }
      if live {
        handles := handles[handle := Handle(path, registry[path])];
        phase := Idle;
        assert registry == registry[path := registry[path]];
        return;
      }
      handles := handles[handle := Handle(path, nextMutex)];
      nextMutex := nextMutex + 1;
      phase := Inserting(path, handle);
      run' := Register(path, handle, run');
    }

    /** Registers the mutex behind a handle not handed out yet; the others may be at work before it is. */
    method Register(path: Path, handle: nat, ghost run: seq<State>) returns (ghost run': seq<State>)
      requires RunTo(run, View())
      requires phase == Inserting(path, handle) && handle in handles
      modifies this`registry, this`phase, this`handles, this`owners
      ensures RunTo(run', View()) && Continues(run, run')
      ensures phase.Idle? && handle in handles && handles[handle] == old(handles)[handle]
      ensures registry == old(registry)[path := handles[handle].mutex]
    {
      run' := Others(run, {handle});
      run' := Extended(run', View(), Insert);
      registry := registry[path := handles[handle].mutex];
      phase := Idle;
    }

    /** The whole request: its steps and those of the others make a run of the system; the caller gets a
        new handle to the path's registered mutex; and every other entry left was live when the request began. */
    method DriveWriteLock(path: Path) returns (handle: nat, ghost run: seq<State>)
      requires Inv(View()) && phase.Idle?
      modifies this
      ensures RunTo(run, View()) && run[0] == old(View())
      ensures Inv(View()) && phase.Idle?
      ensures handle == old(nextHandle) && nextHandle == handle + 1
      ensures handle in handles && handles[handle].path == path
      ensures path in registry && registry[path] == handles[handle].mutex
      ensures forall p :: p in registry && p != path ==>
                p in old(registry) && registry[p] == old(registry)[p] && Alive(old(View()), registry[p])
    {
      run := Extended([View()], View(), Begin(path));
      phase := Retaining(path, registry.Keys);
      ghost var begun := View();
      StepKeepsInv(old(View()), Begin(path));
      run := Retain(run);
      handle, run := Obtain(path, run);
      RunKeepsInv(run, |run| - 1);
      LeftWasAlive(run, path);
    }
  }

  ghost predicate RunTo(run: seq<State>, s: State) {
    IsRun(run) && run != [] && run[|run| - 1] == s
  }

  /** The second run goes on from the first. */
  ghost predicate Continues(run: seq<State>, run': seq<State>) {
    |run| <= |run'| && forall k :: 0 <= k < |run| ==> run'[k] == run[k]
  }

  ghost function Extended(run: seq<State>, s: State, step: Step): (run': seq<State>)
    requires RunTo(run, s) && Enabled(s, step)
    ensures RunTo(run', After(s, step)) && Continues(run, run')
  {
    hide Enabled, After;
    var run' := run + [After(s, step)];
    assert Next(s, After(s, step));
    assert forall k :: 0 < k < |run'| ==> StepsTo(run', k) by {
      forall k | 0 < k < |run'| ensures StepsTo(run', k) {
        if k < |run| {
          assert StepsTo(run, k);
          assert run'[k - 1] == run[k - 1] && run'[k] == run[k];
        }
      }
    }
    run'
  }
}
