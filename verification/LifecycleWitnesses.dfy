/** Schedules that show what runs of the lifecycle coordinator can reach, with one sandbox. */
module LifecycleWitnesses {
  import opened Basics
  import opened Records
  import opened Sums
  import opened Lifecycle
  import opened LifecycleInvariant
  import opened LifecycleTheorems

  // ----- One sandbox, step by step -----

  ghost predicate Lone(s: State, id: Id) {
    Reachable(s) && s.phase.Serving? && s.alloc.None? && s.cells.Keys == {id}
  }

  lemma Acts(s: State, id: Id, a: Local, d: Cell) returns (t: State)
    requires Lone(s, id) && LocalStep(s.cells[id], a) == Some(d)
    ensures Lone(t, id) && t.cells[id] == d
  {
    t := SetCell(s, id, d);
    ReachableStep(s, Act(id, a), t);
  }

  lemma ReachableServing()
    ensures Reachable(EMPTY.(phase := Serving, volumes := {"data"}))
  {
    assert Exec(EMPTY, []) == Some(EMPTY);
    var s1 := EMPTY.(phase := Recovering(map[], None));
    assert Rows(EMPTY) == map[];
    ReachableStep(EMPTY, RecoverBegin, s1);
    var s2 := s1.(phase := Serving);
    ReachableStep(s1, RecoverDone, s2);
    var s3 := s2.(alloc := Some(VolumeCreating("data")));
    ReachableStep(s2, VolumeCreateLock("data"), s3);
    assert s3.volumes + {"data"} == {"data"};
    ReachableStep(s3, VolumeCreatePut(true), s2.(volumes := {"data"}));
  }

  /** A sandbox that mounts a volume is created. */
  lemma Creates(id: Id, name: string, autoRemove: bool) returns (s: State, v: Sandbox)
    requires id != name
    ensures Lone(s, id) && s.cells[id] == NewCell(v)
    ensures v.id == id && v.state.Created? && v.prepared && v.generation == 0 && v.exit.None?
    ensures v.spec.mounts == {"data"} && v.spec.autoRemove == autoRemove
  {
    ReachableServing();
    var s0 := EMPTY.(phase := Serving, volumes := {"data"});
    var spec := Spec({"data"}, {}, false, autoRemove, 64 * MIB);
    assert UsedSlots(s0) == {};
    var s1 := s0.(alloc := Some(CreateScanned(name, spec, 1)));
    ReachableStep(s0, CreateScan(name, spec, 1), s1);
    var v0 := NewSandbox(id, name, spec, 1);
    var s2 := SetCell(s1, id, NewCell(v0)).(alloc := Some(CreatePreparing(id, v0)));
    ReachableStep(s1, CreateInsert(id, true), s2);
    v := v0.(state := Created, prepared := true, guestMemory := GuestMemory(spec.memory, 64));
    s := SetCell(s2, id, NewCell(v)).(alloc := None);
    ReachableStep(s2, CreateCommit(64), s);
  }

  lemma LoneScan(s: State, id: Id, v: Sandbox, available: nat)
    requires s.cells.Keys == {id} && v.id == id && s.cells[id].rec == Some(v) && !Reserves(v)
    requires available == Envelope(v) + HOST_RESERVE
    ensures VolumesFree(s, v) && BudgetAllows(Envelope(v) + Sum(Reservations(s)), available)
  {
    SumZero(Reservations(s));
  }

  lemma Scans(s: State, id: Id, v: Sandbox) returns (t: State)
    requires Lone(s, id) && s.cells[id].work == Some(StartReady(v)) && s.cells[id].rec == Some(v) && !Reserves(v) &&
             v.id == id
    ensures Reachable(t) && t.phase.Serving? && t.cells.Keys == {id} &&
            t.cells[id] == s.cells[id].(work := Some(StartAdmitting(v)))
    ensures t.alloc == Some(StartCleared(id, Envelope(v) + HOST_RESERVE))
  {
    var available := Envelope(v) + HOST_RESERVE;
    var s1 := SetCell(s, id, s.cells[id].(work := Some(StartAdmitting(v)))).(alloc := Some(StartHolds(id)));
    ReachableStep(s, StartAllocate(id), s1);
    LoneScan(s1, id, v, available);
    t := s1.(alloc := Some(StartCleared(id, available)));
    ReachableStep(s1, StartScan(id, available), t);
  }

  lemma Admits(s: State, id: Id, v: Sandbox) returns (t: State)
    requires Lone(s, id) && s.cells[id].work == Some(StartReady(v)) && s.cells[id].rec == Some(v) && !Reserves(v) &&
             v.id == id
    ensures Lone(t, id) && t.cells[id] == Admitted(s.cells[id], v)
  {
    var s1 := Scans(s, id, v);
    t := SetCell(s1, id, Admitted(s1.cells[id], v)).(alloc := None, budget := Envelope(v));
    ReachableStep(s1, StartCommit(id, true), t);
  }

  /** A sandbox that no one works on is started. */
  lemma Starts(s: State, id: Id, v: Sandbox) returns (t: State)
    requires Lone(s, id) && s.cells[id].rec == Some(v) && v.id == id && !s.cells[id].locked
    requires (v.state.Created? || v.state.Exited?) && v.prepared
    ensures Lone(t, id) && t.cells[id] == Admitted(s.cells[id].(locked := true), v)
  {
    var c1 := Enter(s.cells[id], StartEntered);
    var s1 := Acts(s, id, StartLock, c1);
    var s2 := Acts(s1, id, StartGet(true), c1.(work := Some(StartReady(v))));
    t := Admits(s2, id, v);
  }

  function NextStage(stage: BootStage): BootStage {
    match stage
    case Ports => Net
    case Net => Dns
    case Dns => Vmm
    case Vmm => Pid
    case Pid => Ready
    case Ready => Run
    case Run => Watch
    case Watch => Watch
  }

  function StagesLeft(stage: BootStage): nat {
    match stage
    case Ports => 7
    case Net => 6
    case Dns => 5
    case Vmm => 4
    case Pid => 3
    case Ready => 2
    case Run => 1
    case Watch => 0
  }

  /** The VMM lives from the stage on in which it is launched. */
  predicate Booting(c: Cell, r: Sandbox, g: nat, stage: BootStage) {
    && c.work == Some(Boot(g, stage)) && (StagesLeft(stage) < 4 ==> c.held.vmm.Some?)
    && r.state.Starting? && c.rec == Some(if stage.Watch? then r.(state := Running) else r)
  }

  predicate SameButBoot(c: Cell, d: Cell) {
    d.callers == c.callers && d.audit == c.audit && d.locked == c.locked && d.saved == c.saved
  }

  lemma BootAdvances(c: Cell, r: Sandbox, g: nat, stage: BootStage)
    requires Booting(c, r, g, stage) && !stage.Watch?
    ensures var d := BootOnce(c, r, g, stage, true, true);
            d.Some? && Booting(d.value, r, g, NextStage(stage)) && SameButBoot(c, d.value)
  {
  }

  /** Every stage of a boot may succeed. */
  lemma Boots(s: State, id: Id, r: Sandbox, g: nat, stage: BootStage) returns (t: State)
    requires Lone(s, id) && Booting(s.cells[id], r, g, stage)
    ensures Lone(t, id) && Booting(t.cells[id], r, g, Watch) && SameButBoot(s.cells[id], t.cells[id])
    decreases StagesLeft(stage)
  {
    if stage.Watch? {
      t := s;
    } else {
      var c := s.cells[id];
      BootAdvances(c, r, g, stage);
      t := Acts(s, id, BootStep(true, true), BootOnce(c, r, g, stage, true, true).value);
      t := Boots(t, id, r, g, NextStage(stage));
    }
  }

  /** The invariant is not kept by doing nothing: some run has a live VMM on a volume. */
  lemma SandboxCanRun(id: Id, name: string, autoRemove: bool) returns (s: State, r: Sandbox)
    requires id != name
    ensures Lone(s, id) && s.cells[id].held.vmm.Some? && s.cells[id].rec == Some(r.(state := Running))
    ensures r.id == id && r.prepared && r.spec.mounts == {"data"} && r.spec.autoRemove == autoRemove &&
            r.generation == 1
    ensures Booting(s.cells[id], r, 1, Watch) && s.cells[id].callers == NO_CALLERS && s.cells[id].audit.starts == 1
  {
    var s0, v := Creates(id, name, autoRemove);
    var s1 := Starts(s0, id, v);
    r := s1.cells[id].rec.value;
    s := Boots(s1, id, r, 1, Ports);
  }

  /** A VMM may die while its record says that it runs. */
  lemma VmmCanDie(id: Id, name: string) returns (t: State)
    requires id != name
    ensures Reachable(t) && id in t.cells && t.cells[id].held.vmm.None?
    ensures t.cells[id].rec.Some? && t.cells[id].rec.value.state.Running?
  {
    var s, r := SandboxCanRun(id, name, false);
    t := Acts(s, id, VmmDies, s.cells[id].(held := s.cells[id].held.(vmm := None)));
  }

  // ----- Cleaning up -----

  /** A cell whose cleanup has succeeded and is about to be written. */
  function Cleaned(c: Cell, why: Why, g: nat): Cell {
    c.(held := Holdings(None, false, false, false, false),
        audit := c.audit.(killed := true, netGone := true, jailGone := true),
       work := Some(Clean(Cleanup(why, g, Commit, true, true, true))))
  }

  lemma Cleans(s: State, id: Id, why: Why, g: nat) returns (t: State)
    requires Lone(s, id) && s.cells[id].work == Some(NewCleanup(why, g)) && !why.Interrupted?
    ensures Lone(t, id) && t.cells[id] == Cleaned(s.cells[id], why, g)
  {
    var c0 := s.cells[id];
    var c1 := Killed(c0, c0.work.value.job, true);
    var s1 := Acts(s, id, KillStep(true), c1);
    var c2 := Unlistened(c1, c1.work.value.job);
    var s2 := Acts(s1, id, ListenersStep, c2);
    t := Unhooks(s2, id);
    assert t.cells[id].held == Holdings(None, false, false, false, false);
  }

  lemma Unhooks(s: State, id: Id) returns (t: State)
    requires Lone(s, id) && s.cells[id].work.Some? && InStage(s.cells[id], Network)
    ensures Lone(t, id)
    ensures var c, k := s.cells[id], s.cells[id].work.value.job;
            t.cells[id] == c.(held := c.held.(net := false, jail := false),
                audit := c.audit.(netGone := true, jailGone := true),
                              work := Some(Clean(k.(netOk := true, vmOk := true, stage := Commit))))
  {
    var c0 := s.cells[id];
    var c1 := Unnetworked(c0, c0.work.value.job, true);
    var s1 := Acts(s, id, NetworkStep(true), c1);
    t := Acts(s1, id, JailStep(true), Unjailed(c1, c1.work.value.job, true));
  }

  /** finish, with a cleanup that succeeds: the run's exit is written. */
  lemma Finishes(s: State, id: Id, r: Sandbox, g: nat) returns (t: State)
    requires Lone(s, id) && s.cells[id].rec == Some(r) && r.generation == g &&
             s.cells[id].work == Some(FinishEntered(g, None))
    ensures Lone(t, id)
    ensures var c, ended := s.cells[id], r.(state := Exited, released := true, exit := Some(Exit(g, None)));
            var d := Cleaned(c, Finished(None), g).(rec := Some(ended));
            t.cells[id] == if r.spec.autoRemove then d.(work := Some(Saving(Exit(g, None)))) else Release(d)
  {
    var c1 := s.cells[id].(work := Some(NewCleanup(Finished(None), g)));
    var s1 := Acts(s, id, FinishGet(true), c1);
    var s2 := Cleans(s1, id, Finished(None), g);
    var c2 := s2.cells[id];
    t := Acts(s2, id, CommitStep(true), Committed(c2, c2.work.value.job, true));
  }

  /** Start returns, and its monitor watches the run. */
  lemma Watches(s: State, id: Id, r: Sandbox) returns (t: State)
    requires Lone(s, id) && Booting(s.cells[id], r, 1, Watch) && s.cells[id].callers == NO_CALLERS
    ensures Lone(t, id) && t.cells[id] == Release(StartMonitor(s.cells[id], 1)) && 1 in t.cells[id].callers.watchers
  {
    t := Acts(s, id, BootWatch, Release(StartMonitor(s.cells[id], 1)));
  }

  // ----- A release taken back -----

  lemma FinishFails(s: State, id: Id, g: nat) returns (t: State)
    requires Lone(s, id) && s.cells[id].rec.Some? && s.cells[id].rec.value.generation == g
    requires s.cells[id].work == Some(FinishEntered(g, None))
    ensures Lone(t, id) && t.cells[id].audit == s.cells[id].audit
    ensures t.cells[id].rec == Some(s.cells[id].rec.value.(state := Failed, released := false))
  {
    var c1 := s.cells[id].(work := Some(NewCleanup(Finished(None), g)));
    var s1 := Acts(s, id, FinishGet(true), c1);
    var c2 := Killed(c1, c1.work.value.job, false);
    var s2 := Acts(s1, id, KillStep(false), c2);
    t := Acts(s2, id, CommitStep(true), Committed(c2, c2.work.value.job, true));
  }

  /** The monitor has called finish for a run, and a Stop that read the record during the run has not returned. */
  lemma StopIsPending(id: Id, name: string) returns (s: State, r: Sandbox)
    requires id != name
    ensures Lone(s, id) && s.cells[id].rec == Some(r) && r.generation == 1 && !r.spec.autoRemove
    ensures s.cells[id].work == Some(FinishEntered(1, None)) && 1 in s.cells[id].callers.stops
  {
    var s0, r0 := SandboxCanRun(id, name, false);
    var s1 := Watches(s0, id, r0);
    r := r0.(state := Running);
    var c1 := s1.cells[id];
    var c2 := c1.(callers := c1.callers.(stops := c1.callers.stops + multiset{1}));
    var s2 := Acts(s1, id, StopRead, c2);
    s := Acts(s2, id, FinishByMonitor(1, None), CallFinish(c2, 1, None));
  }

  /**
    * A confirmed release can be taken back without a new start: a Stop that read the record before its run ended may
    * call finish for that run again, and if Kill then reports an error, the exited record turns into a reserving
    * failed one. So exclusivity is a property of VMMs, not of reservations.
    */
  lemma ReleaseIsTakenBack(id: Id, name: string) returns (s: State, t: State)
    requires id != name
    ensures Lone(s, id) && s.cells[id].rec.Some? && s.cells[id].rec.value.released && !Reserves(s.cells[id].rec.value)
    ensures Lone(t, id) && t.cells[id].rec.Some? && Reserves(t.cells[id].rec.value)
    ensures s.cells[id].audit.starts == t.cells[id].audit.starts
  {
    var s0, r := StopIsPending(id, name);
    s := Finishes(s0, id, r, 1);
    var c := s.cells[id];
    var s1 := Acts(s, id, FinishByStop(1, None), CallFinish(StopReturns(c, 1), 1, None));
    t := FinishFails(s1, id, 1);
  }

  // ----- A result out of date -----

  lemma AutoRunEnds(id: Id, name: string) returns (s: State, v: Sandbox)
    requires id != name
    ensures Lone(s, id) && s.cells[id].rec == Some(v) && v.id == id && v.state.Exited? && v.prepared &&
            v.generation == 1
    ensures s.cells[id].work == Some(Saving(Exit(1, None))) && s.cells[id].audit.starts == 1
  {
    var s0, r := SandboxCanRun(id, name, true);
    var s1 := Watches(s0, id, r);
    var s2 := Acts(s1, id, FinishByMonitor(1, None), CallFinish(s1.cells[id], 1, None));
    s := Finishes(s2, id, r.(state := Running), 1);
    v := s.cells[id].rec.value;
  }

  /** A run's result is saved, but the record that was to be removed stays. */
  lemma RemovalIsPutOff(id: Id, name: string) returns (s: State, v: Sandbox)
    requires id != name
    ensures Lone(s, id) && s.cells[id].rec == Some(v) && v.id == id && v.state.Exited? && v.prepared &&
            v.generation == 1
    ensures !s.cells[id].locked && s.cells[id].saved == Some(Exit(1, None)) && s.cells[id].audit.starts == 1
  {
    var s0;
    s0, v := AutoRunEnds(id, name);
    var c1 := Saved(s0.cells[id], Exit(1, None), true);
    var s1 := Acts(s0, id, SaveStep(true), c1);
    s := Acts(s1, id, DeleteStep(false), Release(c1));
  }

  /** A start fails, and is cleaned up. */
  lemma StartFails(s: State, id: Id, r: Sandbox) returns (t: State)
    requires Lone(s, id) && s.cells[id].rec == Some(r) && r.state.Starting? &&
             s.cells[id].work == Some(Boot(r.generation, Ports))
    ensures Lone(t, id) && t.cells[id].rec == Some(r.(state := Failed, released := true)) && !t.cells[id].locked
    ensures t.cells[id].saved == s.cells[id].saved && t.cells[id].audit.starts == s.cells[id].audit.starts
  {
    var c1 := s.cells[id].(work := Some(NewCleanup(BootFailed, r.generation)));
    var s1 := Acts(s, id, BootStep(false, false), c1);
    var s2 := Cleans(s1, id, BootFailed, r.generation);
    var c2 := s2.cells[id];
    t := Acts(s2, id, CommitStep(true), Committed(c2, c2.work.value.job, true));
  }

  lemma RemovalCleans(s: State, id: Id, r: Sandbox) returns (t: State)
    requires Lone(s, id) && s.cells[id].rec == Some(r) && r.state.Failed? && !s.cells[id].locked
    ensures Lone(t, id) && t.cells[id] == Cleaned(s.cells[id].(locked := true), Removed, r.generation)
  {
    var c1 := Enter(s.cells[id], RemoveEntered(false));
    var s1 := Acts(s, id, RemoveLock(false), c1);
    var s2 := Acts(s1, id, RemoveGet(true), c1.(work := Some(NewCleanup(Removed, r.generation))));
    t := Cleans(s2, id, Removed, r.generation);
  }

  /** A failed sandbox is removed, which saves no result. */
  lemma Removes(s: State, id: Id, r: Sandbox) returns (t: State)
    requires Lone(s, id) && s.cells[id].rec == Some(r) && r.state.Failed? && !s.cells[id].locked
    ensures Lone(t, id) && t.cells[id].rec.None?
    ensures t.cells[id].saved == s.cells[id].saved && t.cells[id].audit.starts == s.cells[id].audit.starts
  {
    var s1 := RemovalCleans(s, id, r);
    var c1 := s1.cells[id];
    var c2 := Committed(c1, c1.work.value.job, true);
    var s2 := Acts(s1, id, CommitStep(true), c2);
    t := Acts(s2, id, DeleteStep(true), Release(c2.(rec := None)));
  }

  /**
    * The exit that Wait reports after removal need not be the latest run's: an automatic removal saves a result but is
    * put off, the sandbox is started once more, and is then removed by hand.
    */
  lemma StaleResultIsReported(id: Id, name: string) returns (s: State)
    requires id != name
    ensures Lone(s, id) && WaitOnce(s.cells[id].rec, s.cells[id].saved) == Ended(Exit(1, None)) &&
            s.cells[id].audit.starts == 2
  {
    var s0, v := RemovalIsPutOff(id, name);
    var s1 := Starts(s0, id, v);
    var s2 := StartFails(s1, id, s1.cells[id].rec.value);
    s := Removes(s2, id, s2.cells[id].rec.value);
  }
}
