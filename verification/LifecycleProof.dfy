/** Every step keeps the lifecycle invariant. */
module LifecycleProof {
  import opened Basics
  import opened Records
  import opened Sums
  import opened Lifecycle
  import opened LifecycleInvariant

  // ----- Steps on one sandbox -----

  predicate Good(c: Cell, d: Cell) {
    CellOk(d) && Keeps(c, d)
  }

  lemma BootGood(c: Cell, g: nat, stage: BootStage, ok: bool, launched: bool)
    requires CellOk(c)
    requires c.work == Some(Boot(g, stage))
    requires BootOnce(c, c.rec.value, g, stage, ok, launched).Some?
    ensures Good(c, BootOnce(c, c.rec.value, g, stage, ok, launched).value)
  {
  }

  lemma WatchGood(c: Cell, g: nat)
    requires CellOk(c)
    requires c.work == Some(Boot(g, Watch))
    ensures Good(c, Release(StartMonitor(c, g)))
  {
  }

  lemma KilledGood(c: Cell, k: Cleanup, ok: bool)
    requires CellOk(c)
    requires c.work == Some(Clean(k)) && k.stage.Kill?
    ensures Good(c, Killed(c, k, ok))
  {
    var d := Killed(c, k, ok);
    assert RecordOk(d.rec, d.held, d.audit);
  }

  lemma UnlistenedGood(c: Cell, k: Cleanup)
    requires CellOk(c)
    requires c.work == Some(Clean(k)) && k.stage.Listeners?
    ensures Good(c, Unlistened(c, k))
  {
  }

  lemma UnnetworkedGood(c: Cell, k: Cleanup, ok: bool)
    requires CellOk(c)
    requires c.work == Some(Clean(k)) && k.stage.Network?
    ensures Good(c, Unnetworked(c, k, ok))
  {
    var d := Unnetworked(c, k, ok);
    assert RecordOk(d.rec, d.held, d.audit);
  }

  lemma UnjailedGood(c: Cell, k: Cleanup, ok: bool)
    requires CellOk(c)
    requires c.work == Some(Clean(k)) && k.stage.Jail?
    ensures Good(c, Unjailed(c, k, ok))
  {
    var d := Unjailed(c, k, ok);
    assert RecordOk(d.rec, d.held, d.audit);
  }

  /** Whatever a cleanup writes agrees with what it has confirmed. */
  lemma OutcomeOk(r: Sandbox, h: Holdings, a: Audit, k: Cleanup)
    requires RecordOk(Some(r), h, a) && Progress(h, a, k) && Warrant(r, h, a, k) && k.stage.Commit? &&
             Outcome(r, k).Some?
    ensures RecordOk(Outcome(r, k), h, a) && SameGrant(r, Outcome(r, k).value)
  {
  }

  lemma CommittedGood(c: Cell, k: Cleanup, stored: bool)
    requires CellOk(c)
    requires c.work == Some(Clean(k)) && k.stage.Commit?
    ensures Good(c, Committed(c, k, stored))
  {
    var r := c.rec.value;
    if stored && Outcome(r, k).Some? {
      OutcomeOk(r, c.held, c.audit, k);
    }
    var d := Committed(c, k, stored);
    assert RecordOk(d.rec, d.held, d.audit);
    assert d.work.Some? ==> !Held(d.held) && Confirmed(d.audit);
  }

  lemma DeletedGood(c: Cell, ok: bool)
    requires CellOk(c)
    requires c.work == Some(Deleting)
    ensures Good(c, Release(if ok then c.(rec := None) else c))
  {
  }

  lemma SavedGood(c: Cell, result: Exit, ok: bool)
    requires CellOk(c)
    requires c.work == Some(Saving(result))
    ensures Good(c, Saved(c, result, ok))
  {
  }

  lemma PrunedGood(c: Cell)
    requires CellOk(c)
    ensures Good(c, c.(saved := None))
  {
  }

  /** Taking the lock of a sandbox that no one works on. */
  lemma EnterGood(c: Cell, w: Work)
    requires CellOk(c) && c.work.None?
    requires w.StartEntered? || w.RemoveEntered?
    ensures Good(c, Enter(c, w))
  {
  }

  lemma CallFinishGood(c: Cell, g: nat, code: Option<int>)
    requires CellOk(c) && c.work.None?
    ensures Good(c, CallFinish(c, g, code))
  {
  }

  lemma ReleaseGood(c: Cell)
    requires CellOk(c) && c.work.Some? && !Unlocked(c.work.value)
    ensures Good(c, Release(c))
  {
  }

  lemma CleanupGood(c: Cell, why: Why, g: nat)
    requires CellOk(c) && c.work.Some? && c.rec.Some? && c.rec.value.generation == g
    requires c.work == Some(if why.Finished? then FinishEntered(g, why.code) else c.work.value)
    requires why.Finished? || (c.work.value.RemoveEntered? && why.Removed?)
    ensures Good(c, c.(work := Some(NewCleanup(why, g))))
  {
  }

  lemma StopReturnsGood(c: Cell, g: nat)
    requires CellOk(c)
    ensures Good(c, StopReturns(c, g))
  {
  }

  lemma StopReadGood(c: Cell, g: nat)
    requires CellOk(c) && (c.work.Some? ==> !Unlocked(c.work.value))
    ensures Good(c, c.(callers := c.callers.(stops := c.callers.stops + multiset{g})))
  {
  }

  lemma StopMarkGood(c: Cell, g: nat)
    requires CellOk(c) && g in c.callers.stops && c.rec.Some? && Transition(c.rec.value, Stopping).Some?
    ensures Good(c, c.(rec := Transition(c.rec.value, Stopping)))
  {
  }

  lemma LockGood(c: Cell, a: Local)
    requires CellOk(c)
    requires a.StartLock? || a.RemoveLock? || a.FinishByMonitor? || a.FinishByStop?
    requires IsRequest(a) && c.work.Some? ==> !Unlocked(c.work.value)
    requires LocalStep(c, a).Some?
    ensures Good(c, LocalStep(c, a).value)
  {
    assert c.work.None?;
    match a
    case StartLock => EnterGood(c, StartEntered);
    case RemoveLock(force) => EnterGood(c, RemoveEntered(force));
    case FinishByMonitor(g, code) => CallFinishGood(c, g, code);
    case FinishByStop(g, code) =>
      StopReturnsGood(c, g);
      CallFinishGood(StopReturns(c, g), g, code);
  }

  lemma GetGood(c: Cell, a: Local)
    requires CellOk(c)
    requires a.StartGet? || a.FinishGet? || a.RemoveGet?
    requires LocalStep(c, a).Some?
    ensures Good(c, LocalStep(c, a).value)
  {
    var d := LocalStep(c, a).value;
    if d == Release(c) {
      ReleaseGood(c);
    } else {
      match a
      case StartGet(_) =>
      case FinishGet(_) => CleanupGood(c, Finished(c.work.value.code), c.work.value.finishGen);
      case RemoveGet(_) => CleanupGood(c, Removed, c.rec.value.generation);
    }
  }

  lemma StopReadStep(c: Cell)
    requires CellOk(c) && (c.work.Some? ==> !Unlocked(c.work.value)) && LocalStep(c, StopRead).Some?
    ensures Good(c, LocalStep(c, StopRead).value)
  {
    StopReadGood(c, c.rec.value.generation);
  }

  lemma StopMarkStep(c: Cell, g: nat, stored: bool)
    requires CellOk(c) && LocalStep(c, StopMark(g, stored)).Some?
    ensures Good(c, LocalStep(c, StopMark(g, stored)).value)
  {
    if LocalStep(c, StopMark(g, stored)).value != c {
      StopMarkGood(c, g);
    }
  }

  lemma DeathGood(c: Cell)
    requires CellOk(c)
    ensures Good(c, c.(held := c.held.(vmm := None)))
  {
  }

  lemma MonitorReturnsGood(c: Cell, g: nat)
    requires CellOk(c) && g in c.callers.watchers
    ensures Good(c, MonitorReturns(c, g))
  {
    assert CallersOk(MonitorReturns(c, g).callers, c.audit.starts);
  }

  lemma CleanGood(c: Cell, a: Local)
    requires CellOk(c)
    requires a.KillStep? || a.ListenersStep? || a.NetworkStep? || a.JailStep? || a.CommitStep? || a.DeleteStep?
    requires LocalStep(c, a).Some?
    ensures Good(c, LocalStep(c, a).value)
  {
    match a
    case KillStep(ok) => KilledGood(c, c.work.value.job, ok);
    case ListenersStep => UnlistenedGood(c, c.work.value.job);
    case NetworkStep(ok) => UnnetworkedGood(c, c.work.value.job, ok);
    case JailStep(ok) => UnjailedGood(c, c.work.value.job, ok);
    case CommitStep(stored) => CommittedGood(c, c.work.value.job, stored);
    case DeleteStep(ok) => DeletedGood(c, ok);
  }

  lemma LocalGood(c: Cell, a: Local)
    requires CellOk(c)
    requires IsRequest(a) && c.work.Some? ==> !Unlocked(c.work.value)
    requires LocalStep(c, a).Some?
    ensures Good(c, LocalStep(c, a).value)
  {
    match a
    case BootStep(ok, launched) => BootGood(c, c.work.value.gen, c.work.value.bootStage, ok, launched);
    case BootWatch => WatchGood(c, c.work.value.gen);
    case StartLock | RemoveLock(_) | FinishByMonitor(_, _) | FinishByStop(_, _) => LockGood(c, a);
    case StartGet(_) | FinishGet(_) | RemoveGet(_) => GetGood(c, a);
    case StopRead => StopReadStep(c);
    case StopMark(g, stored) => StopMarkStep(c, g, stored);
    case StopDone(g) => StopReturnsGood(c, g);
    case VmmDies => DeathGood(c);
    case SaveStep(ok) => SavedGood(c, c.work.value.result, ok);
    case PruneStep => PrunedGood(c);
    case MonitorExit(g) => MonitorReturnsGood(c, g);
    case KillStep(_) | ListenersStep | NetworkStep(_) | JailStep(_) | CommitStep(_) | DeleteStep(_) => CleanGood(c, a);
  }

  lemma LocalAdmitting(c: Cell, a: Local)
    requires LocalStep(c, a).Some? && (IsAdmitting(c) ==> c.locked)
    ensures IsAdmitting(LocalStep(c, a).value) <==> IsAdmitting(c)
  {
    if a.KillStep? || a.ListenersStep? || a.NetworkStep? || a.JailStep? || a.CommitStep? {
      CleanCleans(c, a);
    }
  }

  /** Nothing but Recover works without the lock, and only requests bring requests. */
  predicate Peaceful(c: Cell, d: Cell) {
    && (d.work.Some? && Unlocked(d.work.value) ==> c.work.Some? && Unlocked(c.work.value))
    && (NoRequests(c) ==> NoRequests(d))
  }

  lemma BootPeace(c: Cell, g: nat, stage: BootStage, ok: bool, launched: bool)
    requires c.rec.Some? && c.work == Some(Boot(g, stage))
    requires BootOnce(c, c.rec.value, g, stage, ok, launched).Some?
    ensures Peaceful(c, BootOnce(c, c.rec.value, g, stage, ok, launched).value)
  {
  }

  /** A cleanup goes on for the same reason, goes on to save or delete, or ends. */
  predicate Cleans(d: Cell, k: Cleanup) {
    d.work.Some? ==>
      || d.work.value.Saving? || d.work.value.Deleting?
      || (d.work.value.Clean? && d.work.value.job.why == k.why)
  }

  lemma CleanCleans(c: Cell, a: Local)
    requires a.KillStep? || a.ListenersStep? || a.NetworkStep? || a.JailStep? || a.CommitStep?
    requires LocalStep(c, a).Some?
    ensures c.work.Some? && c.work.value.Clean?
    ensures Cleans(LocalStep(c, a).value, c.work.value.job) && LocalStep(c, a).value.callers == c.callers
  {
  }

  lemma LocalPeace(c: Cell, a: Local)
    requires LocalStep(c, a).Some? && !IsRequest(a)
    ensures Peaceful(c, LocalStep(c, a).value)
  {
    match a
    case BootStep(ok, launched) => BootPeace(c, c.work.value.gen, c.work.value.bootStage, ok, launched);
    case KillStep(_) | ListenersStep | NetworkStep(_) | JailStep(_) | CommitStep(_) => CleanCleans(c, a);
    case _ =>
  }

  lemma RequestPeace(c: Cell, a: Local)
    requires LocalStep(c, a).Some? && IsRequest(a) && (c.work.Some? ==> !Unlocked(c.work.value))
    ensures var w := LocalStep(c, a).value.work;
            w.Some? ==> !Unlocked(w.value)
  {
  }

  lemma LocalIdle(c: Cell, a: Local)
    requires LocalStep(c, a).Some? && !IsRequest(a) && Idle(c)
    ensures Idle(LocalStep(c, a).value) && LocalStep(c, a).value.rec == c.rec
  {
  }

  // ----- Changing one cell -----

  lemma LoadsSet(s: State, id: Id, c: Cell)
    ensures Loads(SetCell(s, id, c)) == Loads(s)[id := Load(c)]
  {
  }

  lemma LoadShrinks(s: State, id: Id, d: Cell)
    requires id in s.cells && Keeps(s.cells[id], d)
    ensures Sum(Loads(SetCell(s, id, d))) <= Sum(Loads(s))
  {
    LoadsSet(s, id, d);
    SumSet(Loads(s), id, Load(d));
  }

  lemma TableSet(s: State, id: Id, d: Cell)
    requires TableOk(s)
    requires d.rec.Some? ==> GrantOk(s, id, d.rec.value) && d.rec.value.name != id
    requires forall k :: k in s.cells && k != id && s.cells[k].rec.Some? ==>
               s.cells[k].rec.value.name != id && (d.rec.Some? ==> Compatible(s.cells[k].rec.value, d.rec.value))
    ensures TableOk(SetCell(s, id, d))
  {
    var t := SetCell(s, id, d);
    forall k | k in t.cells && t.cells[k].rec.Some?
      ensures GrantOk(t, k, t.cells[k].rec.value)
    {
      if k != id {
        assert GrantOk(s, k, s.cells[k].rec.value);
      }
    }
  }

  lemma TableKept(s: State, id: Id, d: Cell)
    requires TableOk(s) && id in s.cells && Keeps(s.cells[id], d)
    ensures TableOk(SetCell(s, id, d))
  {
    if d.rec.Some? {
      assert GrantOk(s, id, s.cells[id].rec.value);
      forall k | k in s.cells && k != id && s.cells[k].rec.Some?
        ensures Compatible(s.cells[k].rec.value, d.rec.value)
      {
        assert Compatible(s.cells[k].rec.value, s.cells[id].rec.value);
      }
    }
    TableSet(s, id, d);
  }

  lemma ApartInactive(s: State, id: Id, d: Cell)
    requires VolumesApart(s) && !Active(d)
    ensures VolumesApart(SetCell(s, id, d))
  {
    var t := SetCell(s, id, d);
    forall a, b | a in t.cells && b in t.cells && a != b
      ensures Apart(t.cells[a], t.cells[b])
    {
      assert a != id && b != id ==> Apart(s.cells[a], s.cells[b]);
    }
  }

  lemma ApartKept(s: State, id: Id, d: Cell)
    requires VolumesApart(s) && id in s.cells && Keeps(s.cells[id], d)
    ensures VolumesApart(SetCell(s, id, d))
  {
    var t := SetCell(s, id, d);
    forall a, b | a in t.cells && b in t.cells && a != b
      ensures Apart(t.cells[a], t.cells[b])
    {
      assert Apart(s.cells[a], s.cells[b]);
    }
  }

  lemma ClearedKept(s: State, id: Id, d: Cell, v: Sandbox, available: nat)
    requires Cleared(s, v, available) && id in s.cells && Keeps(s.cells[id], d)
    ensures Cleared(SetCell(s, id, d), v, available)
  {
    LoadShrinks(s, id, d);
  }

  lemma AdmittingKept(s: State, id: Id, d: Cell, who: Option<Id>)
    requires AdmittingOnly(s, who) && id in s.cells && (IsAdmitting(d) <==> IsAdmitting(s.cells[id]))
    ensures AdmittingOnly(SetCell(s, id, d), who)
  {
  }

  lemma ClearedStartKept(s: State, id: Id, d: Cell)
    requires AllocationOk(s) && s.alloc.Some? && s.alloc.value.StartCleared? && id in s.cells
    requires CellOk(s.cells[s.alloc.value.id]) && CellOk(d)
    requires Keeps(s.cells[id], d) && (IsAdmitting(d) <==> IsAdmitting(s.cells[id]))
    ensures AllocationOk(SetCell(s, id, d))
  {
    var t, w := SetCell(s, id, d), s.alloc.value.id;
    AdmittingKept(s, id, d, Some(w));
    assert IsAdmitting(t.cells[w]) && t.cells[w].rec.Some?;
    ClearedKept(s, id, d, s.cells[w].rec.value, s.alloc.value.available);
    assert Cleared(t, t.cells[w].rec.value, s.alloc.value.available);
  }

  lemma AllocationKept(s: State, id: Id, d: Cell)
    requires AllocationOk(s) && id in s.cells
    requires s.alloc.Some? && s.alloc.value.StartCleared? ==> CellOk(s.cells[s.alloc.value.id])
    requires CellOk(d) && Keeps(s.cells[id], d) && (IsAdmitting(d) <==> IsAdmitting(s.cells[id]))
    ensures AllocationOk(SetCell(s, id, d))
  {
    if s.alloc.Some? && s.alloc.value.StartCleared? {
      ClearedStartKept(s, id, d);
    } else if s.alloc.Some? && s.alloc.value.StartHolds? {
      AdmittingKept(s, id, d, Some(s.alloc.value.id));
    } else {
      AdmittingKept(s, id, d, None);
    }
  }

  lemma CellsKept(s: State, id: Id, d: Cell)
    requires CellsOk(s) && id in s.cells && CellOk(d) && Keeps(s.cells[id], d)
    ensures CellsOk(SetCell(s, id, d))
  {
    TableKept(s, id, d);
    ApartKept(s, id, d);
    LoadShrinks(s, id, d);
  }

  /** The cells' part of the invariant does not depend on the allocations lock or the phase. */
  lemma CellsSame(s: State, t: State)
    requires CellsOk(s) && t.cells == s.cells && t.volumes >= s.volumes && t.budget == s.budget
    ensures CellsOk(t)
  {
    assert Loads(t) == Loads(s);
    forall id | id in t.cells && t.cells[id].rec.Some?
      ensures GrantOk(t, id, t.cells[id].rec.value)
    {
      assert GrantOk(s, id, s.cells[id].rec.value);
    }
  }

  lemma PeaceSet(s: State, id: Id, d: Cell)
    requires PhaseOk(s) && id in s.cells && AtPeace(s.phase, id, d)
    ensures PhaseOk(SetCell(s, id, d))
  {
  }

  lemma PeaceKept(s: State, id: Id, a: Local)
    requires PhaseOk(s) && Step(s, Act(id, a)).Some?
    ensures PhaseOk(Step(s, Act(id, a)).value)
  {
    var c := s.cells[id];
    assert AtPeace(s.phase, id, c);
    if IsRequest(a) {
      RequestPeace(c, a);
    } else {
      LocalPeace(c, a);
      if Idle(c) {
        LocalIdle(c, a);
      }
    }
    PeaceSet(s, id, LocalStep(c, a).value);
  }

  /** What a step on one sandbox that may happen now does to its cell. */
  lemma ActGood(s: State, id: Id, a: Local, d: Cell)
    requires Inv(s) && id in s.cells && (IsRequest(a) ==> s.phase.Serving?) && LocalStep(s.cells[id], a) == Some(d)
    ensures Good(s.cells[id], d) && (IsAdmitting(d) <==> IsAdmitting(s.cells[id]))
  {
    var c := s.cells[id];
    assert CellOk(c) && AtPeace(s.phase, id, c);
    LocalGood(c, a);
    LocalAdmitting(c, a);
  }

  lemma ActKept(s: State, id: Id, a: Local)
    requires Inv(s) && Step(s, Act(id, a)).Some?
    ensures Inv(Step(s, Act(id, a)).value)
  {
    var d := LocalStep(s.cells[id], a).value;
    ActGood(s, id, a, d);
    assert CellsOk(SetCell(s, id, d)) by { CellsKept(s, id, d); }
    assert AllocationOk(SetCell(s, id, d)) by { AllocationKept(s, id, d); }
    PeaceKept(s, id, a);
  }
}
