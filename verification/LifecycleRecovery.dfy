/** What Recover achieves: no operation that a crash cut short is left half done. */
module LifecycleRecovery {
  import opened Basics
  import opened Records
  import opened Lifecycle
  import opened LifecycleInvariant
  import opened LifecycleProof
  import opened LifecycleSteps
  import opened LifecycleTheorems

  /** A create, a start or a removal is under way. */
  predicate Unsettled(rec: Option<Sandbox>) {
    rec.Some? && (rec.value.state.Creating? || rec.value.state.Starting? || rec.value.state.Removing?)
  }

  predicate IsInterrupted(c: Cell) {
    c.work.Some? && c.work.value.Clean? && c.work.value.job.why.Interrupted?
  }

  /** What may be done to a sandbox before the first request. */
  predicate RecoveryWork(w: Work) {
    || w.FinishEntered? || w.Saving? || w.Deleting?
    || (w.Clean? && (w.job.why.Finished? || w.job.why.Interrupted? || w.job.why.Quarantined?))
  }

  predicate Quiet(c: Cell) {
    c.callers.stops == multiset{} && (c.work.Some? ==> RecoveryWork(c.work.value))
  }

  /** No request is under way, and what is unsettled is still to be visited or being cleaned up. */
  ghost predicate Settling(s: State) {
    s.phase.Recovering? ==> forall id :: id in s.cells ==> SettlesIn(s.phase.todo, id, s.cells[id])
  }

  predicate SettlesIn(todo: map<Id, Sandbox>, id: Id, c: Cell) {
    Quiet(c) && (id !in todo && Unsettled(c.rec) ==> IsInterrupted(c))
  }

  predicate CommitsAreStored(a: Action) {
    a.Act? && a.a.CommitStep? ==> a.a.stored
  }

  // ----- Steps on one sandbox -----

  lemma CommitSettles(c: Cell, k: Cleanup)
    requires CellOk(c) && Quiet(c) && c.work == Some(Clean(k)) && k.stage.Commit?
    requires Unsettled(c.rec) ==> IsInterrupted(c)
    ensures Quiet(Committed(c, k, true)) && !Unsettled(Committed(c, k, true).rec)
  {
  }

  /** A cleanup that goes on keeps its reason and its record. */
  lemma CleanGoesOn(c: Cell, a: Local)
    requires CellOk(c) && Quiet(c) && LocalStep(c, a).Some? &&
             (a.KillStep? || a.ListenersStep? || a.NetworkStep? || a.JailStep?)
    ensures var d := LocalStep(c, a).value;
            Quiet(d) && d.rec == c.rec && (IsInterrupted(c) ==> IsInterrupted(d))
  {
  }

  lemma LocalSettles(c: Cell, a: Local)
    requires CellOk(c) && Quiet(c) && (Unsettled(c.rec) ==> IsInterrupted(c))
    requires LocalStep(c, a).Some? && !IsRequest(a) && (a.CommitStep? ==> a.stored)
    ensures var d := LocalStep(c, a).value;
            Quiet(d) && (Unsettled(d.rec) ==> IsInterrupted(d))
  {
    match a
    case CommitStep(_) => CommitSettles(c, c.work.value.job);
    case KillStep(_) | ListenersStep | NetworkStep(_) | JailStep(_) => CleanGoesOn(c, a);
    case _ =>
  }

  lemma VisitSettles(c: Cell, r: Sandbox, alive: bool, portsOk: bool, dnsOk: bool)
    requires Idle(c) && c.rec == Some(r)
    ensures var d := Visited(c, r, alive, portsOk, dnsOk).0;
            Quiet(d) && (Unsettled(d.rec) ==> IsInterrupted(d))
  {
  }

  // ----- Every step -----

  lemma CellSettles(c: Cell, a: Local, todo: map<Id, Sandbox>, id: Id)
    requires CellOk(c) && SettlesIn(todo, id, c) && (id in todo ==> Idle(c))
    requires LocalStep(c, a).Some? && !IsRequest(a) && (a.CommitStep? ==> a.stored)
    ensures SettlesIn(todo, id, LocalStep(c, a).value)
  {
    if id in todo {
      LocalIdle(c, a);
    } else {
      LocalSettles(c, a);
    }
  }

  lemma ActSettles(s: State, id: Id, a: Local)
    requires Inv(s) && Settling(s) && s.phase.Recovering? && Step(s, Act(id, a)).Some? && (a.CommitStep? ==> a.stored)
    ensures Settling(Step(s, Act(id, a)).value)
  {
    var c := s.cells[id];
    assert CellOk(c) && AtPeace(s.phase, id, c) && SettlesIn(s.phase.todo, id, c);
    CellSettles(c, a, s.phase.todo, id);
  }

  lemma BeginSettles(s: State)
    requires Inv(s) && s.phase.Down?
    ensures Settling(s.(phase := Recovering(Rows(s), None)))
  {
    forall id | id in s.cells
      ensures SettlesIn(Rows(s), id, s.cells[id])
    {
      assert AtPeace(s.phase, id, s.cells[id]);
    }
  }

  lemma VisitKeepsSettling(s: State, id: Id, alive: bool, portsOk: bool, dnsOk: bool)
    requires Inv(s) && Settling(s) && Visit(s, id, alive, portsOk, dnsOk).Some?
    ensures Settling(Visit(s, id, alive, portsOk, dnsOk).value)
  {
    var t := Visit(s, id, alive, portsOk, dnsOk).value;
    assert AtPeace(s.phase, id, s.cells[id]);
    VisitSettles(s.cells[id], s.phase.todo[id], alive, portsOk, dnsOk);
    forall k | k in t.cells && t.phase.Recovering?
      ensures SettlesIn(t.phase.todo, k, t.cells[k])
    {
      assert SettlesIn(s.phase.todo, k, s.cells[k]);
    }
  }

  lemma RecoverSettles(s: State, a: Action)
    requires Inv(s) && Settling(s) && RecoverStep(s, a).Some?
    ensures Settling(RecoverStep(s, a).value)
  {
    if a.RecoverBegin? {
      BeginSettles(s);
    } else if a.RecoverVisit? {
      VisitKeepsSettling(s, a.id, a.alive, a.portsOk, a.dnsOk);
    }
  }

  /** No request starts anything during recovery. */
  lemma RequestsWait(s: State, a: Action)
    requires Inv(s) && Settling(s) && s.phase.Recovering? && !a.Act? && RecoverStep(s, a).None?
    ensures Step(s, a).None?
  {
    if a.StartAllocate? && a.id in s.cells {
      assert SettlesIn(s.phase.todo, a.id, s.cells[a.id]);
    }
  }

  lemma PhaseStays(s: State, a: Action)
    requires Step(s, a).Some? && RecoverStep(s, a).None?
    ensures Step(s, a).value.phase == s.phase
  {
  }

  lemma StepSettles(s: State, a: Action)
    requires Inv(s) && Settling(s) && Step(s, a).Some? && CommitsAreStored(a)
    ensures Settling(Step(s, a).value)
  {
    if RecoverStep(s, a).Some? {
      RecoverSettles(s, a);
    } else if !s.phase.Recovering? {
      PhaseStays(s, a);
    } else if a.Act? {
      ActSettles(s, a.id, a.a);
    } else {
      RequestsWait(s, a);
      assert false;
    }
  }

  lemma {:induction false} RunSettles(s: State, schedule: seq<Action>)
    requires Inv(s) && Settling(s) && Exec(s, schedule).Some?
    requires forall i :: 0 <= i < |schedule| ==> CommitsAreStored(schedule[i])
    ensures Inv(Exec(s, schedule).value) && Settling(Exec(s, schedule).value)
  {
    if schedule != [] {
      var n := |schedule| - 1;
      RunSettles(s, schedule[..n]);
      var p := Exec(s, schedule[..n]).value;
      StepKept(p, schedule[n]);
      StepSettles(p, schedule[n]);
    }
  }

  /**
    * When Recover returns without an error, and every cleanup since it began was written, no record is left in the
    * middle of a create, a start or a removal: a crash at any point, and crashes during recovery, leave nothing half
    * done.
    */
  lemma RecoverySettles(s: State, begun: State, schedule: seq<Action>, recovered: State, t: State, id: Id)
    requires Reachable(s) && Step(s, RecoverBegin) == Some(begun)
    requires Exec(begun, schedule) == Some(recovered) && Step(recovered, RecoverDone) == Some(t) && id in t.cells
    requires forall i :: 0 <= i < |schedule| ==> CommitsAreStored(schedule[i])
    ensures !Unsettled(t.cells[id].rec)
  {
    ReachableInv(s);
    StepKept(s, RecoverBegin);
    RecoverSettles(s, RecoverBegin);
    RunSettles(begun, schedule);
    DoneIsSettled(recovered, id);
  }

  lemma DoneIsSettled(s: State, id: Id)
    requires Inv(s) && Settling(s) && s.phase == Recovering(map[], None) && id in s.cells
    ensures !Unsettled(s.cells[id].rec)
  {
    assert AtPeace(s.phase, id, s.cells[id]) && SettlesIn(s.phase.todo, id, s.cells[id]);
  }

  // ----- Runs that outlive the daemon -----

  /** Every finish begun reads its record and writes its outcome, and monitors keep watching. */
  predicate Smooth(a: Action) {
    CommitsAreStored(a) && (a.Act? ==> !a.a.MonitorExit? && (a.a.FinishGet? ==> a.a.ok))
  }

  predicate IsFinishing(c: Cell, g: nat) {
    && c.work.Some?
    && (|| (c.work.value.FinishEntered? && c.work.value.finishGen == g)
        || (c.work.value.Clean? && c.work.value.job.why.Finished? && c.work.value.job.gen == g))
  }

  /** A run is watched, only finish is at work on it, and until that begins to clean up the run's listeners are up. */
  predicate IsWatched(c: Cell, r: Sandbox) {
    && r.generation in c.callers.watchers
    && (c.work.Some? ==> c.work.value.FinishEntered? || IsFinishing(c, r.generation))
    && (c.work.None? || c.work.value.FinishEntered? ==> c.held.ports && (r.spec.bridge ==> c.held.dns))
  }

  /**
    * A sandbox that Recover has visited and that is still live is watched, or Recover is finishing it or cleaning it
    * up.
    */
  predicate Tended(todo: map<Id, Sandbox>, at: Option<Id>, id: Id, c: Cell) {
    id !in todo && c.rec.Some? && Live(c.rec.value.state) ==>
      || IsWatched(c, c.rec.value)
      || (at == Some(id) && (IsFinishing(c, c.rec.value.generation) || IsInterrupted(c)))
  }

  ghost predicate Tending(s: State) {
    s.phase.Recovering? ==> forall id :: id in s.cells ==> Tended(s.phase.todo, s.phase.at, id, s.cells[id])
  }

  lemma FinishTends(c: Cell, a: Local, r: Sandbox)
    requires CellOk(c) && Quiet(c) && c.rec == Some(r) && IsFinishing(c, r.generation)
    requires LocalStep(c, a).Some? && !IsRequest(a) && Smooth(Act("", a))
    ensures var d := LocalStep(c, a).value;
            d.rec.Some? && Live(d.rec.value.state) ==>
                  d.rec.value.generation == r.generation && IsFinishing(d, r.generation)
  {
  }

  lemma InterruptedTends(c: Cell, a: Local)
    requires CellOk(c) && Quiet(c) && IsInterrupted(c)
    requires LocalStep(c, a).Some? && !IsRequest(a) && Smooth(Act("", a))
    ensures var d := LocalStep(c, a).value;
            d.rec.Some? && Live(d.rec.value.state) ==> IsInterrupted(d)
  {
  }

  /** What is watched stays so, or finish has begun, whose outcome is not live. */
  lemma WatchedTends(c: Cell, a: Local, r: Sandbox)
    requires CellOk(c) && Quiet(c) && c.rec == Some(r) && Live(r.state) && IsWatched(c, r) && !IsInterrupted(c)
    requires LocalStep(c, a).Some? && !IsRequest(a) && Smooth(Act("", a))
    ensures var d := LocalStep(c, a).value;
            d.rec.Some? && Live(d.rec.value.state) ==>
                  d.rec.value.generation == r.generation && IsWatched(d, d.rec.value)
  {
  }

  /** A record that is not live does not become so. */
  lemma DeadStays(c: Cell, a: Local)
    requires CellOk(c) && Quiet(c) && (c.rec.Some? ==> !Live(c.rec.value.state))
    requires LocalStep(c, a).Some? && !IsRequest(a)
    ensures var d := LocalStep(c, a).value;
            d.rec.Some? ==> !Live(d.rec.value.state)
  {
  }

  lemma ActTends(s: State, id: Id, a: Local)
    requires Inv(s) && Settling(s) && Tending(s) && s.phase.Recovering? && Step(s, Act(id, a)).Some? &&
             Smooth(Act(id, a))
    ensures Tending(Step(s, Act(id, a)).value)
  {
    var c := s.cells[id];
    assert CellOk(c) && AtPeace(s.phase, id, c) && SettlesIn(s.phase.todo, id, c) &&
        Tended(s.phase.todo, s.phase.at, id, c);
    LocalTends(c, a, s.phase.todo, s.phase.at, id);
  }

  lemma LocalTends(c: Cell, a: Local, todo: map<Id, Sandbox>, at: Option<Id>, id: Id)
    requires CellOk(c) && Quiet(c) && Tended(todo, at, id, c)
    requires LocalStep(c, a).Some? && !IsRequest(a) && Smooth(Act(id, a))
    ensures Tended(todo, at, id, LocalStep(c, a).value)
  {
    if id !in todo {
      if c.rec.None? || !Live(c.rec.value.state) {
        DeadStays(c, a);
      } else if IsInterrupted(c) {
        InterruptedTends(c, a);
      } else if IsFinishing(c, c.rec.value.generation) && at == Some(id) {
        FinishTends(c, a, c.rec.value);
      } else {
        WatchedTends(c, a, c.rec.value);
      }
    }
  }

  lemma VisitTends(c: Cell, r: Sandbox, alive: bool, portsOk: bool, dnsOk: bool, todo: map<Id, Sandbox>, id: Id)
    requires Idle(c) && c.rec == Some(r)
    ensures var (d, on) := Visited(c, r, alive, portsOk, dnsOk);
            on ==> Tended(todo, if d.work.Some? then Some(id) else None, id, d)
  {
  }

  lemma OthersTended(todo: map<Id, Sandbox>, id: Id, at: Option<Id>, k: Id, c: Cell)
    requires k != id && Tended(todo, None, k, c)
    ensures Tended(todo - {id}, at, k, c)
  {
  }

  lemma VisitKeepsTending(s: State, id: Id, alive: bool, portsOk: bool, dnsOk: bool)
    requires PhaseOk(s) && Tending(s) && Visit(s, id, alive, portsOk, dnsOk).Some?
    ensures Tending(Visit(s, id, alive, portsOk, dnsOk).value)
  {
    var t := Visit(s, id, alive, portsOk, dnsOk).value;
    var todo := s.phase.todo;
    assert AtPeace(s.phase, id, s.cells[id]);
    VisitTends(s.cells[id], todo[id], alive, portsOk, dnsOk, todo - {id}, id);
    forall k | k in t.cells && t.phase.Recovering?
      ensures Tended(t.phase.todo, t.phase.at, k, t.cells[k])
    {
      if k != id {
        assert Tended(todo, None, k, s.cells[k]);
        OthersTended(todo, id, t.phase.at, k, s.cells[k]);
      }
    }
  }

  lemma ResumeTends(s: State)
    requires Inv(s) && Tending(s) && RecoverStep(s, RecoverResume).Some?
    ensures Tending(RecoverStep(s, RecoverResume).value)
  {
    var t := RecoverStep(s, RecoverResume).value;
    forall k | k in t.cells
      ensures Tended(t.phase.todo, t.phase.at, k, t.cells[k])
    {
      assert Tended(s.phase.todo, s.phase.at, k, s.cells[k]);
    }
  }

  lemma RecoverTends(s: State, a: Action)
    requires Inv(s) && Tending(s) && RecoverStep(s, a).Some?
    ensures Tending(RecoverStep(s, a).value)
  {
    if a.RecoverVisit? {
      VisitKeepsTending(s, a.id, a.alive, a.portsOk, a.dnsOk);
    } else if a.RecoverResume? {
      ResumeTends(s);
    }
  }

  lemma StepTends(s: State, a: Action)
    requires Inv(s) && Settling(s) && Tending(s) && Step(s, a).Some? && Smooth(a)
    ensures Tending(Step(s, a).value)
  {
    if RecoverStep(s, a).Some? {
      RecoverTends(s, a);
    } else if !s.phase.Recovering? {
      PhaseStays(s, a);
    } else if a.Act? {
      ActTends(s, a.id, a.a);
    } else {
      RequestsWait(s, a);
      assert false;
    }
  }

  lemma {:induction false} RunTends(s: State, schedule: seq<Action>)
    requires Inv(s) && Settling(s) && Tending(s) && Exec(s, schedule).Some?
    requires forall i :: 0 <= i < |schedule| ==> Smooth(schedule[i])
    ensures Inv(Exec(s, schedule).value) && Settling(Exec(s, schedule).value) && Tending(Exec(s, schedule).value)
  {
    if schedule != [] {
      var n := |schedule| - 1;
      RunTends(s, schedule[..n]);
      var p := Exec(s, schedule[..n]).value;
      StepKept(p, schedule[n]);
      StepSettles(p, schedule[n]);
      StepTends(p, schedule[n]);
    }
  }

  /**
    * When Recover returns, and every finish since it began has read and written its record and no monitor has given up,
    * every run that is still live on record is watched by a monitor, and its listeners are up unless finish has begun.
    */
  lemma RecoveryWatches(s: State, begun: State, schedule: seq<Action>, recovered: State, t: State, id: Id)
    requires Reachable(s) && Step(s, RecoverBegin) == Some(begun)
    requires Exec(begun, schedule) == Some(recovered) && Step(recovered, RecoverDone) == Some(t) && id in t.cells
    requires forall i :: 0 <= i < |schedule| ==> Smooth(schedule[i])
    ensures t.cells[id].rec.Some? && Live(t.cells[id].rec.value.state) ==> IsWatched(t.cells[id], t.cells[id].rec.value)
  {
    assert Inv(s) && Inv(begun) by {
      ReachableInv(s);
      StepKept(s, RecoverBegin);
    }
    RecoverSettles(s, RecoverBegin);
    BeginTends(s);
    RunTends(begun, schedule);
    assert Tended(recovered.phase.todo, recovered.phase.at, id, recovered.cells[id]);
  }

  lemma BeginTends(s: State)
    ensures Tending(s.(phase := Recovering(Rows(s), None)))
  {
  }
}
