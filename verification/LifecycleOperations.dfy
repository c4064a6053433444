/**
  * Each operation of the daemon when nothing interferes with it: what it leaves behind, for every outcome of the calls
  * that it makes.
  */
module LifecycleOperations {
  import opened Basics
  import opened Records
  import opened Sums
  import opened Lifecycle
  import opened LifecycleInvariant

  /** Steps on one sandbox, one after another. */
  function Run(c: Cell, steps: seq<Local>): Option<Cell>
    decreases |steps|
  {
    if steps == [] then Some(c)
    else
      var d := LocalStep(c, steps[0]);
      if d.None? then None else Run(d.value, steps[1..])
  }

  lemma RunOne(c: Cell, a: Local, rest: seq<Local>, d: Cell)
    requires LocalStep(c, a) == Some(d)
    ensures Run(c, [a] + rest) == Run(d, rest)
  {
    assert ([a] + rest)[1..] == rest;
  }

  lemma RunLast(c: Cell, a: Local, d: Cell)
    requires LocalStep(c, a) == Some(d)
    ensures Run(c, [a]) == Some(d)
  {
    assert [a][1..] == [];
  }

  lemma {:induction false} RunAcross(c: Cell, a: seq<Local>, b: seq<Local>, d: Cell)
    requires Run(c, a) == Some(d)
    ensures Run(c, a + b) == Run(d, b)
    decreases |a|
  {
    if a == [] {
      assert a + b == b;
    } else {
      var e := LocalStep(c, a[0]).value;
      assert a + b == [a[0]] + (a[1..] + b);
      RunOne(c, a[0], a[1..] + b, e);
      RunAcross(e, a[1..], b, d);
    }
  }

  // ----- The cleanup that finish, Start's failure and Recover share -----

  /** How the backend calls of a cleanup turn out. */
  datatype Calls = Calls(kill: bool, network: bool, jail: bool)

  predicate AllOk(o: Calls) {
    o.kill && o.network && o.jail
  }

  function CleanSteps(o: Calls): seq<Local> {
    if o.kill then [KillStep(true)] + ([ListenersStep] + ([NetworkStep(o.network)] + [JailStep(o.jail)]))
    else [KillStep(false)]
  }

  /** What is left of the host resources. */
  function Left(h: Holdings, o: Calls, listeners: bool): Holdings {
    if !o.kill then h
    else Holdings(None, h.net && !o.network, h.jail && !o.jail, h.ports && listeners, h.dns && listeners)
  }

  predicate Unchanged(c: Cell, d: Cell) {
    d.rec == c.rec && d.callers == c.callers && d.locked == c.locked && d.saved == c.saved &&
        d.audit.calls == c.audit.calls
  }

  lemma HookedAlone(c: Cell, k: Cleanup, o: Calls)
    requires c.work == Some(Clean(k)) && k.stage.Network? && !k.why.Removed? && o.kill && k.killed && !k.netOk &&
             !k.vmOk
    ensures var d := Run(c, [NetworkStep(o.network)] + [JailStep(o.jail)]);
            && d.Some? && Unchanged(c, d.value)
            && d.value.held == c.held.(net := c.held.net && !o.network, jail := c.held.jail && !o.jail)
            && d.value.work == Some(Clean(Cleanup(k.why, k.gen, Commit, true, o.network, o.jail)))
  {
    var c1 := Unnetworked(c, k, o.network);
    RunOne(c, NetworkStep(o.network), [JailStep(o.jail)], c1);
    RunLast(c1, JailStep(o.jail), Unjailed(c1, c1.work.value.job, o.jail));
  }

  lemma CleanAlone(c: Cell, why: Why, g: nat, o: Calls)
    requires c.work == Some(NewCleanup(why, g)) && !why.Removed?
    ensures var d := Run(c, CleanSteps(o));
            && d.Some? && Unchanged(c, d.value) && d.value.held == Left(c.held, o, why.Interrupted?)
            && d.value.work == Some(Clean(Cleanup(why, g, Commit, o.kill, o.kill && o.network, o.kill && o.jail)))
  {
    var c1 := Killed(c, c.work.value.job, o.kill);
    if o.kill {
      var rest := [NetworkStep(o.network)] + [JailStep(o.jail)];
      var c2 := Unlistened(c1, c1.work.value.job);
      RunOne(c, KillStep(true), [ListenersStep] + rest, c1);
      RunOne(c1, ListenersStep, rest, c2);
      HookedAlone(c2, c2.work.value.job, o);
    } else {
      RunLast(c, KillStep(false), c1);
    }
  }

  /** A cleanup and the write of its outcome. */
  lemma CleanAndCommit(c: Cell, why: Why, g: nat, o: Calls) returns (d: Cell)
    requires c.work == Some(NewCleanup(why, g)) && !why.Removed? && c.rec.Some?
    ensures Run(c, CleanSteps(o) + [CommitStep(true)]) == Some(d) && d.held == Left(c.held, o, why.Interrupted?)
    ensures d.callers == c.callers && d.saved == c.saved && d.audit.calls == c.audit.calls
    ensures var k := Cleanup(why, g, Commit, o.kill, o.kill && o.network, o.kill && o.jail);
            && d.rec == (if Outcome(c.rec.value, k).Some? then Outcome(c.rec.value, k) else c.rec)
            && d.work == (if why.Finished? && AllOk(o) && c.rec.value.spec.autoRemove
                          then Some(Saving(Exit(g, why.code))) else None)
            && d.locked == (d.work.Some? && c.locked)
  {
    CleanAlone(c, why, g, o);
    var c1 := Run(c, CleanSteps(o)).value;
    d := Committed(c1, c1.work.value.job, true);
    RunAcross(c, CleanSteps(o), [CommitStep(true)], c1);
    RunLast(c1, CommitStep(true), d);
  }

  // ----- finish -----

  function FinishSteps(call: Local, o: Calls): seq<Local> {
    [call] + ([FinishGet(true)] + (CleanSteps(o) + [CommitStep(true)]))
  }

  /**
    * What finish writes: the exit it was given unless Kill failed, and exited and released exactly if all calls
    * succeed.
    */
  function Finished(r: Sandbox, code: Option<int>, o: Calls): Sandbox {
    r.(state := if AllOk(o) then Exited else Failed, released := AllOk(o),
       exit := if o.kill then Some(Exit(r.generation, code)) else r.exit)
  }

  lemma FinishAlone(c: Cell, r: Sandbox, code: Option<int>, o: Calls) returns (d: Cell)
    requires c.rec == Some(r) && r.generation in c.callers.watchers && !c.locked
    ensures Run(c, FinishSteps(FinishByMonitor(r.generation, code), o)) == Some(d)
    ensures d.rec == Some(Finished(r, code, o)) && d.held == Left(c.held, o, false) && d.callers == c.callers
    ensures d.work == if AllOk(o) && r.spec.autoRemove then Some(Saving(Exit(r.generation, code))) else None
    ensures d.locked == d.work.Some?
  {
    var g, rest := r.generation, CleanSteps(o) + [CommitStep(true)];
    var c1 := CallFinish(c, g, code);
    var c2 := c1.(work := Some(NewCleanup(Why.Finished(code), g)));
    RunOne(c, FinishByMonitor(g, code), [FinishGet(true)] + rest, c1);
    RunOne(c1, FinishGet(true), rest, c2);
    d := CleanAndCommit(c2, Why.Finished(code), g, o);
  }

  /** An automatic removal saves the result before it deletes the record; if it cannot save it, the record stays. */
  lemma AutoRemoveAlone(c: Cell, result: Exit, deleted: bool) returns (d: Cell, e: Cell)
    requires c.work == Some(Saving(result))
    ensures Run(c, [SaveStep(true)] + [DeleteStep(deleted)]) == Some(d) && Run(c, [SaveStep(false)]) == Some(e)
    ensures d == c.(rec := if deleted then None else c.rec, saved := Some(result), audit := c.audit.(kept := true),
                    work := None, locked := false)
    ensures e == c.(work := None, locked := false)
  {
    var c1 := Saved(c, result, true);
    d := LocalStep(c1, DeleteStep(deleted)).value;
    e := Release(c);
    RunOne(c, SaveStep(true), [DeleteStep(deleted)], c1);
    RunLast(c1, DeleteStep(deleted), d);
    RunLast(c, SaveStep(false), e);
  }

  /** Watching a run that is watched starts no second monitor. */
  lemma MonitorStartsOnce(c: Cell, g: nat)
    ensures var d := StartMonitor(c, g);
            && StartMonitor(d, g) == d && d.callers.monitor == Some(g) && d == c.(callers := d.callers)
            && d.callers.watchers[g] == c.callers.watchers[g] + if c.callers.monitor == Some(g) then 0 else 1
  {
  }

  /** When a monitor returns, its goroutine is gone, and the table forgets it unless a later run has taken its place. */
  lemma MonitorLeaves(c: Cell, g: nat) returns (d: Cell)
    requires g in c.callers.watchers
    ensures LocalStep(c, MonitorExit(g)) == Some(d) && d == c.(callers := d.callers) &&
            d.callers.stops == c.callers.stops
    ensures d.callers.watchers + multiset{g} == c.callers.watchers
    ensures d.callers.monitor != Some(g) && (c.callers.monitor != Some(g) ==> d.callers.monitor == c.callers.monitor)
  {
    d := MonitorReturns(c, g);
  }

  /** finish for a run that is not the record's latest does nothing. */
  lemma StaleFinishAlone(c: Cell, r: Sandbox, g: nat, code: Option<int>) returns (d: Cell)
    requires c.rec == Some(r) && r.generation != g && g in c.callers.watchers && !c.locked
    ensures Run(c, [FinishByMonitor(g, code)] + [FinishGet(true)]) == Some(d)
    ensures d.rec == c.rec && d.held == c.held && d.work.None? && !d.locked
  {
    var c1 := CallFinish(c, g, code);
    d := Release(c1);
    RunOne(c, FinishByMonitor(g, code), [FinishGet(true)], c1);
    RunLast(c1, FinishGet(true), d);
  }

  // ----- Start -----

  /** Start takes on a sandbox exactly if it is created or exited and has a base. */
  lemma StartTakes(c: Cell, v: Sandbox) returns (d: Cell)
    requires c.rec == Some(v) && !c.locked
    ensures Run(c, [StartLock] + [StartGet(true)]) == Some(d)
    ensures (v.state.Created? || v.state.Exited?) && v.prepared ==> d == c.(locked := true, work := Some(StartReady(v)))
    ensures !((v.state.Created? || v.state.Exited?) && v.prepared) ==> d == c.(work := None)
  {
    var c1 := Enter(c, StartEntered);
    d := LocalStep(c1, StartGet(true)).value;
    RunOne(c, StartLock, [StartGet(true)], c1);
    RunLast(c1, StartGet(true), d);
  }

  const BOOT: seq<Local> := [BootStep(true, true)]

  /** An admitted Start in which every call succeeds: the run, its listeners and its monitor are up. */
  lemma BootAlone(c: Cell, r: Sandbox, g: nat) returns (d: Cell)
    requires c.rec == Some(r) && r.state.Starting? && c.work == Some(Boot(g, Ports)) && c.callers.monitor != Some(g)
    ensures Run(c, BOOT + (BOOT + (BOOT + (BOOT + (BOOT + (BOOT + (BOOT + [BootWatch]))))))) == Some(d)
    ensures d.rec == Some(r.(state := Running)) && d.work.None? && !d.locked && d.audit == c.audit
    ensures d.held == Holdings(Some(g), c.held.net || r.spec.bridge, true, true, c.held.dns || r.spec.bridge)
    ensures d.callers == c.callers.(monitor := Some(g), watchers := c.callers.watchers + multiset{g})
  {
    var h := c.held.(ports := true, net := c.held.net || r.spec.bridge, dns := c.held.dns || r.spec.bridge);
    var c3 := c.(held := h, work := Some(Boot(g, Vmm)));
    d := VmmAlone(c3, r, g);
    ListenAlone(c, r, g, c3, BOOT + (BOOT + (BOOT + (BOOT + [BootWatch]))));
  }

  lemma ListenAlone(c: Cell, r: Sandbox, g: nat, d: Cell, rest: seq<Local>)
    requires c.rec == Some(r) && c.work == Some(Boot(g, Ports))
    requires d == c.(work := Some(Boot(g, Vmm)),
                     held := c.held.(ports := true, net := c.held.net || r.spec.bridge,
                                     dns := c.held.dns || r.spec.bridge))
    ensures Run(c, BOOT + (BOOT + (BOOT + rest))) == Run(d, rest)
  {
    var c1 := c.(held := c.held.(ports := true), work := Some(Boot(g, Net)));
    var c2 := c1.(held := c1.held.(net := c.held.net || r.spec.bridge), work := Some(Boot(g, Dns)));
    RunOne(c, BootStep(true, true), BOOT + (BOOT + rest), c1);
    RunOne(c1, BootStep(true, true), BOOT + rest, c2);
    RunOne(c2, BootStep(true, true), rest, d);
  }

  lemma VmmAlone(c: Cell, r: Sandbox, g: nat) returns (d: Cell)
    requires c.rec == Some(r) && r.state.Starting? && c.work == Some(Boot(g, Vmm)) && c.callers.monitor != Some(g)
    ensures Run(c, BOOT + (BOOT + (BOOT + (BOOT + [BootWatch])))) == Some(d)
    ensures d.rec == Some(r.(state := Running)) && d.work.None? && !d.locked && d.audit == c.audit
    ensures d.held == c.held.(vmm := Some(g), jail := true)
    ensures d.callers == c.callers.(monitor := Some(g), watchers := c.callers.watchers + multiset{g})
  {
    var c1 := c.(held := c.held.(jail := true, vmm := Some(g)), work := Some(Boot(g, Pid)));
    var c2 := c1.(work := Some(Boot(g, Ready)));
    var c3 := c1.(work := Some(Boot(g, BootStage.Run)));
    var c4 := c1.(rec := Some(r.(state := Running)), work := Some(Boot(g, Watch)));
    d := Release(StartMonitor(c4, g));
    RunOne(c, BootStep(true, true), BOOT + (BOOT + (BOOT + [BootWatch])), c1);
    RunOne(c1, BootStep(true, true), BOOT + (BOOT + [BootWatch]), c2);
    RunOne(c2, BootStep(true, true), BOOT + [BootWatch], c3);
    RunOne(c3, BootStep(true, true), [BootWatch], c4);
    RunLast(c4, BootWatch, d);
  }

  /** A stage of a start fails: the sandbox is failed, and released exactly if all calls of the cleanup succeed. */
  lemma BootFailsAlone(c: Cell, r: Sandbox, g: nat, stage: BootStage, launched: bool, o: Calls) returns (d: Cell)
    requires c.rec == Some(r) && (r.state.Starting? || r.state.Stopping?) && c.work == Some(Boot(g, stage)) &&
             !stage.Watch?
    ensures Run(c, [BootStep(false, launched)] + (CleanSteps(o) + [CommitStep(true)])) == Some(d)
    ensures d.rec == Some(r.(state := Failed, released := AllOk(o))) && d.work.None? && !d.locked &&
            d.callers == c.callers
    ensures AllOk(o) ==> !Held(d.held)
    ensures !o.kill ==> d.held.vmm == (if stage.Vmm? && launched then Some(g) else c.held.vmm)
  {
    var c1 := BootOnce(c, r, g, stage, false, launched).value;
    RunOne(c, BootStep(false, launched), CleanSteps(o) + [CommitStep(true)], c1);
    d := CleanAndCommit(c1, BootFailed, g, o);
  }

  // ----- Remove -----

  /** Remove leaves a live sandbox alone unless it is forced. */
  lemma RemoveRefuses(c: Cell, r: Sandbox) returns (d: Cell)
    requires c.rec == Some(r) && Live(r.state) && !c.locked
    ensures Run(c, [RemoveLock(false)] + [RemoveGet(true)]) == Some(d) && d == c.(work := None)
  {
    var c1 := Enter(c, RemoveEntered(false));
    d := Release(c1);
    RunOne(c, RemoveLock(false), [RemoveGet(true)], c1);
    RunLast(c1, RemoveGet(true), d);
  }

  lemma RemoveEnters(c: Cell, r: Sandbox, force: bool, rest: seq<Local>) returns (d: Cell)
    requires c.rec == Some(r) && !c.locked && (Live(r.state) ==> force)
    ensures Run(c, [RemoveLock(force)] + ([RemoveGet(true)] + rest)) == Run(d, rest)
    ensures d == c.(locked := true, work := Some(NewCleanup(Removed, r.generation)))
  {
    var c1 := Enter(c, RemoveEntered(force));
    d := c1.(work := Some(NewCleanup(Removed, r.generation)));
    RunOne(c, RemoveLock(force), [RemoveGet(true)] + rest, c1);
    RunOne(c1, RemoveGet(true), rest, d);
  }

  /** The first call that fails ends Remove: the record stays as it is. */
  lemma RemoveFailsAlone(c: Cell, g: nat, o: Calls) returns (d: Cell)
    requires c.work == Some(NewCleanup(Removed, g)) && !AllOk(o)
    ensures Run(c, if !o.kill then [KillStep(false)]
                   else if !o.network then [KillStep(true)] + ([ListenersStep] + [NetworkStep(false)])
                   else CleanSteps(o)) == Some(d)
    ensures d.rec == c.rec && d.work.None? && !d.locked && d.callers == c.callers
    ensures d.held == if !o.kill then c.held
                      else Holdings(None, c.held.net && !o.network, c.held.jail, false, false)
  {
    var c1 := Killed(c, c.work.value.job, o.kill);
    if !o.kill {
      d := c1;
      RunLast(c, KillStep(false), d);
    } else {
      var c2 := Unlistened(c1, c1.work.value.job);
      var c3 := Unnetworked(c2, c2.work.value.job, o.network);
      if !o.network {
        d := c3;
        RunOne(c, KillStep(true), [ListenersStep] + [NetworkStep(false)], c1);
        RunOne(c1, ListenersStep, [NetworkStep(false)], c2);
        RunLast(c2, NetworkStep(false), d);
      } else {
        d := Unjailed(c3, c3.work.value.job, false);
        RunOne(c, KillStep(true), [ListenersStep] + ([NetworkStep(true)] + [JailStep(false)]), c1);
        RunOne(c1, ListenersStep, [NetworkStep(true)] + [JailStep(false)], c2);
        RunOne(c2, NetworkStep(true), [JailStep(false)], c3);
        RunLast(c3, JailStep(false), d);
      }
    }
  }

  /**
    * When all calls succeed, nothing is left of the sandbox; when its files cannot be deleted it stays, as being
    * removed.
    */
  lemma RemoveAlone(c: Cell, r: Sandbox, deleted: bool) returns (d: Cell)
    requires c.rec == Some(r) && c.work == Some(NewCleanup(Removed, r.generation))
    ensures Run(c, CleanSteps(Calls(true, true, true)) + ([CommitStep(true)] + [DeleteStep(deleted)])) == Some(d)
    ensures d.rec == (if deleted then None else Some(r.(state := Removing))) && !Held(d.held) && d.work.None? &&
            !d.locked
  {
    var o := Calls(true, true, true);
    RemovalCleans(c, r.generation);
    var c4 := Run(c, CleanSteps(o)).value;
    var c5 := Committed(c4, c4.work.value.job, true);
    d := Release(if deleted then c5.(rec := None) else c5);
    RunAcross(c, CleanSteps(o), [CommitStep(true)] + [DeleteStep(deleted)], c4);
    RunOne(c4, CommitStep(true), [DeleteStep(deleted)], c5);
    RunLast(c5, DeleteStep(deleted), d);
  }

  lemma RemovalCleans(c: Cell, g: nat)
    requires c.work == Some(NewCleanup(Removed, g))
    ensures var d := Run(c, CleanSteps(Calls(true, true, true)));
            && d.Some? && d.value.rec == c.rec && d.value.held == Holdings(None, false, false, false, false)
            && d.value.work == Some(Clean(Cleanup(Removed, g, Commit, true, true, true)))
  {
    var c1 := Killed(c, c.work.value.job, true);
    var c2 := Unlistened(c1, c1.work.value.job);
    var c3 := Unnetworked(c2, c2.work.value.job, true);
    RunOne(c, KillStep(true), [ListenersStep] + ([NetworkStep(true)] + [JailStep(true)]), c1);
    RunOne(c1, ListenersStep, [NetworkStep(true)] + [JailStep(true)], c2);
    RunOne(c2, NetworkStep(true), [JailStep(true)], c3);
    RunLast(c3, JailStep(true), Unjailed(c3, c3.work.value.job, true));
  }

  // ----- Stop and Recover -----

  /** Stop returns at once exactly if there is no record, or it was never started, or it has exited. */
  lemma StopTakes(c: Cell)
    ensures LocalStep(c, StopRead).None? <==> c.rec.None? || c.rec.value.state in {Created, Exited}
  {
  }

  /** Stop marks a run that is starting or running, and leaves every other record as it is. */
  lemma StopMarks(c: Cell, r: Sandbox) returns (d: Cell)
    requires c.rec == Some(r) && !r.state.Exited? && !r.state.Created?
    ensures Run(c, [StopRead] + [StopMark(r.generation, true)]) == Some(d)
    ensures d.rec == Some(if r.state.Starting? || r.state.Running? then r.(state := Stopping) else r)
    ensures r.generation in d.callers.stops && d.held == c.held && d.work == c.work
  {
    var c1 := c.(callers := c.callers.(stops := c.callers.stops + multiset{r.generation}));
    d := LocalStep(c1, StopMark(r.generation, true)).value;
    RunOne(c, StopRead, [StopMark(r.generation, true)], c1);
    RunLast(c1, StopMark(r.generation, true), d);
  }

  /** A Stop that the guest does not obey calls finish for the run it has read, once. */
  lemma StopFinishes(c: Cell, g: nat, code: Option<int>) returns (d: Cell)
    requires g in c.callers.stops && !c.locked
    ensures LocalStep(c, FinishByStop(g, code)) == Some(d)
    ensures d.work == Some(FinishEntered(g, code)) && d.locked && d.rec == c.rec && d.held == c.held
    ensures d.callers.stops + multiset{g} == c.callers.stops && d.callers.watchers == c.callers.watchers
  {
    d := CallFinish(StopReturns(c, g), g, code);
  }

  /**
    * Recover watches a run that is alive if its listeners can be brought up; if not, it stops there with those that
    * could, and watches nothing. It finishes a run that is not alive.
    */
  lemma VisitAlone(c: Cell, r: Sandbox, portsOk: bool, dnsOk: bool)
    requires r.state.Running? || r.state.Stopping?
    ensures var (d, on) := Visited(c, r, true, portsOk, dnsOk);
            && (on <==> portsOk && (r.spec.bridge ==> dnsOk))
            && d.held == c.held.(ports := c.held.ports || portsOk,
                                 dns := c.held.dns || (portsOk && dnsOk && r.spec.bridge))
            && d.callers == (if on then StartMonitor(c, r.generation).callers else c.callers)
            && d == c.(held := d.held, callers := d.callers)
    ensures Visited(c, r, false, portsOk, dnsOk) == (CallFinish(c, r.generation, None), true)
  {
  }

  /** Recover fails an operation that was cut short, and releases it exactly if all calls succeed. */
  lemma InterruptedAlone(c: Cell, r: Sandbox, o: Calls) returns (d: Cell)
    requires c.rec == Some(r) && c.work == Some(NewCleanup(Interrupted, r.generation))
    ensures Run(c, CleanSteps(o) + [CommitStep(true)]) == Some(d)
    ensures d.rec == Some(r.(state := Failed, released := AllOk(o))) && d.held == Left(c.held, o, true) && d.work.None?
  {
    d := CleanAndCommit(c, Interrupted, r.generation, o);
  }

  /** Recover tries once more to release a failed sandbox. */
  lemma QuarantinedAlone(c: Cell, r: Sandbox, o: Calls) returns (d: Cell)
    requires c.rec == Some(r) && c.work == Some(NewCleanup(Quarantined, r.generation))
    ensures Run(c, CleanSteps(o) + [CommitStep(true)]) == Some(d)
    ensures d.rec == Some(if AllOk(o) then r.(released := true) else r) && d.held == Left(c.held, o, false) &&
            d.work.None?
  {
    d := CleanAndCommit(c, Quarantined, r.generation, o);
  }

  // ----- Create -----

  /** An ID that no sandbox has had and that no name spells. */
  ghost predicate IsFresh(s: State, name: string, id: Id) {
    && id !in s.cells && id != name
    && forall k :: k in s.cells && s.cells[k].rec.Some? ==> s.cells[k].rec.value.name != id
  }

  lemma CreateInserts(s: State, name: string, spec: Spec, slot: nat, id: Id) returns (s1: State, s2: State)
    requires s.phase.Serving? && s.alloc.None? && CreateAllowed(s, name, spec)
    requires IsLeastFree(UsedSlots(s), slot) && slot <= MAX_SLOT && IsFresh(s, name, id)
    ensures Step(s, CreateScan(name, spec, slot)) == Some(s1) && Step(s1, CreateInsert(id, true)) == Some(s2)
    ensures var v := NewSandbox(id, name, spec, slot);
            s2 == s.(cells := s.cells[id := NewCell(v)], alloc := Some(CreatePreparing(id, v)))
  {
    s1 := s.(alloc := Some(CreateScanned(name, spec, slot)));
    s2 := Step(s1, CreateInsert(id, true)).value;
  }

  /** A Create that succeeds stores what was asked for, under the least free slot, and touches no other sandbox. */
  lemma CreateAlone(s: State, name: string, spec: Spec, slot: nat, id: Id, reserveMiB: nat) returns (t: State)
    requires s.phase.Serving? && s.alloc.None? && CreateAllowed(s, name, spec)
    requires IsLeastFree(UsedSlots(s), slot) && slot <= MAX_SLOT && 64 <= reserveMiB <= 4096
    requires IsFresh(s, name, id)
    ensures Exec(s, [CreateScan(name, spec, slot), CreateInsert(id, true), CreateCommit(reserveMiB)]) == Some(t)
    ensures t.cells.Keys == s.cells.Keys + {id} && forall k :: k in s.cells ==> t.cells[k] == s.cells[k]
    ensures t.cells[id].rec ==
              Some(Sandbox(id, name, spec, Created, 0, None, true, slot, GuestMemory(spec.memory, reserveMiB), true))
    ensures !Held(t.cells[id].held) && t.cells[id].work.None? && !t.cells[id].locked
    ensures t.volumes == s.volumes && t.alloc.None? && t.phase == s.phase
  {
    var c := CreateCommit(reserveMiB);
    var s1, s2 := CreateInserts(s, name, spec, slot, id);
    t := Step(s2, c).value;
    ExecThree(s, CreateScan(name, spec, slot), CreateInsert(id, true), c, s1, s2, t);
  }

  /** A Create that fails after its insert leaves a failed record that reserves nothing. */
  lemma CreateFailsAlone(s: State, name: string, spec: Spec, slot: nat, id: Id) returns (t: State)
    requires s.phase.Serving? && s.alloc.None? && CreateAllowed(s, name, spec)
    requires IsLeastFree(UsedSlots(s), slot) && slot <= MAX_SLOT
    requires IsFresh(s, name, id)
    ensures Exec(s, [CreateScan(name, spec, slot), CreateInsert(id, true), CreateAbort(true)]) == Some(t)
    ensures t.cells.Keys == s.cells.Keys + {id} && forall k :: k in s.cells ==> t.cells[k] == s.cells[k]
    ensures t.cells[id].rec == Some(Sandbox(id, name, spec, Failed, 0, None, true, slot, 0, false))
    ensures !Reserves(t.cells[id].rec.value) && t.alloc.None?
  {
    var c := CreateAbort(true);
    var s1, s2 := CreateInserts(s, name, spec, slot, id);
    t := Step(s2, c).value;
    ExecThree(s, CreateScan(name, spec, slot), CreateInsert(id, true), c, s1, s2, t);
  }

  // ----- Failing writes -----

  predicate FailsToWrite(a: Local) {
    || (a.CommitStep? && !a.stored) || (a.StopMark? && !a.stored) || (a.DeleteStep? && !a.ok)
    || (a.BootStep? && !a.ok)
  }

  lemma FailedLocalWrite(c: Cell, a: Local)
    requires LocalStep(c, a).Some? && FailsToWrite(a)
    ensures LocalStep(c, a).value.rec == c.rec
  {
  }

  /** Whatever an operation does next, a write that fails has changed no record. */
  lemma FailedWrite(s: State, a: Action, t: State)
    requires Step(s, a) == Some(t)
    requires || (a.Act? && FailsToWrite(a.a)) || (a.CreateInsert? && !a.ok) || (a.CreateAbort? && !a.stored)
             || (a.StartCommit? && !a.stored)
    ensures Rows(t) == Rows(s)
  {
    if a.Act? {
      FailedLocalWrite(s.cells[a.id], a.a);
    }
  }

  // ----- Volumes -----

  /** Creating a volume adds it, if the record of it can be stored; nothing else changes. */
  lemma VolumeCreateAlone(s: State, volume: string, ok: bool) returns (t: State)
    requires s.phase.Serving? && s.alloc.None?
    ensures Exec(s, [VolumeCreateLock(volume), VolumeCreatePut(ok)]) == Some(t)
    ensures t == s.(volumes := t.volumes) && forall v :: v in t.volumes <==> v in s.volumes || (ok && v == volume)
  {
    var s1 := Step(s, VolumeCreateLock(volume)).value;
    t := Step(s1, VolumeCreatePut(ok)).value;
    ExecTwo(s, VolumeCreateLock(volume), VolumeCreatePut(ok), s1, t);
  }

  /** Removing a volume goes on exactly if it exists and no record mounts it, and then takes away it alone. */
  lemma VolumeRemoveAlone(s: State, volume: string, ok: bool) returns (t: Option<State>)
    requires s.phase.Serving? && s.alloc.None?
    ensures t == Exec(s, [VolumeRemoveScan(volume), VolumeRemoveDelete(ok)])
    ensures t.Some? <==> volume in s.volumes && forall id :: id in Rows(s) ==> volume !in Rows(s)[id].spec.mounts
    ensures t.Some? ==>
              && t.value == s.(volumes := t.value.volumes)
              && forall v :: v in t.value.volumes <==> v in s.volumes && !(ok && v == volume)
  {
    var a, b := VolumeRemoveScan(volume), VolumeRemoveDelete(ok);
    t := Exec(s, [a, b]);
    assert [a, b][..1] == [a] && [a][..0] == [];
    assert Exec(s, []) == Some(s);
    assert Exec(s, [a]) == Step(s, a);
    if exists id :: id in Rows(s) && volume in Rows(s)[id].spec.mounts {
      var id :| id in Rows(s) && volume in Rows(s)[id].spec.mounts;
      assert s.cells[id].rec.Some? && volume in s.cells[id].rec.value.spec.mounts;
    } else {
      assert forall id :: id in s.cells && s.cells[id].rec.Some? ==> id in Rows(s);
    }
  }

  lemma ExecTwo(s: State, a: Action, b: Action, s1: State, t: State)
    requires Step(s, a) == Some(s1) && Step(s1, b) == Some(t)
    ensures Exec(s, [a, b]) == Some(t)
  {
    assert [a, b][..1] == [a] && [a][..0] == [];
    assert Exec(s, []) == Some(s);
    assert Exec(s, [a]) == Some(s1);
  }

  lemma ExecThree(s: State, a: Action, b: Action, c: Action, s1: State, s2: State, t: State)
    requires Step(s, a) == Some(s1) && Step(s1, b) == Some(s2) && Step(s2, c) == Some(t)
    ensures Exec(s, [a, b, c]) == Some(t)
  {
    assert [a, b, c][..2] == [a, b] && [a, b][..1] == [a] && [a][..0] == [];
    assert Exec(s, []) == Some(s);
    assert Exec(s, [a]) == Some(s1);
    assert Exec(s, [a, b]) == Some(s2);
  }

  // ----- Admission -----

  /**
    * Start's scan passes exactly if no other sandbox that reserves mounts one of the volumes, and the memory read
    * covers the candidate, everything that reserves, 64 MiB for each of them, and 256 MiB.
    */
  lemma ScanPassesExactly(s: State, id: Id, available: nat)
    requires s.alloc == Some(StartHolds(id)) && Admitting(s, id) && s.cells[id].work.value.v.id == id
    ensures var v := s.cells[id].work.value.v;
            StartStep(s, StartScan(id, available)).Some? <==>
              && (forall k, m :: !Clashes(s, v, k, m))
              && v.guestMemory + 64 * MIB + Sum(Reserved(s)) + 256 * MIB <= available
  {
    var v := s.cells[id].work.value.v;
    assert Reserved(s) == Reservations(s);
    if forall k, m :: !Clashes(s, v, k, m) {
      forall k | k in s.cells && k != id && s.cells[k].rec.Some? && Reserves(s.cells[k].rec.value)
        ensures s.cells[k].rec.value.spec.mounts !! v.spec.mounts
      {
        if m :| m in s.cells[k].rec.value.spec.mounts && m in v.spec.mounts {
          assert Clashes(s, v, k, m);
        }
      }
      assert VolumesFree(s, v);
    } else {
      var k, m :| Clashes(s, v, k, m);
      assert !(s.cells[k].rec.value.spec.mounts !! v.spec.mounts);
    }
  }

  /** Another sandbox that reserves mounts a volume of the candidate. */
  predicate Clashes(s: State, v: Sandbox, k: Id, m: string) {
    && k in s.cells && k != v.id && s.cells[k].rec.Some? && Reserves(s.cells[k].rec.value)
    && m in v.spec.mounts && m in s.cells[k].rec.value.spec.mounts
  }

  function Reserved(s: State): map<Id, nat> {
    map k | k in s.cells ::
      if s.cells[k].rec.Some? && Reserves(s.cells[k].rec.value) then s.cells[k].rec.value.guestMemory + 64 * MIB else 0
  }

  /** An admission begins the next generation, with no exit and nothing released, and changes no other sandbox. */
  lemma AdmissionWrites(s: State, id: Id, t: State)
    requires StartStep(s, StartCommit(id, true)) == Some(t) && CellOk(s.cells[id]) && s.cells[id].rec.Some?
    ensures var v := s.cells[id].rec.value;
            && t.cells == s.cells[id := t.cells[id]]
            && t.cells[id].rec ==
                 Some(v.(generation := v.generation + 1, state := Starting, exit := None, released := false))
            && t.cells[id].held == s.cells[id].held && t.cells[id].callers == s.cells[id].callers
            && t.cells[id].work == Some(Boot(v.generation + 1, Ports)) && t.cells[id].locked
  {
  }

  /** A Start that is refused leaves everything as it was. */
  lemma RefusalWrites(s: State, id: Id, t: State)
    requires StartStep(s, StartRefuse(id)) == Some(t)
    ensures id in s.cells && t.alloc.None? && t.cells == s.cells[id := s.cells[id].(locked := false, work := None)]
    ensures t.volumes == s.volumes && t.budget == s.budget && t.phase == s.phase
  {
  }
}
