/** The steps that touch the allocations lock, the phase or every sandbox keep the lifecycle invariant. */
module LifecycleSteps {
  import opened Basics
  import opened Records
  import opened Sums
  import opened Lifecycle
  import opened LifecycleInvariant
  import opened LifecycleProof

  // ----- Start -----

  /** Whatever is alive or being started has a record that reserves. */
  lemma ActiveReserves(c: Cell)
    requires CellOk(c) && Active(c)
    ensures c.rec.Some? && Reserves(c.rec.value)
  {
  }

  /** Passing the scan of reserving records clears the sandbox against everything that is active. */
  lemma ScanClears(s: State, v: Sandbox, available: nat)
    requires forall id :: id in s.cells ==> CellOk(s.cells[id])
    requires VolumesFree(s, v) && BudgetAllows(Envelope(v) + Sum(Reservations(s)), available)
    ensures Cleared(s, v, available)
  {
    forall id | id in s.cells
      ensures Load(s.cells[id]) <= Reservation(s.cells[id])
    {
      if Active(s.cells[id]) {
        ActiveReserves(s.cells[id]);
      }
    }
    SumMonotone(Loads(s), Reservations(s));
    forall k | k in s.cells && k != v.id && Active(s.cells[k]) && s.cells[k].rec.Some?
      ensures s.cells[k].rec.value.spec.mounts !! v.spec.mounts
    {
      ActiveReserves(s.cells[k]);
    }
  }

  lemma AdmittedOk(c: Cell, v: Sandbox)
    requires CellOk(c) && c.work == Some(StartAdmitting(v))
    ensures CellOk(Admitted(c, v)) && Admitted(c, v).rec.Some? && SameGrant(v, Admitted(c, v).rec.value)
    ensures !Active(c)
  {
  }

  lemma AdmittedApart(s: State, id: Id, d: Cell, v: Sandbox, available: nat)
    requires VolumesApart(s) && id in s.cells && v.id == id && d.rec.Some? && d.rec.value.spec == v.spec
    requires Cleared(s, v, available)
    ensures VolumesApart(SetCell(s, id, d))
  {
    var t := SetCell(s, id, d);
    forall a, b | a in t.cells && b in t.cells && a != b
      ensures Apart(t.cells[a], t.cells[b])
    {
      assert Apart(s.cells[a], s.cells[b]);
    }
  }

  lemma AdmissionFits(s: State, id: Id, v: Sandbox, available: nat)
    requires id in s.cells && CellOk(s.cells[id]) && s.cells[id].work == Some(StartAdmitting(v)) &&
             Cleared(s, v, available)
    ensures Sum(Loads(SetCell(s, id, Admitted(s.cells[id], v)))) <= available - HOST_RESERVE
  {
    var d := Admitted(s.cells[id], v);
    AdmittedOk(s.cells[id], v);
    LoadsSet(s, id, d);
    SumSet(Loads(s), id, Load(d));
  }

  lemma AdmissionTable(s: State, id: Id, v: Sandbox, t: State)
    requires TableOk(s) && id in s.cells && CellOk(s.cells[id]) && s.cells[id].work == Some(StartAdmitting(v))
    requires t.volumes == s.volumes && t.cells == s.cells[id := Admitted(s.cells[id], v)]
    ensures TableOk(t) && v.id == id
  {
    var c := s.cells[id];
    var d := Admitted(c, v);
    AdmittedOk(c, v);
    assert GrantOk(s, id, v);
    TableKept(s, id, c.(rec := d.rec));
    SameRecords(SetCell(s, id, c.(rec := d.rec)), t);
  }

  lemma AdmissionKeepsCells(s: State, id: Id, v: Sandbox, available: nat)
    requires CellsOk(s) && id in s.cells && s.cells[id].work == Some(StartAdmitting(v)) && Cleared(s, v, available)
    ensures CellsOk(SetCell(s, id, Admitted(s.cells[id], v)).(budget := available - HOST_RESERVE))
  {
    var c := s.cells[id];
    var d := Admitted(c, v);
    var t := SetCell(s, id, d).(budget := available - HOST_RESERVE);
    AdmittedOk(c, v);
    AdmissionTable(s, id, v, t);
    AdmissionFits(s, id, v, available);
    assert Loads(t) == Loads(SetCell(s, id, d));
    AdmittedApart(s, id, d, v, available);
    assert t.cells == SetCell(s, id, d).cells;
  }

  /** The record table only depends on the records. */
  lemma SameRecords(s: State, t: State)
    requires TableOk(s) && s.cells.Keys == t.cells.Keys && s.volumes == t.volumes
    requires forall id :: id in s.cells ==> s.cells[id].rec == t.cells[id].rec
    ensures TableOk(t)
  {
    forall id | id in t.cells && t.cells[id].rec.Some?
      ensures GrantOk(t, id, t.cells[id].rec.value)
    {
      assert GrantOk(s, id, s.cells[id].rec.value);
    }
    forall a, b | a in t.cells && b in t.cells && a != b && t.cells[a].rec.Some? && t.cells[b].rec.Some?
      ensures Compatible(t.cells[a].rec.value, t.cells[b].rec.value)
    {
      assert Compatible(s.cells[a].rec.value, s.cells[b].rec.value);
    }
  }

  lemma AdmissionKept(s: State, id: Id)
    requires Inv(s) && StartStep(s, StartCommit(id, true)).Some? && s.cells[id].rec.Some?
    ensures Inv(StartStep(s, StartCommit(id, true)).value)
  {
    var t := StartStep(s, StartCommit(id, true)).value;
    var v := s.cells[id].work.value.v;
    var d := Admitted(s.cells[id], v);
    assert CellsOk(t) by {
      AdmissionKeepsCells(s, id, v, s.alloc.value.available);
      CellsSame(SetCell(s, id, d).(budget := t.budget), t);
    }
    assert PhaseOk(t) by { PeaceSet(s, id, d); }
  }

  lemma ScanKept(s: State, id: Id, available: nat)
    requires Inv(s) && StartStep(s, StartScan(id, available)).Some?
    ensures Inv(StartStep(s, StartScan(id, available)).value)
  {
    assert CellOk(s.cells[id]);
    ScanClears(s, s.cells[id].work.value.v, available);
    CellsSame(s, StartStep(s, StartScan(id, available)).value);
  }

  lemma AllocateKept(s: State, id: Id)
    requires Inv(s) && StartStep(s, StartAllocate(id)).Some?
    ensures Inv(StartStep(s, StartAllocate(id)).value)
  {
    var t := StartStep(s, StartAllocate(id)).value;
    CellsKept(s, id, t.cells[id]);
    CellsSame(SetCell(s, id, t.cells[id]), t);
    PeaceSet(s, id, t.cells[id]);
  }

  lemma RefusalKept(s: State, id: Id)
    requires Inv(s) && Admitting(s, id) && s.alloc.Some?
    requires s.alloc.value.StartHolds? || s.alloc.value.StartCleared?
    ensures Inv(StartReleases(s, id))
  {
    var t := StartReleases(s, id);
    CellsKept(s, id, t.cells[id]);
    CellsSame(SetCell(s, id, t.cells[id]), t);
    PeaceSet(s, id, t.cells[id]);
  }

  lemma StartKept(s: State, a: Action)
    requires Inv(s) && (a.StartAllocate? || a.StartScan? || a.StartRefuse? || a.StartCommit?)
    requires StartStep(s, a).Some?
    ensures Inv(StartStep(s, a).value)
  {
    if a.StartScan? {
      ScanKept(s, a.id, a.available);
    } else if a.StartAllocate? {
      AllocateKept(s, a.id);
    } else if a.StartCommit? && a.stored && s.cells[a.id].rec.Some? {
      AdmissionKept(s, a.id);
    } else {
      assert IsAdmitting(s.cells[a.id]);
      RefusalKept(s, a.id);
    }
  }

  // ----- Create and volumes -----

  lemma InsertKeepsCells(s: State, id: Id, v: Sandbox)
    requires CellsOk(s) && id !in s.cells
    requires v == NewSandbox(id, v.name, v.spec, v.slot) && v.name != id
    requires GrantOk(s, id, v)
    requires forall k :: k in s.cells && s.cells[k].rec.Some? ==>
               Compatible(s.cells[k].rec.value, v) && s.cells[k].rec.value.name != id
    ensures CellsOk(SetCell(s, id, NewCell(v)))
  {
    TableSet(s, id, NewCell(v));
    ApartInactive(s, id, NewCell(v));
    LoadsSet(s, id, NewCell(v));
    SumSet(Loads(s), id, 0);
  }

  /** The guest gets what was asked for, rounded up to whole MiB, and what its base keeps for itself. */
  lemma GuestMemoryIsRounded(memory: nat, reserveMiB: nat)
    ensures var r := GuestMemory(memory, reserveMiB);
            r % MIB == 0 && memory + reserveMiB * MIB <= r < memory + reserveMiB * MIB + MIB
  {
    var n := (memory + MIB - 1) / MIB;
    assert GuestMemory(memory, reserveMiB) == n * MIB + reserveMiB * MIB;
    assert memory <= n * MIB < memory + MIB;
  }

  lemma GuestMemoryBounded(memory: nat, reserveMiB: nat)
    requires memory <= 1024 * GIB && 64 <= reserveMiB <= 4096
    ensures memory + MIN_GUEST_RESERVE <= GuestMemory(memory, reserveMiB) <= MAX_GUEST
  {
    assert (memory + MIB - 1) / MIB <= 1024 * 1024;
    GuestMemoryIsRounded(memory, reserveMiB);
  }

  /** A record that has not been prepared has never been admitted, so preparing it disturbs nobody. */
  lemma PreparedOk(c: Cell, w: Sandbox)
    requires CellOk(c) && c.rec.Some? && !c.rec.value.prepared && (c.work.Some? ==> !Unlocked(c.work.value))
    requires w.state.Created? && w.generation == 0 && w.exit.None?
    ensures CellOk(c.(rec := Some(w))) && !Active(c) && !Active(c.(rec := Some(w)))
  {
  }

  lemma PrepareKeepsCells(s: State, id: Id, w: Sandbox)
    requires CellsOk(s) && id in s.cells && s.cells[id].rec.Some?
    requires CellOk(s.cells[id].(rec := Some(w))) && !Active(s.cells[id])
    requires SameGrant(s.cells[id].rec.value.(guestMemory := w.guestMemory, prepared := true), w)
    requires w.spec.memory + MIN_GUEST_RESERVE <= w.guestMemory <= MAX_GUEST
    ensures CellsOk(SetCell(s, id, s.cells[id].(rec := Some(w))))
  {
    var d := s.cells[id].(rec := Some(w));
    assert GrantOk(s, id, s.cells[id].rec.value);
    forall k | k in s.cells && k != id && s.cells[k].rec.Some?
      ensures Compatible(s.cells[k].rec.value, w)
    {
      assert Compatible(s.cells[k].rec.value, s.cells[id].rec.value);
    }
    TableSet(s, id, d);
    ApartInactive(s, id, d);
    LoadsSet(s, id, d);
    SumSet(Loads(s), id, 0);
  }

  lemma AbortedOk(c: Cell)
    requires CellOk(c) && c.rec.Some? && !c.rec.value.prepared && (c.work.Some? ==> !Unlocked(c.work.value))
    requires Transition(c.rec.value, Failed).Some?
    ensures CellOk(c.(rec := Transition(c.rec.value, Failed))) && Keeps(c, c.(rec := Transition(c.rec.value, Failed)))
  {
  }

  lemma CreateScanKept(s: State, name: string, spec: Spec, slot: nat)
    requires Inv(s) && CreateStep(s, CreateScan(name, spec, slot)).Some?
    ensures Inv(CreateStep(s, CreateScan(name, spec, slot)).value)
  {
    CellsSame(s, CreateStep(s, CreateScan(name, spec, slot)).value);
    forall id | id in s.cells && s.cells[id].rec.Some?
      ensures Compatible(s.cells[id].rec.value, NewSandbox("", name, spec, slot))
    {
      assert s.cells[id].rec.value.slot in UsedSlots(s);
    }
  }

  lemma CreateInsertKept(s: State, id: Id)
    requires Inv(s) && CreateStep(s, CreateInsert(id, true)).Some?
    ensures Inv(CreateStep(s, CreateInsert(id, true)).value)
  {
    var t := CreateStep(s, CreateInsert(id, true)).value;
    var v := t.alloc.value.v;
    InsertKeepsCells(s, id, v);
    CellsSame(SetCell(s, id, NewCell(v)), t);
  }

  lemma CreateCommitKept(s: State, reserveMiB: nat)
    requires Inv(s) && CreateStep(s, CreateCommit(reserveMiB)).Some?
    ensures Inv(CreateStep(s, CreateCommit(reserveMiB)).value)
  {
    var t := CreateStep(s, CreateCommit(reserveMiB)).value;
    var id := s.alloc.value.id;
    var c, w := s.cells[id], t.cells[id].rec.value;
    assert AtPeace(s.phase, id, c);
    assert w.spec.memory + MIN_GUEST_RESERVE <= w.guestMemory <= MAX_GUEST by {
      assert GrantOk(s, id, c.rec.value);
      GuestMemoryBounded(w.spec.memory, reserveMiB);
    }
    PreparedOk(c, w);
    PrepareKeepsCells(s, id, w);
    CellsSame(SetCell(s, id, c.(rec := Some(w))), t);
    AdmittingKept(s, id, c.(rec := Some(w)), None);
    PeaceSet(s, id, c.(rec := Some(w)));
  }

  lemma CreateAbortKept(s: State, stored: bool)
    requires Inv(s) && CreateStep(s, CreateAbort(stored)).Some?
    ensures Inv(CreateStep(s, CreateAbort(stored)).value)
  {
    var t := CreateStep(s, CreateAbort(stored)).value;
    var id := s.alloc.value.id;
    var d := t.cells[id];
    assert AtPeace(s.phase, id, s.cells[id]);
    if t.cells != s.cells {
      AbortedOk(s.cells[id]);
      CellsKept(s, id, d);
      CellsSame(SetCell(s, id, d), t);
      PeaceSet(s, id, d);
    } else {
      CellsSame(s, t);
    }
  }

  lemma CreateKept(s: State, a: Action)
    requires Inv(s) && (a.CreateScan? || a.CreateInsert? || a.CreateCommit? || a.CreateAbort?)
    requires CreateStep(s, a).Some?
    ensures Inv(CreateStep(s, a).value)
  {
    if a.CreateScan? {
      CreateScanKept(s, a.name, a.spec, a.slot);
    } else if a.CreateCommit? {
      CreateCommitKept(s, a.reserveMiB);
    } else if a.CreateAbort? {
      CreateAbortKept(s, a.stored);
    } else if a.ok {
      CreateInsertKept(s, a.id);
    } else {
      CellsSame(s, CreateStep(s, a).value);
    }
  }

  lemma VolumeKept(s: State, a: Action)
    requires Inv(s) && (a.VolumeCreateLock? || a.VolumeCreatePut? || a.VolumeRemoveScan? || a.VolumeRemoveDelete?)
    requires VolumeStep(s, a).Some?
    ensures Inv(VolumeStep(s, a).value)
  {
    var t := VolumeStep(s, a).value;
    if a == VolumeRemoveDelete(true) {
      assert Loads(t) == Loads(s);
      forall id | id in t.cells && t.cells[id].rec.Some?
        ensures GrantOk(t, id, t.cells[id].rec.value)
      {
        assert GrantOk(s, id, s.cells[id].rec.value);
      }
    } else {
      CellsSame(s, t);
    }
  }

  // ----- Crash and recovery -----

  lemma ForgottenOk(c: Cell)
    requires CellOk(c)
    ensures CellOk(Forget(c)) && Keeps(c, Forget(c)) && Idle(Forget(c))
  {
  }

  /** Cells that keep their records and activate nothing keep the cells' part of the invariant. */
  lemma CellsReplaced(s: State, t: State)
    requires CellsOk(s) && s.cells.Keys == t.cells.Keys && s.volumes == t.volumes && s.budget == t.budget
    requires forall id :: id in s.cells ==>
               CellOk(t.cells[id]) && t.cells[id].rec == s.cells[id].rec &&
               (Active(t.cells[id]) ==> Active(s.cells[id]))
    ensures CellsOk(t)
  {
    SameRecords(s, t);
    forall a, b | a in t.cells && b in t.cells && a != b
      ensures Apart(t.cells[a], t.cells[b])
    {
      assert Apart(s.cells[a], s.cells[b]);
    }
    SumMonotone(Loads(t), Loads(s));
  }

  lemma CrashKeepsCells(s: State)
    requires CellsOk(s)
    ensures CellsOk(RecoverStep(s, Crash).value)
  {
    var t := RecoverStep(s, Crash).value;
    forall id | id in s.cells
      ensures CellOk(t.cells[id]) && t.cells[id].rec == s.cells[id].rec && (Active(t.cells[id]) ==> Active(s.cells[id]))
    {
      ForgottenOk(s.cells[id]);
    }
    CellsReplaced(s, t);
  }

  lemma CrashKept(s: State)
    requires CellsOk(s)
    ensures Inv(RecoverStep(s, Crash).value)
  {
    CrashKeepsCells(s);
    forall id | id in s.cells
      ensures Idle(Forget(s.cells[id]))
    {
      ForgottenOk(s.cells[id]);
    }
  }

  /** What Recover makes of a sandbox whose VMM lives. */
  predicate Adopts(c: Cell, d: Cell) {
    CellOk(d) && Keeps(c, d) && NoRequests(d) && d.work.None?
  }

  lemma ListenersOk(c: Cell, r: Sandbox, ports: bool, dns: bool)
    requires CellOk(c) && Idle(c) && c.rec == Some(r) && (r.state.Running? || r.state.Stopping?)
    ensures Adopts(c, c.(held := c.held.(ports := ports, dns := dns)))
  {
  }

  lemma MonitorOk(c: Cell, g: nat)
    requires CellOk(c) && c.work.None? && !c.locked && c.callers == NO_CALLERS && g <= c.audit.starts
    ensures Adopts(c, StartMonitor(c, g))
  {
  }

  lemma AdoptedOk(c: Cell, r: Sandbox, portsOk: bool, dnsOk: bool)
    requires CellOk(c) && Idle(c) && c.rec == Some(r) && (r.state.Running? || r.state.Stopping?)
    ensures Adopts(c, Visited(c, r, true, portsOk, dnsOk).0)
  {
    var d := c.(held := c.held.(ports := true, dns := r.spec.bridge && dnsOk));
    ListenersOk(c, r, true, r.spec.bridge && dnsOk);
    MonitorOk(d, r.generation);
    if !portsOk {
      ListenersOk(c, r, c.held.ports, c.held.dns);
    }
  }

  lemma InterruptedOk(c: Cell, r: Sandbox, w: Work)
    requires CellOk(c) && Idle(c) && c.rec == Some(r)
    requires || (w == NewCleanup(Interrupted, r.generation)
                 && (r.state.Creating? || r.state.Starting? || r.state.Removing?))
             || (w == NewCleanup(Quarantined, r.generation) && r.state.Failed? && !r.released)
    ensures CellOk(c.(work := Some(w))) && Keeps(c, c.(work := Some(w))) && NoRequests(c.(work := Some(w)))
  {
  }

  lemma VisitedOk(c: Cell, r: Sandbox, alive: bool, portsOk: bool, dnsOk: bool)
    requires CellOk(c) && Idle(c) && c.rec == Some(r)
    ensures var d := Visited(c, r, alive, portsOk, dnsOk).0;
            CellOk(d) && Keeps(c, d) && NoRequests(d)
    ensures !Visited(c, r, alive, portsOk, dnsOk).1 ==> Visited(c, r, alive, portsOk, dnsOk).0.work.None?
  {
    if r.state.Running? || r.state.Stopping? {
      if alive {
        AdoptedOk(c, r, portsOk, dnsOk);
      }
    } else if r.state.Failed? && !r.released {
      InterruptedOk(c, r, NewCleanup(Quarantined, r.generation));
    } else if r.state.Creating? || r.state.Starting? || r.state.Removing? {
      InterruptedOk(c, r, NewCleanup(Interrupted, r.generation));
    }
  }

  lemma VisitKept(s: State, id: Id, alive: bool, portsOk: bool, dnsOk: bool)
    requires Inv(s) && Visit(s, id, alive, portsOk, dnsOk).Some?
    ensures Inv(Visit(s, id, alive, portsOk, dnsOk).value)
  {
    var t := Visit(s, id, alive, portsOk, dnsOk).value;
    var r := s.phase.todo[id];
    assert AtPeace(s.phase, id, s.cells[id]);
    VisitedOk(s.cells[id], r, alive, portsOk, dnsOk);
    var d := t.cells[id];
    CellsKept(s, id, d);
    CellsSame(SetCell(s, id, d), t);
    forall k | k in t.cells
      ensures AtPeace(t.phase, k, t.cells[k])
    {
      assert AtPeace(s.phase, k, s.cells[k]);
    }
  }

  lemma RecoverKept(s: State, a: Action)
    requires Inv(s) && (a.Crash? || a.RecoverBegin? || a.RecoverVisit? || a.RecoverResume? || a.RecoverDone?)
    requires RecoverStep(s, a).Some?
    ensures Inv(RecoverStep(s, a).value)
  {
    var t := RecoverStep(s, a).value;
    if a.Crash? {
      CrashKept(s);
    } else if a.RecoverVisit? {
      VisitKept(s, a.id, a.alive, a.portsOk, a.dnsOk);
    } else {
      CellsSame(s, t);
      forall k | k in t.cells
        ensures AtPeace(t.phase, k, t.cells[k])
      {
        assert AtPeace(s.phase, k, s.cells[k]);
      }
    }
  }

  // ----- Every step, every run -----

  lemma StepKept(s: State, a: Action)
    requires Inv(s) && Step(s, a).Some?
    ensures Inv(Step(s, a).value)
  {
    match a
    case Act(id, l) => ActKept(s, id, l);
    case Crash | RecoverBegin | RecoverVisit(_, _, _, _) | RecoverResume | RecoverDone => RecoverKept(s, a);
    case VolumeCreateLock(_) | VolumeCreatePut(_) | VolumeRemoveScan(_) | VolumeRemoveDelete(_) => VolumeKept(s, a);
    case CreateScan(_, _, _) | CreateInsert(_, _) | CreateCommit(_) | CreateAbort(_) => CreateKept(s, a);
    case StartAllocate(_) | StartScan(_, _) | StartRefuse(_) | StartCommit(_, _) => StartKept(s, a);
  }

  lemma {:induction false} RunKept(schedule: seq<Action>)
    ensures Exec(EMPTY, schedule).Some? ==> Inv(Exec(EMPTY, schedule).value)
  {
    if schedule == [] {
      SumZero(Loads(EMPTY));
    } else {
      var n := |schedule| - 1;
      RunKept(schedule[..n]);
      var p := Exec(EMPTY, schedule[..n]);
      if p.Some? && Step(p.value, schedule[n]).Some? {
        StepKept(p.value, schedule[n]);
      }
    }
  }
}
