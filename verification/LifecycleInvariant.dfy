/** The inductive invariant of the lifecycle coordinator. */
module LifecycleInvariant {
  import opened Basics
  import opened Records
  import opened Sums
  import opened Lifecycle

  // ----- One sandbox -----

  /** Something outside the record store exists for the sandbox. */
  predicate Held(h: Holdings) {
    h.vmm.Some? || h.net || h.jail || h.ports || h.dns
  }

  /** An admitted Start has not returned. */
  predicate InFlight(c: Cell) {
    c.work.Some? && (c.work.value.Boot? || (c.work.value.Clean? && c.work.value.job.why.BootFailed?))
  }

  predicate Active(c: Cell) {
    c.held.vmm.Some? || InFlight(c)
  }

  /** Since the last admission, Kill, Network.Remove and VM.Remove have each succeeded. */
  predicate Confirmed(a: Audit) {
    a.starts > 0 ==> a.killed && a.netGone && a.jailGone
  }

  predicate RecordOk(rec: Option<Sandbox>, h: Holdings, a: Audit) {
    match rec
    case None => !Held(h) && Confirmed(a)
    case Some(r) =>
      && r.generation == a.starts
      && (a.starts > 0 ==> r.prepared)
      && (a.starts == 0 ==> !Held(h) && !Live(r.state))
      && (!Reserves(r) ==> !Held(h) && Confirmed(a))
      && (r.released ==> Confirmed(a))
      && (Live(r.state) ==> !r.released)
      && (r.state.Creating? ==> r.released)
      && (h.vmm.Some? ==> h.vmm.value == r.generation)
      && (r.exit.Some? ==> r.exit.value.run == r.generation && !Live(r.state) && h.vmm.None?)
      && (r.exit.Some? ==> r.exit.value in a.calls && !r.state.Created?)
  }

  /** What a cleanup has established so far. */
  predicate Progress(h: Holdings, a: Audit, k: Cleanup) {
    && (k.killed ==> h.vmm.None? && a.killed)
    && (k.netOk ==> !h.net && a.netGone && k.killed)
    && (k.vmOk ==> !h.jail && a.jailGone && k.killed)
    && match k.stage
       case Kill => !k.killed
       case Listeners => k.killed && !k.netOk && !k.vmOk
       case Network => k.killed && !k.netOk && !k.vmOk && !h.ports && !h.dns
       case Jail => k.killed && !k.vmOk && !h.ports && !h.dns
       case Commit => k.killed ==> !h.ports && !h.dns
  }

  /** Why the cleanup may go on: what stays true of the record while it runs. */
  predicate Warrant(r: Sandbox, h: Holdings, a: Audit, k: Cleanup) {
    match k.why
    case BootFailed => r.generation == k.gen && k.gen > 0 && (r.state.Starting? || r.state.Stopping?)
    case Finished(code) => r.generation == k.gen && Exit(k.gen, code) in a.calls
    case Removed => (k.stage.Jail? ==> k.netOk) && (k.stage.Commit? ==> AllDone(k))
    case Interrupted => !h.ports && !h.dns && (r.state.Creating? || r.state.Starting? || r.state.Removing?)
    case Quarantined => r.state.Failed? && !r.released
  }

  predicate WorkOk(c: Cell, w: Work) {
    match w
    case StartEntered => true
    case StartReady(v) => Startable(c, v)
    case StartAdmitting(v) => Startable(c, v)
    case Boot(g, stage) => c.rec.Some? && BootOk(c.rec.value, c.callers, g, stage)
    case FinishEntered(g, code) => Exit(g, code) in c.audit.calls
    case RemoveEntered(_) => true
    case Clean(k) => c.rec.Some? && Progress(c.held, c.audit, k) && Warrant(c.rec.value, c.held, c.audit, k)
    case Saving(result) =>
      c.rec.Some? && !Held(c.held) && Confirmed(c.audit) && result.run == c.rec.value.generation &&
          result in c.audit.calls
    case Deleting => c.rec.Some? && !Held(c.held) && Confirmed(c.audit)
  }

  predicate BootOk(r: Sandbox, callers: Callers, g: nat, stage: BootStage) {
    && r.generation == g
    && g > 0
    && (r.state.Stopping? || if stage.Watch? then r.state.Running? else r.state.Starting?)
    && forall h :: h in callers.watchers ==> h < g
  }

  predicate Startable(c: Cell, v: Sandbox) {
    c.rec == Some(v) && (v.state.Created? || v.state.Exited?) && v.prepared
  }

  /** Recover works on a record without its lock. */
  predicate Unlocked(w: Work) {
    w.Clean? && (w.job.why.Interrupted? || w.job.why.Quarantined?)
  }

  predicate NoOneWaits(callers: Callers) {
    callers.watchers == multiset{} && callers.stops == multiset{}
  }

  predicate LockOk(locked: bool, work: Option<Work>, callers: Callers) {
    match work
    case None => !locked
    case Some(w) => if Unlocked(w) then !locked && NoOneWaits(callers) else locked
  }

  predicate CallersOk(callers: Callers, starts: nat) {
    && (forall g :: g in callers.watchers ==> callers.watchers[g] == 1 && g <= starts)
    && (callers.monitor.Some? ==> callers.monitor.value in callers.watchers)
  }

  /** A saved result is of one of the sandbox's runs: the latest exactly if it was saved since the last admission. */
  predicate SavedOk(saved: Option<Exit>, a: Audit) {
    saved.Some? ==>
      saved.value.run <= a.starts && (saved.value.run == a.starts <==> a.kept) && saved.value in a.calls
  }

  predicate CellOk(c: Cell) {
    && RecordOk(c.rec, c.held, c.audit)
    && SavedOk(c.saved, c.audit)
    && LockOk(c.locked, c.work, c.callers)
    && CallersOk(c.callers, c.audit.starts)
    && (c.work.Some? ==> WorkOk(c, c.work.value))
  }

  /** Nothing of the daemon's memory concerns the sandbox. */
  predicate Idle(c: Cell) {
    !c.held.ports && !c.held.dns && !c.locked && c.work.None? && c.callers == NO_CALLERS
  }

  /** A step keeps what other sandboxes' admission rests on. */
  predicate Keeps(c: Cell, d: Cell) {
    && (d.rec.Some? ==> c.rec.Some? && SameGrant(c.rec.value, d.rec.value))
    && (Active(d) ==> Active(c))
  }

  predicate SameGrant(r: Sandbox, q: Sandbox) {
    q.id == r.id && q.name == r.name && q.spec == r.spec && q.slot == r.slot && q.guestMemory == r.guestMemory &&
        q.prepared == r.prepared
  }

  predicate Requesting(w: Work) {
    w.StartEntered? || w.StartReady? || w.StartAdmitting? || w.Boot? || w.RemoveEntered?
  }

  // ----- All sandboxes -----

  predicate GrantOk(s: State, id: Id, r: Sandbox) {
    && r.id == id
    && 1 <= r.slot <= MAX_SLOT
    && r.spec.mounts <= s.volumes
    && ValidSpec(r.spec)
    && r.guestMemory <= MAX_GUEST
    && (r.prepared ==> r.spec.memory + MIN_GUEST_RESERVE <= r.guestMemory)
    && r.name !in s.cells
  }

  const MIN_GUEST_RESERVE: nat := 64 * MIB   // the least that a base keeps for itself
  const MAX_GUEST: nat := (1024 * 1024 + 4096) * MIB

  predicate Compatible(r: Sandbox, q: Sandbox) {
    r.slot != q.slot && r.spec.ports !! q.spec.ports && r.name != q.name
  }

  ghost predicate TableOk(s: State) {
    && (forall id :: id in s.cells && s.cells[id].rec.Some? ==> GrantOk(s, id, s.cells[id].rec.value))
    && (forall a, b :: a in s.cells && b in s.cells && a != b && s.cells[a].rec.Some? && s.cells[b].rec.Some? ==>
          Compatible(s.cells[a].rec.value, s.cells[b].rec.value))
  }

  predicate Apart(c: Cell, d: Cell) {
    Active(c) && Active(d) && c.rec.Some? && d.rec.Some? ==> c.rec.value.spec.mounts !! d.rec.value.spec.mounts
  }

  ghost predicate VolumesApart(s: State) {
    forall a, b :: a in s.cells && b in s.cells && a != b ==> Apart(s.cells[a], s.cells[b])
  }

  function Load(c: Cell): nat {
    if Active(c) && c.rec.Some? then Envelope(c.rec.value) else 0
  }

  function Loads(s: State): map<Id, nat> {
    map id | id in s.cells :: Load(s.cells[id])
  }

  ghost predicate AdmittingOnly(s: State, who: Option<Id>) {
    forall id :: id in s.cells ==> (IsAdmitting(s.cells[id]) <==> who == Some(id))
  }

  /** The scan still speaks for the sandbox `v`: what is active now is within what it saw. */
  ghost predicate Cleared(s: State, v: Sandbox, available: nat) {
    && available >= HOST_RESERVE
    && Envelope(v) + Sum(Loads(s)) <= available - HOST_RESERVE
    && forall k :: k in s.cells && k != v.id && Active(s.cells[k]) && s.cells[k].rec.Some? ==>
         s.cells[k].rec.value.spec.mounts !! v.spec.mounts
  }

  ghost predicate AllocationOk(s: State) {
    match s.alloc
    case None => AdmittingOnly(s, None)
    case Some(CreateScanned(name, spec, slot)) =>
      && AdmittingOnly(s, None)
      && ValidSpec(spec) && spec.mounts <= s.volumes && 1 <= slot <= MAX_SLOT && name !in s.cells
      && forall id :: id in s.cells && s.cells[id].rec.Some? ==>
           Compatible(s.cells[id].rec.value, NewSandbox("", name, spec, slot))
    case Some(CreatePreparing(id, v)) =>
      && AdmittingOnly(s, None)
      && id in s.cells
      && v == NewSandbox(id, v.name, v.spec, v.slot)
      && (s.cells[id].rec.Some? ==>
            var r := s.cells[id].rec.value;
            SameGrant(v, r))
    case Some(StartHolds(id)) => id in s.cells && AdmittingOnly(s, Some(id))
    case Some(StartCleared(id, available)) =>
      id in s.cells && AdmittingOnly(s, Some(id)) && s.cells[id].rec.Some? &&
          Cleared(s, s.cells[id].rec.value, available)
    case Some(VolumeCreating(_)) => AdmittingOnly(s, None)
    case Some(VolumeRemoving(volume)) =>
      && AdmittingOnly(s, None)
      && forall id :: id in s.cells && s.cells[id].rec.Some? ==> volume !in s.cells[id].rec.value.spec.mounts
  }

  /** What the phase says of one sandbox. */
  predicate AtPeace(phase: Phase, id: Id, c: Cell) {
    match phase
    case Down => Idle(c)
    case Recovering(todo, at) =>
      && NoRequests(c)
      && (c.work.Some? && Unlocked(c.work.value) ==> at == Some(id))
      && (id in todo ==> Idle(c) && c.rec == Some(todo[id]))
    case Halted => NoRequests(c) && (c.work.Some? ==> !Unlocked(c.work.value))
    case Serving => c.work.Some? ==> !Unlocked(c.work.value)
  }

  predicate NoRequests(c: Cell) {
    c.callers.stops == multiset{} && (c.work.Some? ==> !Requesting(c.work.value))
  }

  ghost predicate PhaseOk(s: State) {
    && (forall id :: id in s.cells ==> AtPeace(s.phase, id, s.cells[id]))
    && (s.phase.Serving? || s.alloc.None?)
    && (s.phase.Recovering? ==> s.phase.todo.Keys <= s.cells.Keys)
  }

  /** The part of the invariant that speaks only of the cells. */
  ghost predicate CellsOk(s: State) {
    && (forall id :: id in s.cells ==> CellOk(s.cells[id]))
    && TableOk(s)
    && VolumesApart(s)
    && Sum(Loads(s)) <= s.budget
  }

  ghost predicate Inv(s: State) {
    CellsOk(s) && AllocationOk(s) && PhaseOk(s)
  }
}
