/**
  * The sandbox lifecycle coordinator (internal/daemon/daemon.go) as a state machine.
  *
  * A step is one critical action of one goroutine: taking a lock, one read or write of the record
  * store, or one call of the VM or network backend, which may fail. Releasing a lock is joined to the
  * step before it. Goroutines interleave freely, a VMM may die at any moment, and the daemon may crash
  * between any two steps, which loses everything it holds in memory and nothing else.
  */
module Lifecycle {
  import opened Basics
  import opened Records
  import opened Sums

  type Id = string

  const ENVELOPE: nat := 64 * MIB        // added to every guest's memory
  const HOST_RESERVE: nat := 256 * MIB
  const MAX_SLOT: nat := 16000

  // ----- What one goroutine is doing to one sandbox -----

  datatype BootStage = Ports | Net | Dns | Vmm | Pid | Ready | Run | Watch

  /** Who runs the common cleanup sequence: Start's failure path, finish, Remove, or one of Recover's two branches. */
  datatype Why = BootFailed | Finished(code: Option<int>) | Removed | Interrupted | Quarantined

  datatype CleanStage = Kill | Listeners | Network | Jail | Commit

  datatype Cleanup = Cleanup(why: Why, gen: nat, stage: CleanStage, killed: bool, netOk: bool, vmOk: bool)

  datatype Work =
    | StartEntered
    | StartReady(v: Sandbox)
    | StartAdmitting(v: Sandbox)
    | Boot(gen: nat, bootStage: BootStage)
    | FinishEntered(finishGen: nat, code: Option<int>)
    | RemoveEntered(force: bool)
    | Clean(job: Cleanup)
    | Saving(result: Exit)
    | Deleting

  function NewCleanup(why: Why, gen: nat): Work {
    Clean(Cleanup(why, gen, Kill, false, false, false))
  }

  /** What exists for a sandbox outside the record store. The listeners live in the daemon; the rest survives it. */
  datatype Holdings = Holdings(
    vmm: Option<nat>,  // the generation of the live VMM, if there is one
    net: bool,
    jail: bool,
    ports: bool,       // d.ports
    dns: bool)         // d.dns

  /**
    * What has happened: admitted starts and, since the last of them, which backend calls returned nil and whether the
    * result was saved; and every run and exit code that finish was ever called with.
    */
  datatype Audit = Audit(starts: nat, killed: bool, netGone: bool, jailGone: bool, kept: bool, calls: set<Exit>)

  /** The goroutines that hold only an ID and a generation. */
  datatype Callers = Callers(
    monitor: Option<nat>,    // d.monitors
    watchers: multiset<nat>, // monitor goroutines
    stops: multiset<nat>)    // Stop calls past their first read

  /** Everything that belongs to one sandbox ID. */
  datatype Cell = Cell(
    rec: Option<Sandbox>,    // the record store
    held: Holdings,
    audit: Audit,
    callers: Callers,
    locked: bool,            // d.locks
    work: Option<Work>,      // the goroutine at work on the sandbox
    saved: Option<Exit>)     // the result kept for Wait when the record is removed automatically

  const NO_CALLERS := Callers(None, multiset{}, multiset{})

  function Release(c: Cell): Cell {
    c.(locked := false, work := None)
  }

  function Enter(c: Cell, w: Work): Cell {
    c.(locked := true, work := Some(w))
  }

  /** finish is called for a run, with the exit code that is known of it. */
  function CallFinish(c: Cell, g: nat, code: Option<int>): Cell {
    Enter(c.(audit := c.audit.(calls := c.audit.calls + {Exit(g, code)})), FinishEntered(g, code))
  }

  datatype Local =
    | VmmDies
    | StartLock
    | StartGet(ok: bool)
    | BootStep(ok: bool, launched: bool)
    | BootWatch
    | KillStep(ok: bool)
    | ListenersStep
    | NetworkStep(ok: bool)
    | JailStep(ok: bool)
    | CommitStep(stored: bool)
    | SaveStep(ok: bool)
    | DeleteStep(ok: bool)
    | PruneStep
    | FinishByMonitor(gen: nat, code: Option<int>)
    | FinishByStop(gen: nat, code: Option<int>)
    | FinishGet(ok: bool)
    | MonitorExit(gen: nat)
    | StopRead
    | StopMark(gen: nat, stored: bool)
    | StopDone(gen: nat)
    | RemoveLock(force: bool)
    | RemoveGet(ok: bool)

  /** Requests reach the daemon only once Recover has returned. */
  predicate IsRequest(a: Local) {
    a.StartLock? || a.StopRead? || a.RemoveLock?
  }

  function Boots(c: Cell, g: nat, ok: bool, next: BootStage): Cell {
    c.(work := Some(if ok then Boot(g, next) else NewCleanup(BootFailed, g)))
  }

  function BootOnce(c: Cell, r: Sandbox, g: nat, stage: BootStage, ok: bool, launched: bool): Option<Cell> {
    match stage
    case Ports => Some(Boots(c.(held := c.held.(ports := c.held.ports || ok)), g, ok, Net))
    case Net => Some(Boots(c.(held := c.held.(net := c.held.net || r.spec.bridge)), g, ok, Dns))
    case Dns => Some(Boots(c.(held := c.held.(dns := c.held.dns || (r.spec.bridge && ok))), g, ok, Vmm))
    case Vmm =>
      if ok && !launched then None
      else Some(Boots(c.(held := c.held.(jail := true, vmm := if launched then Some(g) else c.held.vmm)), g, ok, Pid))
    case Pid => Some(Boots(c, g, ok, Ready))
    case Ready => Some(Boots(c, g, ok, Run))
    case Run =>
      var moved := Transition(r, Running);
      if ok && moved.Some? then Some(Boots(c.(rec := moved), g, true, Watch))
      else Some(Boots(c, g, false, Watch))
    case Watch => None
  }

  /** `monitor` starts a goroutine unless the table already names this generation. */
  function StartMonitor(c: Cell, g: nat): Cell {
    if c.callers.monitor == Some(g) then c
    else c.(callers := c.callers.(monitor := Some(g), watchers := c.callers.watchers + multiset{g}))
  }

  function MonitorReturns(c: Cell, g: nat): Cell {
    c.(callers := c.callers.(watchers := c.callers.watchers - multiset{g},
                             monitor := if c.callers.monitor == Some(g) then None else c.callers.monitor))
  }

  function StopReturns(c: Cell, g: nat): Cell {
    c.(callers := c.callers.(stops := c.callers.stops - multiset{g}))
  }

  function Killed(c: Cell, k: Cleanup, ok: bool): Cell {
    if ok then
      var next := Clean(k.(killed := true, stage := Listeners));
      c.(held := c.held.(vmm := None), audit := c.audit.(killed := true), work := Some(next))
    else if k.why.Removed? then Release(c)
    else c.(work := Some(Clean(k.(stage := Commit))))
  }

  /** `stopDNS`, which Recover does not call for an interrupted operation. */
  function Unlistened(c: Cell, k: Cleanup): Cell {
    var d := c.(work := Some(Clean(k.(stage := Network))));
    if k.why.Interrupted? then d else d.(held := d.held.(ports := false, dns := false))
  }

  function Unnetworked(c: Cell, k: Cleanup, ok: bool): Cell {
    if ok then
      var next := Clean(k.(netOk := true, stage := Jail));
      c.(held := c.held.(net := false), audit := c.audit.(netGone := true), work := Some(next))
    else if k.why.Removed? then Release(c)
    else c.(work := Some(Clean(k.(stage := Jail))))
  }

  function Unjailed(c: Cell, k: Cleanup, ok: bool): Cell {
    if ok then
      var next := Clean(k.(vmOk := true, stage := Commit));
      c.(held := c.held.(jail := false), audit := c.audit.(jailGone := true), work := Some(next))
    else if k.why.Removed? then Release(c)
    else c.(work := Some(Clean(k.(stage := Commit))))
  }

  predicate AllDone(k: Cleanup) {
    k.killed && k.netOk && k.vmOk
  }

  /** The record written at the end of a cleanup; `None` is a conflict, which writes nothing. */
  function Outcome(r: Sandbox, k: Cleanup): Option<Sandbox> {
    match k.why
    case BootFailed => Transition(r.(released := AllDone(k)), Failed)
    case Finished(code) =>
      if !k.killed then Some(r.(state := Failed, released := false))
      else Some(r.(state := if AllDone(k) then Exited else Failed, exit := Some(Exit(k.gen, code)),
          released := AllDone(k)))
    case Removed => Some(r.(state := Removing))
    case Interrupted => Some(r.(state := Failed, released := AllDone(k)))
    case Quarantined => if AllDone(k) then Some(r.(released := true)) else None
  }

  function Committed(c: Cell, k: Cleanup, stored: bool): Cell {
    var d := if stored && c.rec.Some? && Outcome(c.rec.value, k).Some? then c.(rec := Outcome(c.rec.value, k)) else c;
    if k.why.Removed? then d.(work := Some(Deleting))
    else if k.why.Finished? && AllDone(k) && c.rec.Some? && c.rec.value.spec.autoRemove
    then d.(work := Some(Saving(Exit(k.gen, k.why.code))))
    else Release(d)
  }

  /** saveResult, before an automatic removal; a failure puts the removal off. */
  function Saved(c: Cell, result: Exit, ok: bool): Cell {
    if ok then c.(saved := Some(result), audit := c.audit.(kept := true), work := Some(Deleting)) else Release(c)
  }

  /** One step on one sandbox; `None` means the step is not possible in this cell. */
  function LocalStep(c: Cell, a: Local): Option<Cell> {
    match a
    case VmmDies => Some(c.(held := c.held.(vmm := None)))
    case StartLock => if c.locked then None else Some(Enter(c, StartEntered))
    case StartGet(ok) =>
      if c.work != Some(StartEntered) then None
      else if ok && c.rec.Some? && (c.rec.value.state.Created? || c.rec.value.state.Exited?) && c.rec.value.prepared
      then Some(c.(work := Some(StartReady(c.rec.value))))
      else Some(Release(c))
    case BootStep(ok, launched) =>
      if c.work.Some? && c.work.value.Boot? && c.rec.Some?
      then BootOnce(c, c.rec.value, c.work.value.gen, c.work.value.bootStage, ok, launched)
      else None
    case BootWatch =>
      if c.work.Some? && c.work.value.Boot? && c.work.value.bootStage.Watch?
      then Some(Release(StartMonitor(c, c.work.value.gen)))
      else None
    case KillStep(ok) =>
      if InStage(c, Kill) then Some(Killed(c, c.work.value.job, ok)) else None
    case ListenersStep =>
      if InStage(c, Listeners) then Some(Unlistened(c, c.work.value.job)) else None
    case NetworkStep(ok) =>
      if InStage(c, Network) then Some(Unnetworked(c, c.work.value.job, ok)) else None
    case JailStep(ok) =>
      if InStage(c, Jail) then Some(Unjailed(c, c.work.value.job, ok)) else None
    case CommitStep(stored) =>
      if InStage(c, Commit) then Some(Committed(c, c.work.value.job, stored)) else None
    case SaveStep(ok) =>
      if c.work.Some? && c.work.value.Saving? then Some(Saved(c, c.work.value.result, ok)) else None
    case PruneStep => Some(c.(saved := None))
    case DeleteStep(ok) =>
      if c.work != Some(Deleting) then None
      else Some(Release(if ok then c.(rec := None) else c))
    case FinishByMonitor(g, code) =>
      if g in c.callers.watchers && !c.locked then Some(CallFinish(c, g, code)) else None
    case FinishByStop(g, code) =>
      if g in c.callers.stops && !c.locked then Some(CallFinish(StopReturns(c, g), g, code)) else None
    case FinishGet(ok) =>
      if c.work.Some? && c.work.value.FinishEntered? then
        var g := c.work.value.finishGen;
        if ok && c.rec.Some? && c.rec.value.generation == g
        then Some(c.(work := Some(NewCleanup(Finished(c.work.value.code), g))))
        else Some(Release(c))
      else None
    case MonitorExit(g) =>
      if g in c.callers.watchers then Some(MonitorReturns(c, g)) else None
    case StopRead =>
      if c.rec.Some? && !c.rec.value.state.Exited? && !c.rec.value.state.Created?
      then Some(c.(callers := c.callers.(stops := c.callers.stops + multiset{c.rec.value.generation})))
      else None
    case StopMark(g, stored) =>
      if g !in c.callers.stops then None
      else if stored && c.rec.Some? && Transition(c.rec.value, Stopping).Some?
      then Some(c.(rec := Transition(c.rec.value, Stopping)))
      else Some(c)
    case StopDone(g) =>
      if g in c.callers.stops then Some(StopReturns(c, g)) else None
    case RemoveLock(force) => if c.locked then None else Some(Enter(c, RemoveEntered(force)))
    case RemoveGet(ok) =>
      if c.work.Some? && c.work.value.RemoveEntered? then
        if ok && c.rec.Some? && (Live(c.rec.value.state) ==> c.work.value.force)
        then Some(c.(work := Some(NewCleanup(Removed, c.rec.value.generation))))
        else Some(Release(c))
      else None
  }

  predicate InStage(c: Cell, stage: CleanStage) {
    c.work.Some? && c.work.value.Clean? && c.work.value.job.stage == stage
  }

  // ----- The whole daemon -----

  /** The holder of the "allocations" lock. */
  datatype Allocation =
    | CreateScanned(name: string, spec: Spec, slot: nat)
    | CreatePreparing(id: Id, v: Sandbox)
    | StartHolds(id: Id)
    | StartCleared(id: Id, available: nat)
    | VolumeCreating(volume: string)
    | VolumeRemoving(volume: string)

  datatype Phase =
    | Down
    | Recovering(todo: map<Id, Sandbox>, at: Option<Id>)
    | Halted     // Recover returned an error
    | Serving

  datatype State = State(
    cells: map<Id, Cell>,
    volumes: set<string>,
    alloc: Option<Allocation>,
    phase: Phase,
    budget: nat)   // MemAvailable less the host reserve, as read by the latest admission

  const EMPTY: State := State(map[], {}, None, Down, 0)

  datatype Action =
    | Act(id: Id, a: Local)
    | Crash
    | RecoverBegin
    | RecoverVisit(id: Id, alive: bool, portsOk: bool, dnsOk: bool)
    | RecoverResume
    | RecoverDone
    | VolumeCreateLock(volume: string)
    | VolumeCreatePut(ok: bool)
    | VolumeRemoveScan(volume: string)
    | VolumeRemoveDelete(ok: bool)
    | CreateScan(name: string, spec: Spec, slot: nat)
    | CreateInsert(id: Id, ok: bool)
    | CreateCommit(reserveMiB: nat)
    | CreateAbort(stored: bool)
    | StartAllocate(id: Id)
    | StartScan(id: Id, available: nat)
    | StartRefuse(id: Id)
    | StartCommit(id: Id, stored: bool)

  function Rows(s: State): map<Id, Sandbox> {
    map id | id in s.cells && s.cells[id].rec.Some? :: s.cells[id].rec.value
  }

  function SetCell(s: State, id: Id, c: Cell): State {
    s.(cells := s.cells[id := c])
  }

  /** The daemon's memory is lost; the host and the record store are not. */
  function Forget(c: Cell): Cell {
    c.(held := c.held.(ports := false, dns := false), callers := NO_CALLERS, locked := false, work := None)
  }

  // ----- Recover -----

  /** What Recover does with one listed record; the flag says whether it goes on, rather than return an error. */
  function Visited(c: Cell, r: Sandbox, alive: bool, portsOk: bool, dnsOk: bool): (Cell, bool) {
    match r.state
    case Running | Stopping =>
      if !alive then (CallFinish(c, r.generation, None), true)
      else if !portsOk then (c, false)
      else if !r.spec.bridge then (StartMonitor(c.(held := c.held.(ports := true)), r.generation), true)
      else if !dnsOk then (c.(held := c.held.(ports := true)), false)
      else (StartMonitor(c.(held := c.held.(ports := true, dns := true)), r.generation), true)
    case Creating | Starting | Removing => (c.(work := Some(NewCleanup(Interrupted, r.generation))), true)
    case Failed => if r.released then (c, true) else (c.(work := Some(NewCleanup(Quarantined, r.generation))), true)
    case _ => (c, true)
  }

  function Visit(s: State, id: Id, alive: bool, portsOk: bool, dnsOk: bool): Option<State> {
    if s.phase.Recovering? && s.phase.at.None? && id in s.phase.todo && id in s.cells && !s.cells[id].locked then
      var (c, on) := Visited(s.cells[id], s.phase.todo[id], alive, portsOk, dnsOk);
      var at := if c.work.Some? then Some(id) else None;
      Some(SetCell(s, id, c).(phase := if on then Recovering(s.phase.todo - {id}, at) else Halted))
    else None
  }

  // ----- Create -----

  /** The least positive number that is not used. */
  ghost predicate IsLeastFree(used: set<nat>, slot: nat) {
    slot > 0 && slot !in used && forall k :: 0 < k < slot ==> k in used
  }

  function UsedSlots(s: State): set<nat> {
    set id | id in s.cells && s.cells[id].rec.Some? :: s.cells[id].rec.value.slot
  }

  /** The memory limits of Spec.Validate. */
  predicate ValidSpec(spec: Spec) {
    64 * MIB <= spec.memory <= 1024 * GIB
  }

  /**
    * The scan of Create. Names are unique. That no name spells an ID is the condition under which
    * looking a record up by ID finds it (Records.LookupById).
    */
  ghost predicate CreateAllowed(s: State, name: string, spec: Spec) {
    && ValidSpec(spec)
    && spec.mounts <= s.volumes
    && name !in s.cells
    && forall id :: id in s.cells && s.cells[id].rec.Some? ==>
         var r := s.cells[id].rec.value;
         r.name != name && r.spec.ports !! spec.ports
  }

  function NewSandbox(id: Id, name: string, spec: Spec, slot: nat): Sandbox {
    Sandbox(id, name, spec, Creating, 0, None, true, slot, 0, false)
  }

  function NewCell(v: Sandbox): Cell {
    Cell(Some(v), Holdings(None, false, false, false, false), Audit(0, false, false, false, false, {}), NO_CALLERS,
        false, None, None)
  }

  function GuestMemory(memory: nat, reserveMiB: nat): nat {
    ((memory + MIB - 1) / MIB + reserveMiB) * MIB
  }

  // ----- Start's admission -----

  ghost predicate VolumesFree(s: State, v: Sandbox) {
    forall id :: id in s.cells && id != v.id && s.cells[id].rec.Some? && Reserves(s.cells[id].rec.value) ==>
      s.cells[id].rec.value.spec.mounts !! v.spec.mounts
  }

  function Envelope(v: Sandbox): nat {
    v.guestMemory + ENVELOPE
  }

  /** What each sandbox counts for in Start's reservation sum. */
  function Reservation(c: Cell): nat {
    if c.rec.Some? && Reserves(c.rec.value) then Envelope(c.rec.value) else 0
  }

  function Reservations(s: State): map<Id, nat> {
    map id | id in s.cells :: Reservation(s.cells[id])
  }

  /** memoryBudget's test. */
  predicate BudgetAllows(reserved: nat, available: nat) {
    available >= HOST_RESERVE && reserved <= available - HOST_RESERVE
  }

  function Admitted(c: Cell, v: Sandbox): Cell {
    var w := v.(generation := v.generation + 1, state := Starting, exit := None, released := false);
    c.(rec := Some(w), work := Some(Boot(w.generation, Ports)),
        audit := Audit(c.audit.starts + 1, false, false, false, false, c.audit.calls))
  }

  predicate IsAdmitting(c: Cell) {
    c.work.Some? && c.work.value.StartAdmitting?
  }

  predicate Admitting(s: State, id: Id) {
    id in s.cells && IsAdmitting(s.cells[id])
  }

  function StartReleases(s: State, id: Id): State
    requires id in s.cells
  {
    SetCell(s, id, Release(s.cells[id])).(alloc := None)
  }

  // ----- One step of the daemon -----

  ghost function CreateStep(s: State, a: Action): Option<State> {
    match a
    case CreateScan(name, spec, slot) =>
      if s.phase.Serving? && s.alloc.None? && CreateAllowed(s, name, spec) && IsLeastFree(UsedSlots(s), slot) &&
          slot <= MAX_SLOT
      then Some(s.(alloc := Some(CreateScanned(name, spec, slot))))
      else None
    case CreateInsert(id, ok) =>
      if s.alloc.Some? && s.alloc.value.CreateScanned? then
        if !ok then Some(s.(alloc := None))
        else if id in s.cells || id == s.alloc.value.name ||
            (exists k :: k in s.cells && s.cells[k].rec.Some? && s.cells[k].rec.value.name == id)
        then None
        else
          var v := NewSandbox(id, s.alloc.value.name, s.alloc.value.spec, s.alloc.value.slot);
          Some(SetCell(s, id, NewCell(v)).(alloc := Some(CreatePreparing(id, v))))
      else None
    case CreateCommit(reserveMiB) =>
      if s.alloc.Some? && s.alloc.value.CreatePreparing? && 64 <= reserveMiB <= 4096 && s.alloc.value.id in s.cells then
        var id, v := s.alloc.value.id, s.alloc.value.v;
        var c := s.cells[id];
        if c.rec.None? then None
        else
          var w := v.(state := Created, prepared := true, guestMemory := GuestMemory(v.spec.memory, reserveMiB));
          Some(SetCell(s, id, c.(rec := Some(w))).(alloc := None))
      else None
    case CreateAbort(stored) =>
      if s.alloc.Some? && s.alloc.value.CreatePreparing? && s.alloc.value.id in s.cells then
        var c := s.cells[s.alloc.value.id];
        if stored && c.rec.Some? && Transition(c.rec.value, Failed).Some?
        then Some(SetCell(s, s.alloc.value.id, c.(rec := Transition(c.rec.value, Failed))).(alloc := None))
        else Some(s.(alloc := None))
      else None
    case _ => None
  }

  ghost function StartStep(s: State, a: Action): Option<State> {
    match a
    case StartAllocate(id) =>
      if s.alloc.None? && id in s.cells && s.cells[id].work.Some? && s.cells[id].work.value.StartReady?
      then
        var c := s.cells[id].(work := Some(StartAdmitting(s.cells[id].work.value.v)));
        Some(SetCell(s, id, c).(alloc := Some(StartHolds(id))))
      else None
    case StartScan(id, available) =>
      if s.alloc == Some(StartHolds(id)) && Admitting(s, id)
         && VolumesFree(s, s.cells[id].work.value.v)
         && BudgetAllows(Envelope(s.cells[id].work.value.v) + Sum(Reservations(s)), available)
      then Some(s.(alloc := Some(StartCleared(id, available))))
      else None
    case StartRefuse(id) =>
      if s.alloc == Some(StartHolds(id)) && id in s.cells then Some(StartReleases(s, id)) else None
    case StartCommit(id, stored) =>
      if s.alloc.Some? && s.alloc.value.StartCleared? && s.alloc.value.id == id && Admitting(s, id) then
        if stored && s.cells[id].rec.Some?
        then
          var available := s.alloc.value.available;
          var budget := if available >= HOST_RESERVE then available - HOST_RESERVE else 0;
          Some(SetCell(s, id, Admitted(s.cells[id], s.cells[id].work.value.v)).(alloc := None, budget := budget))
        else Some(StartReleases(s, id))
      else None
    case _ => None
  }

  ghost function VolumeStep(s: State, a: Action): Option<State> {
    match a
    case VolumeCreateLock(volume) =>
      if s.phase.Serving? && s.alloc.None? then Some(s.(alloc := Some(VolumeCreating(volume)))) else None
    case VolumeCreatePut(ok) =>
      if s.alloc.Some? && s.alloc.value.VolumeCreating?
      then Some(s.(alloc := None, volumes := if ok then s.volumes + {s.alloc.value.volume} else s.volumes))
      else None
    case VolumeRemoveScan(volume) =>
      if s.phase.Serving? && s.alloc.None? && volume in s.volumes
         && (forall id :: id in s.cells && s.cells[id].rec.Some? ==> volume !in s.cells[id].rec.value.spec.mounts)
      then Some(s.(alloc := Some(VolumeRemoving(volume))))
      else None
    case VolumeRemoveDelete(ok) =>
      if s.alloc.Some? && s.alloc.value.VolumeRemoving?
      then Some(s.(alloc := None, volumes := if ok then s.volumes - {s.alloc.value.volume} else s.volumes))
      else None
    case _ => None
  }

  ghost function RecoverStep(s: State, a: Action): Option<State> {
    match a
    case Crash =>
      Some(s.(cells := map id | id in s.cells :: Forget(s.cells[id]), alloc := None, phase := Down))
    case RecoverBegin =>
      if s.phase.Down? then Some(s.(phase := Recovering(Rows(s), None))) else None
    case RecoverVisit(id, alive, portsOk, dnsOk) => Visit(s, id, alive, portsOk, dnsOk)
    case RecoverResume =>
      if s.phase.Recovering? && s.phase.at.Some? && s.phase.at.value in s.cells && s.cells[s.phase.at.value].work.None?
      then Some(s.(phase := s.phase.(at := None)))
      else None
    case RecoverDone =>
      if s.phase.Recovering? && s.phase.todo == map[] && s.phase.at.None? then Some(s.(phase := Serving)) else None
    case _ => None
  }

  ghost function Step(s: State, a: Action): Option<State> {
    match a
    case Act(id, l) =>
      if id in s.cells && (IsRequest(l) ==> s.phase.Serving?) && LocalStep(s.cells[id], l).Some?
      then Some(SetCell(s, id, LocalStep(s.cells[id], l).value))
      else None
    case Crash | RecoverBegin | RecoverVisit(_, _, _, _) | RecoverResume | RecoverDone => RecoverStep(s, a)
    case VolumeCreateLock(_) | VolumeCreatePut(_) | VolumeRemoveScan(_) | VolumeRemoveDelete(_) => VolumeStep(s, a)
    case CreateScan(_, _, _) | CreateInsert(_, _) | CreateCommit(_) | CreateAbort(_) => CreateStep(s, a)
    case StartAllocate(_) | StartScan(_, _) | StartRefuse(_) | StartCommit(_, _) => StartStep(s, a)
  }

  /** Runs a schedule; `None` if some step of it is not possible. */
  ghost function Exec(s: State, schedule: seq<Action>): Option<State> {
    if schedule == [] then Some(s)
    else
      var n := |schedule| - 1;
      var p := Exec(s, schedule[..n]);
      if p.None? then None else Step(p.value, schedule[n])
  }

  /** Every schedule of requests, failures, deaths and crashes from an empty store. */
  ghost predicate Reachable(s: State) {
    exists schedule :: Exec(EMPTY, schedule) == Some(s)
  }
}
