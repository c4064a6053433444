/** What the lifecycle coordinator guarantees in every state that any run can reach. */
module LifecycleTheorems {
  import opened Basics
  import opened Records
  import opened Sums
  import opened Lifecycle
  import opened LifecycleInvariant
  import opened LifecycleSteps
  import Addresses

  lemma ReachableInv(s: State)
    requires Reachable(s)
    ensures Inv(s)
  {
    var schedule :| Exec(EMPTY, schedule) == Some(s);
    RunKept(schedule);
  }

  lemma ReachableStep(s: State, a: Action, t: State)
    requires Reachable(s) && Step(s, a) == Some(t)
    ensures Reachable(t)
  {
    var schedule :| Exec(EMPTY, schedule) == Some(s);
    var longer := schedule + [a];
    assert longer[..|longer| - 1] == schedule;
    assert Exec(EMPTY, longer) == Some(t);
  }

  /** Recovery, volumes, and Start other than its commit, leave every record as it is. */
  lemma RecordsStay(s: State, a: Action, id: Id)
    requires Step(s, a).Some? && id in s.cells
    requires !a.Act? && !(a.StartCommit? && a.id == id) && CreateStep(s, a).None?
    ensures id in Step(s, a).value.cells && Step(s, a).value.cells[id].rec == s.cells[id].rec
  {
  }

  /** The steps that write the record. */
  lemma RecordWriters(c: Cell, a: Local)
    requires LocalStep(c, a).Some? && !a.CommitStep?
    ensures var r := LocalStep(c, a).value.rec;
            || r == c.rec || r.None?
            || (a.BootStep? && c.work.Some? && c.work.value.Boot?)
            || (c.rec.Some? && r == Transition(c.rec.value, Stopping))
  {
  }

  // ----- Volumes -----

  /**
    * Two sandboxes that both have a live VMM or an admitted Start in flight share no volume, and both still have
    * records.
    */
  lemma VolumesAreExclusive(s: State, a: Id, b: Id)
    requires Reachable(s) && a in s.cells && b in s.cells && a != b
    requires Active(s.cells[a]) && Active(s.cells[b])
    ensures s.cells[a].rec.Some? && s.cells[b].rec.Some?
    ensures s.cells[a].rec.value.spec.mounts !! s.cells[b].rec.value.spec.mounts
  {
    ReachableInv(s);
    ActiveReserves(s.cells[a]);
    ActiveReserves(s.cells[b]);
    assert Apart(s.cells[a], s.cells[b]);
  }

  // ----- Quarantine -----

  /**
    * A sandbox that does not reserve VM resources has no VMM, network, jail, port listener or DNS proxy; and once
    * it has been started, Kill, Network.Remove and VM.Remove have all succeeded since. A deleted record likewise.
    */
  lemma UnreservedHoldsNothing(s: State, id: Id)
    requires Reachable(s) && id in s.cells
    requires s.cells[id].rec.Some? ==> !Reserves(s.cells[id].rec.value)
    ensures !Held(s.cells[id].held) && !InFlight(s.cells[id])
    ensures Confirmed(s.cells[id].audit)
  {
    ReachableInv(s);
    assert CellOk(s.cells[id]);
  }

  lemma ReleasedIsConfirmed(s: State, id: Id)
    requires Reachable(s) && id in s.cells
    requires s.cells[id].rec.Some? && s.cells[id].rec.value.released
    ensures Confirmed(s.cells[id].audit)
  {
    ReachableInv(s);
    assert CellOk(s.cells[id]);
  }

  /**
    * A live VMM keeps its record reserving through every step except the successful Kill (or its own death):
    * no commit, crash or recovery drops the reservation while the VMM lives.
    */
  lemma LiveStaysReserved(s: State, a: Action, id: Id)
    requires Reachable(s) && Step(s, a).Some? && id in s.cells
    requires id in Step(s, a).value.cells && Step(s, a).value.cells[id].held.vmm.Some?
    ensures Step(s, a).value.cells[id].rec.Some? && Reserves(Step(s, a).value.cells[id].rec.value)
  {
    ReachableInv(s);
    StepKept(s, a);
    ActiveReserves(Step(s, a).value.cells[id]);
  }

  // ----- Memory -----

  /** What is live or in flight fits the memory that was available at the latest admission, less the host reserve. */
  lemma MemoryIsAdmitted(s: State)
    requires Reachable(s)
    ensures Sum(Loads(s)) <= s.budget
  {
    ReachableInv(s);
  }

  /**
    * An admission sets that budget from the memory it read, and everything active then fits, the new sandbox included.
    */
  lemma AdmissionIsBudgeted(s: State, id: Id, t: State)
    requires Reachable(s) && Step(s, StartCommit(id, true)) == Some(t) && s.cells[id].rec.Some?
    ensures s.alloc.Some? && s.alloc.value.StartCleared? && s.alloc.value.available >= HOST_RESERVE
    ensures t.budget == s.alloc.value.available - HOST_RESERVE
    ensures id in t.cells && Active(t.cells[id]) && Load(t.cells[id]) == s.cells[id].rec.value.guestMemory + ENVELOPE
    ensures Sum(Loads(t)) <= t.budget
  {
    assert AllocationOk(s) && CellOk(s.cells[id]) by { ReachableInv(s); }
    assert Sum(Loads(t)) <= t.budget by {
      ReachableStep(s, StartCommit(id, true), t);
      MemoryIsAdmitted(t);
    }
  }

  /** What a sandbox was created to use: the memory it asked for, the least reserve, and the envelope. */
  function Demand(c: Cell): nat {
    if Active(c) && c.rec.Some? then c.rec.value.spec.memory + MIN_GUEST_RESERVE + ENVELOPE else 0
  }

  function Demands(s: State): map<Id, nat> {
    map id | id in s.cells :: Demand(s.cells[id])
  }

  /** So the memory that live and starting sandboxes asked for fits too. */
  lemma RequestsAreAdmitted(s: State)
    requires Reachable(s)
    ensures Sum(Demands(s)) <= s.budget
  {
    ReachableInv(s);
    forall id | id in s.cells
      ensures Demand(s.cells[id]) <= Load(s.cells[id])
    {
      assert CellOk(s.cells[id]);
      if s.cells[id].rec.Some? {
        assert GrantOk(s, id, s.cells[id].rec.value);
      }
    }
    SumMonotone(Demands(s), Loads(s));
  }

  const MAX_INT64: nat := 0x7fff_ffff_ffff_ffff

  function Slots(s: State): map<Id, nat> {
    map id | id in s.cells && s.cells[id].rec.Some? :: s.cells[id].rec.value.slot
  }

  /** An injective map into 1..n has at most n entries. */
  lemma {:induction false} Pigeonhole(m: map<Id, nat>, n: nat)
    requires forall k :: k in m ==> 1 <= m[k] <= n
    requires forall j, k :: j in m && k in m && j != k ==> m[j] != m[k]
    ensures |m| <= n
  {
    if n == 0 {
      assert m.Keys == {};
    } else if k :| k in m && m[k] == n {
      var rest := m - {k};
      assert rest.Keys == m.Keys - {k};
      Pigeonhole(rest, n - 1);
    } else {
      Pigeonhole(m, n - 1);
    }
  }

  lemma AtMostMaxSlotRecords(s: State)
    requires TableOk(s)
    ensures |Rows(s)| <= MAX_SLOT
  {
    forall id | id in Slots(s)
      ensures 1 <= Slots(s)[id] <= MAX_SLOT
    {
      assert GrantOk(s, id, s.cells[id].rec.value);
    }
    forall j, k | j in Slots(s) && k in Slots(s) && j != k
      ensures Slots(s)[j] != Slots(s)[k]
    {
      assert Compatible(s.cells[j].rec.value, s.cells[k].rec.value);
    }
    Pigeonhole(Slots(s), MAX_SLOT);
    assert Slots(s).Keys == Rows(s).Keys;
  }

  lemma ReservationBounded(s: State, id: Id)
    requires TableOk(s) && id in s.cells
    ensures Reservation(s.cells[id]) <= MAX_GUEST + ENVELOPE
  {
    if s.cells[id].rec.Some? {
      assert GrantOk(s, id, s.cells[id].rec.value);
    }
  }

  lemma ReservationsBounded(s: State)
    requires TableOk(s)
    ensures Sum(Reservations(s)) <= MAX_SLOT * (MAX_GUEST + ENVELOPE)
  {
    AtMostMaxSlotRecords(s);
    var m, keys := Reservations(s), Rows(s).Keys;
    SumSupport(m, keys);
    var kept := map k | k in m && k in keys :: m[k];
    assert kept.Keys == keys;
    forall k | k in kept
      ensures kept[k] <= MAX_GUEST + ENVELOPE
    {
      ReservationBounded(s, k);
    }
    SumBoundedBy(kept, MAX_SLOT, MAX_GUEST + ENVELOPE);
  }

  lemma EnvelopesFit(one: nat, all: nat)
    requires one <= MAX_GUEST + ENVELOPE && all <= MAX_SLOT * (MAX_GUEST + ENVELOPE)
    ensures one + all <= MAX_INT64
  {
  }

  /** Start's reservation sum, including the candidate's own envelope, stays within int64. */
  lemma ReservationSumFits(s: State, id: Id)
    requires Reachable(s) && Admitting(s, id)
    ensures Envelope(s.cells[id].work.value.v) + Sum(Reservations(s)) <= MAX_INT64
  {
    assert Inv(s) by { ReachableInv(s); }
    ReservationsBounded(s);
    CandidateIsBounded(s, id);
    EnvelopesFit(Envelope(s.cells[id].work.value.v), Sum(Reservations(s)));
  }

  lemma CandidateIsBounded(s: State, id: Id)
    requires Inv(s) && Admitting(s, id)
    ensures s.cells[id].work.value.v.guestMemory <= MAX_GUEST
  {
    assert CellOk(s.cells[id]);
    assert GrantOk(s, id, s.cells[id].rec.value);
  }

  // ----- Generations -----

  /** The generation counts the admitted starts, and a live VMM or a stored exit belongs to the latest of them. */
  lemma GenerationCountsStarts(s: State, id: Id)
    requires Reachable(s) && id in s.cells && s.cells[id].rec.Some?
    ensures var c := s.cells[id];
            var r := c.rec.value;
            && r.generation == c.audit.starts
            && (c.held.vmm.Some? ==> c.held.vmm.value == r.generation)
            && (r.exit.Some? ==> r.exit.value.run == r.generation)
  {
    ReachableInv(s);
    assert CellOk(s.cells[id]);
  }

  predicate IsFinishing(c: Cell, g: nat) {
    c.work.Some? && c.work.value.Clean? && c.work.value.job.why.Finished? && c.work.value.job.gen == g
  }

  /** While finish works for generation g, the record is at g, and the VMM it would kill is the one of g. */
  lemma FinishIsFenced(s: State, id: Id, g: nat)
    requires Reachable(s) && id in s.cells && IsFinishing(s.cells[id], g)
    ensures s.cells[id].rec.Some? && s.cells[id].rec.value.generation == g == s.cells[id].audit.starts
    ensures s.cells[id].held.vmm.Some? ==> s.cells[id].held.vmm.value == g
  {
    ReachableInv(s);
    assert CellOk(s.cells[id]);
  }

  lemma OneMonitorPerGeneration(s: State, id: Id, g: nat)
    requires Reachable(s) && id in s.cells
    ensures s.cells[id].callers.watchers[g] <= 1
  {
    ReachableInv(s);
    assert CellOk(s.cells[id]);
  }

  predicate IsCleaning(c: Cell) {
    c.work.Some? && c.work.value.Clean?
  }

  /**
    * A cleanup of a live record is begun by finish for its run, a forced Remove, the failure of its start, or Recover.
    */
  lemma CleanupHasCause(s: State, a: Action, id: Id)
    requires Step(s, a).Some? && id in s.cells && s.cells[id].rec.Some? && Live(s.cells[id].rec.value.state)
    requires !IsCleaning(s.cells[id]) && id in Step(s, a).value.cells && IsCleaning(Step(s, a).value.cells[id])
    ensures var w := s.cells[id].work;
            || (a == Act(id, FinishGet(true)) && w.Some? && w.value.FinishEntered?
                && w.value.finishGen == s.cells[id].rec.value.generation)
            || (a == Act(id, RemoveGet(true)) && w == Some(RemoveEntered(true)))
            || (a.Act? && a.id == id && a.a.BootStep? && w.Some? && w.value.Boot?)
            || (a.RecoverVisit? && a.id == id)
  {
    if a.Act? && a.id == id {
      LocalCleanupHasCause(s.cells[id], a.a);
    }
  }

  lemma LocalCleanupHasCause(c: Cell, a: Local)
    requires LocalStep(c, a).Some? && c.rec.Some? && Live(c.rec.value.state)
    requires !IsCleaning(c) && IsCleaning(LocalStep(c, a).value)
    ensures || (a == FinishGet(true) && c.work.Some? && c.work.value.FinishEntered?
                && c.work.value.finishGen == c.rec.value.generation)
            || (a == RemoveGet(true) && c.work == Some(RemoveEntered(true)))
            || (a.BootStep? && c.work.Some? && c.work.value.Boot?)
  {
  }

  // ----- Wait -----

  datatype WaitResult = Pending | NeverStarted | Gone | Ended(exit: Exit) | FailedRun

  /** One round of Wait's loop, given what the store and the saved results hold. */
  function WaitOnce(rec: Option<Sandbox>, saved: Option<Exit>): WaitResult {
    match rec
    case None => if saved.Some? then Ended(saved.value) else Gone
    case Some(r) =>
      if r.state.Created? then NeverStarted
      else if r.exit.Some? then Ended(r.exit.value)
      else if r.state.Failed? then FailedRun
      else Pending
  }

  /**
    * Wait goes on exactly while there is a record that has been started, has not failed and has no exit. The exit it
    * reports is one that finish was called with for one of this sandbox's runs, and no VMM lives. While there is a
    * record it is the latest run's; after removal it is so exactly if the result was saved since the last start.
    */
  lemma WaitReportsTheLatestRun(s: State, id: Id)
    requires Reachable(s) && id in s.cells
    ensures var c := s.cells[id];
            var r := WaitOnce(c.rec, c.saved);
            && (c.rec.Some? && Live(c.rec.value.state) ==> r == Pending)
            && (r == Pending <==>
                  c.rec.Some? && c.rec.value.exit.None? && !c.rec.value.state.Created? && !c.rec.value.state.Failed?)
            && (r.Ended? <==> (if c.rec.Some? then c.rec.value.exit.Some? else c.saved.Some?))
            && (r.Ended? ==> r.exit in c.audit.calls && r.exit.run <= c.audit.starts && c.held.vmm.None?)
            && (r.Ended? ==> (r.exit.run == c.audit.starts <==> c.rec.Some? || c.audit.kept))
  {
    ReachableInv(s);
    assert CellOk(s.cells[id]);
  }

  /** An automatic removal saves the result first, and it stays the latest one's until the next start. */
  lemma KeptUntilStart(s: State, a: Action, id: Id)
    requires Reachable(s) && Step(s, a).Some? && id in s.cells && !(a.StartCommit? && a.id == id)
    requires s.cells[id].audit.kept || (a == Act(id, SaveStep(true)))
    ensures id in Step(s, a).value.cells && Step(s, a).value.cells[id].audit.kept
  {
    if a.Act? {
      if a.id == id {
        LocalKeeps(s.cells[id], a.a);
      }
    } else {
      AuditStays(s, a, id);
    }
  }

  lemma LocalKeeps(c: Cell, a: Local)
    requires LocalStep(c, a).Some? && (c.audit.kept || a == SaveStep(true))
    ensures LocalStep(c, a).value.audit.kept
  {
  }

  lemma AuditStays(s: State, a: Action, id: Id)
    requires Step(s, a).Some? && id in s.cells && !a.Act? && !(a.StartCommit? && a.id == id)
    ensures id in Step(s, a).value.cells && Step(s, a).value.cells[id].audit.kept == s.cells[id].audit.kept
  {
  }

  // ----- Allocation -----

  /**
    * Records have distinct slots in 1..16000, distinct names and disjoint host ports, and mount only existing volumes.
    */
  lemma AllocationsAreDistinct(s: State, a: Id, b: Id)
    requires Reachable(s) && a in s.cells && b in s.cells && a != b
    requires s.cells[a].rec.Some? && s.cells[b].rec.Some?
    ensures var r, q := s.cells[a].rec.value, s.cells[b].rec.value;
            && 1 <= r.slot <= MAX_SLOT && 1 <= q.slot <= MAX_SLOT && r.slot != q.slot
            && r.name != q.name && r.spec.ports !! q.spec.ports
            && r.spec.mounts <= s.volumes && q.spec.mounts <= s.volumes
  {
    ReachableInv(s);
    assert GrantOk(s, a, s.cells[a].rec.value) && GrantOk(s, b, s.cells[b].rec.value);
    assert Compatible(s.cells[a].rec.value, s.cells[b].rec.value);
  }

  /** The slots that Create hands out are exactly those for which there is a link. */
  lemma SlotsHaveLinks(id: Id, slot: int)
    ensures Addresses.For(id, slot).Some? <==> Addresses.IsId(id) && 1 <= slot <= MAX_SLOT
  {
  }

  /**
    * Every record has a link, and two records' links lie in different /30 blocks: no address of one sandbox is an
    * address of another.
    */
  lemma LinksAreDisjoint(s: State, a: Id, b: Id)
    requires Reachable(s) && a in s.cells && b in s.cells && a != b
    requires s.cells[a].rec.Some? && s.cells[b].rec.Some?
    requires Addresses.IsId(a) && Addresses.IsId(b)
    ensures Addresses.For(a, s.cells[a].rec.value.slot).Some? && Addresses.For(b, s.cells[b].rec.value.slot).Some?
    ensures var l, m := Addresses.For(a, s.cells[a].rec.value.slot).value,
            Addresses.For(b, s.cells[b].rec.value.slot).value;
            && !Addresses.SameBlock(l.host, m.host) && !Addresses.SameBlock(l.host, m.peer)
            && !Addresses.SameBlock(l.peer, m.host) && !Addresses.SameBlock(l.peer, m.peer)
  {
    AllocationsAreDistinct(s, a, b);
    SlotsHaveLinks(a, s.cells[a].rec.value.slot);
    SlotsHaveLinks(b, s.cells[b].rec.value.slot);
    Addresses.BlocksAreDisjoint(a, s.cells[a].rec.value.slot, b, s.cells[b].rec.value.slot);
    Addresses.BlocksAreDisjoint(b, s.cells[b].rec.value.slot, a, s.cells[a].rec.value.slot);
  }

  /** The slot search of Create: it ends with the least free slot, so it fails exactly when all 16000 are taken. */
  method FindSlot(used: set<nat>) returns (slot: nat)
    ensures IsLeastFree(used, slot)
    ensures slot > MAX_SLOT <==> forall k :: 1 <= k <= MAX_SLOT ==> k in used
  {
    slot := 1;
    ghost var seen: set<nat> := {};
    while slot in used
      invariant slot >= 1 && seen <= used
      invariant forall k :: k in seen <==> 0 < k < slot
      decreases |used - seen|
    {
      assert slot in used - seen;
      assert used - (seen + {slot}) == (used - seen) - {slot};
      seen := seen + {slot};
      slot := slot + 1;
    }
  }

  /** In whatever order the rows are listed, looking one up by its ID finds that one. */
  lemma LookupsAreExact(s: State, all: seq<Sandbox>, i: nat, r: Lookup)
    requires Reachable(s) && i < |all|
    requires forall j :: 0 <= j < |all| ==> all[j].id in s.cells && s.cells[all[j].id].rec == Some(all[j])
    requires forall j, k :: 0 <= j < k < |all| ==> all[j].id != all[k].id
    requires IsLookup(all, all[i].id, r)
    ensures r == Found(all[i])
  {
    ReachableInv(s);
    forall j, k | 0 <= j < k < |all|
      ensures all[j].name != all[k].name
    {
      assert Compatible(all[j], all[k]);
    }
    forall j | 0 <= j < |all|
      ensures all[j].name != all[i].id
    {
      assert GrantOk(s, all[j].id, all[j]);
    }
    LookupById(all, i, r);
  }

  lemma SameLength(a: string, b: string)
    requires |a| == |b|
    ensures a <= b ==> a == b
  {
  }

  /**
    * When all IDs have one length, looking up the ID of a deleted record finds nothing: no ID is a prefix of another.
    */
  lemma DeletedIsNotFound(s: State, all: seq<Sandbox>, id: Id, r: Lookup)
    requires Reachable(s) && id in s.cells && s.cells[id].rec.None?
    requires forall j :: 0 <= j < |all| ==>
               all[j].id in s.cells && s.cells[all[j].id].rec == Some(all[j]) && |all[j].id| == |id|
    requires IsLookup(all, id, r)
    ensures r == NotFound
  {
    assert TableOk(s) by { ReachableInv(s); }
    forall j | 0 <= j < |all|
      ensures !Exact(all[j], id) && !Abbreviates(all[j], id)
    {
      assert GrantOk(s, all[j].id, all[j]);
      SameLength(id, all[j].id);
    }
  }

  /**
    * Why the lifecycle excludes names that spell an ID: two Starts under different locks can both read one row
    * (Records.TwoLocksOneRow), and when both commit what they read, two runs share one generation.
    */
  lemma TwoAdmissionsOneGeneration(c: Cell, v: Sandbox)
    requires CellOk(c) && Startable(c, v)
    ensures var d := Admitted(Admitted(c, v), v);
            d.rec.Some? && d.rec.value.generation == v.generation + 1 && d.audit.starts == v.generation + 2 &&
                !CellOk(d)
  {
  }
}
