/** Exactly when a record that has given up its reservation reserves again. */
module LifecycleLimits {
  import opened Basics
  import opened Records
  import opened Lifecycle
  import opened LifecycleInvariant
  import opened LifecycleTheorems

  /** An unfinished cleanup, of a finished run or of an interrupted operation, is about to be written. */
  predicate WritesUnfinished(c: Cell, a: Local) {
    a == CommitStep(true) && InStage(c, Commit) && !AllDone(c.work.value.job)
    && (c.work.value.job.why.Finished? || c.work.value.job.why.Interrupted?)
  }

  lemma CommitReserves(c: Cell, k: Cleanup, stored: bool)
    requires CellOk(c) && c.work == Some(Clean(k)) && k.stage.Commit? && c.rec.Some? && !Reserves(c.rec.value)
    ensures var r := Committed(c, k, stored).rec;
            r.Some? && Reserves(r.value) <==> stored && !AllDone(k) && (k.why.Finished? || k.why.Interrupted?)
  {
  }

  lemma LocalReserves(c: Cell, a: Local)
    requires CellOk(c) && LocalStep(c, a).Some? && c.rec.Some? && !Reserves(c.rec.value)
    ensures var r := LocalStep(c, a).value.rec;
            r.Some? && Reserves(r.value) <==> WritesUnfinished(c, a)
  {
    if a.CommitStep? {
      CommitReserves(c, c.work.value.job, a.stored);
    } else {
      OthersDoNotReserve(c, a);
    }
  }

  lemma CreateDoesNotReserve(s: State, a: Action, id: Id)
    requires CreateStep(s, a).Some? && id in s.cells && CellOk(s.cells[id])
    requires s.cells[id].rec.Some? && !Reserves(s.cells[id].rec.value)
    ensures var t := CreateStep(s, a).value;
            id in t.cells && (t.cells[id].rec.Some? ==> !Reserves(t.cells[id].rec.value))
  {
  }

  /**
    * Other than by its own admission, a sandbox comes to reserve exactly when a cleanup of it that was not all
    * confirmed is written, for a finished run or an interrupted operation.
    */
  lemma ReservationReturns(s: State, a: Action, id: Id)
    requires Reachable(s) && Step(s, a).Some? && id in s.cells
    requires s.cells[id].rec.Some? && !Reserves(s.cells[id].rec.value)
    requires !(a.StartCommit? && a.id == id)
    ensures var t := Step(s, a).value;
            id in t.cells &&
            (t.cells[id].rec.Some? && Reserves(t.cells[id].rec.value) <==>
                  a.Act? && a.id == id && WritesUnfinished(s.cells[id], a.a))
  {
    assert CellOk(s.cells[id]) by { ReachableInv(s); }
    if a.Act? {
      if a.id == id {
        LocalReserves(s.cells[id], a.a);
      }
    } else if CreateStep(s, a).Some? {
      CreateDoesNotReserve(s, a, id);
    } else {
      RecordsStay(s, a, id);
    }
  }

  lemma OthersDoNotReserve(c: Cell, a: Local)
    requires CellOk(c) && LocalStep(c, a).Some? && !a.CommitStep?
    requires c.rec.Some? && !Reserves(c.rec.value)
    ensures var r := LocalStep(c, a).value.rec;
            r.Some? ==> !Reserves(r.value)
  {
    RecordWriters(c, a);
    assert c.work.Some? ==> !c.work.value.Boot?;
  }
}
