/** The lifecycle's use of the record store: one transaction to a step. */
module LifecycleStore {
  import opened Basics
  import opened Records
  import opened Lifecycle
  import opened LifecycleInvariant
  import opened LifecycleProof
  import opened LifecycleTheorems

  lemma RowsSet(s: State, id: Id, c: Cell)
    ensures Rows(SetCell(s, id, c)) == if c.rec.Some? then Rows(s)[id := c.rec.value] else Rows(s) - {id}
  {
  }

  lemma RowsSame(s: State, t: State)
    requires t.cells.Keys == s.cells.Keys && forall id :: id in s.cells ==> t.cells[id].rec == s.cells[id].rec
    ensures Rows(t) == Rows(s)
  {
  }

  /** A step that sets one cell and keeps its ID and name writes at most one row. */
  lemma CellIsOneTransaction(s: State, id: Id, d: Cell) returns (w: Option<Write>)
    requires TableOk(s) && id in s.cells
    requires d.rec.Some? ==>
               s.cells[id].rec.Some? && d.rec.value.id == s.cells[id].rec.value.id &&
               d.rec.value.name == s.cells[id].rec.value.name
    ensures Transacts(Rows(s), w, Rows(SetCell(s, id, d)))
  {
    var c := s.cells[id];
    RowsSet(s, id, d);
    if c.rec.Some? {
      assert GrantOk(s, id, c.rec.value);
    }
    if d.rec == c.rec {
      w := None;
      RowsSame(s, SetCell(s, id, d));
    } else if d.rec.None? {
      w := Some(Erase(id));
    } else {
      w := Some(Replace(d.rec.value));
    }
  }

  /** No transaction, or one that succeeds and does not rename a row. */
  ghost predicate Transacts(rows: Table, w: Option<Write>, rows': Table) {
    match w
    case None => rows' == rows
    case Some(x) => Applied(rows, x) == Some(rows') && (x.Replace? ==> x.v.id in rows && rows[x.v.id].name == x.v.name)
  }

  lemma InsertIsOneTransaction(s: State, id: Id) returns (w: Option<Write>)
    requires Inv(s) && CreateStep(s, CreateInsert(id, true)).Some?
    ensures Transacts(Rows(s), w, Rows(CreateStep(s, CreateInsert(id, true)).value))
  {
    var v := NewSandbox(id, s.alloc.value.name, s.alloc.value.spec, s.alloc.value.slot);
    w := Some(Insert(v));
    RowsSet(s, id, NewCell(v));
    assert id !in Rows(s);
    forall k | k in Rows(s)
      ensures Rows(s)[k].name != v.name
    {
      assert Compatible(s.cells[k].rec.value, NewSandbox("", v.name, v.spec, v.slot));
    }
    var t := CreateStep(s, CreateInsert(id, true)).value;
    RowsSame(SetCell(s, id, NewCell(v)), t);
  }

  lemma CreateIsOneTransaction(s: State, a: Action) returns (w: Option<Write>)
    requires Inv(s) && CreateStep(s, a).Some? && !(a.CreateInsert? && a.ok)
    ensures Transacts(Rows(s), w, Rows(CreateStep(s, a).value))
  {
    var t := CreateStep(s, a).value;
    if a.CreateScan? || a.CreateInsert? || t.cells == s.cells {
      w := None;
      RowsSame(s, t);
    } else {
      var id := s.alloc.value.id;
      var d := t.cells[id];
      assert t.cells == SetCell(s, id, d).cells;
      w := CellIsOneTransaction(s, id, d);
      RowsSame(SetCell(s, id, d), t);
    }
  }

  lemma CommitIsOneTransaction(s: State, id: Id) returns (w: Option<Write>)
    requires Inv(s) && StartStep(s, StartCommit(id, true)).Some? && s.cells[id].rec.Some?
    ensures Transacts(Rows(s), w, Rows(StartStep(s, StartCommit(id, true)).value))
  {
    var v := s.cells[id].work.value.v;
    var d := s.cells[id].(rec := Admitted(s.cells[id], v).rec);
    assert CellOk(s.cells[id]);
    w := CellIsOneTransaction(s, id, d);
    RowsSame(SetCell(s, id, d), StartStep(s, StartCommit(id, true)).value);
  }

  /** Every step of the daemon is at most one transaction of the record store, which succeeds and renames no row. */
  lemma StepIsOneTransaction(s: State, a: Action, t: State) returns (w: Option<Write>)
    requires Reachable(s) && Step(s, a) == Some(t)
    ensures Transacts(Rows(s), w, Rows(t))
  {
    ReachableInv(s);
    if a.Act? {
      assert AtPeace(s.phase, a.id, s.cells[a.id]);
      LocalGood(s.cells[a.id], a.a);
      w := CellIsOneTransaction(s, a.id, LocalStep(s.cells[a.id], a.a).value);
    } else if CreateStep(s, a).Some? {
      if a.CreateInsert? && a.ok {
        w := InsertIsOneTransaction(s, a.id);
      } else {
        w := CreateIsOneTransaction(s, a);
      }
    } else if a.StartCommit? && a.stored && s.cells[a.id].rec.Some? {
      w := CommitIsOneTransaction(s, a.id);
    } else {
      w := None;
      RestWritesNothing(s, a);
    }
  }

  lemma RestWritesNothing(s: State, a: Action)
    requires Step(s, a).Some? && !a.Act? && CreateStep(s, a).None?
    requires a.StartCommit? && a.stored && a.id in s.cells ==> s.cells[a.id].rec.None?
    ensures Rows(Step(s, a).value) == Rows(s)
  {
    var t := Step(s, a).value;
    assert t.cells.Keys == s.cells.Keys;
    RowsSame(s, t);
  }

  /** So in every reachable state the rows are kept under their IDs, and names are unique. */
  lemma StoreIsKeyed(s: State)
    requires Reachable(s)
    ensures Keyed(Rows(s))
  {
    ReachableInv(s);
    forall id | id in Rows(s)
      ensures Rows(s)[id].id == id
    {
      assert GrantOk(s, id, s.cells[id].rec.value);
    }
    forall a, b | a in Rows(s) && b in Rows(s) && a != b
      ensures Rows(s)[a].name != Rows(s)[b].name
    {
      assert Compatible(s.cells[a].rec.value, s.cells[b].rec.value);
    }
  }

  // ----- State changes -----

  /**
    * The writes that assign a state without asking the transition table: finish, Remove, Recover, and the end of
    * Create.
    */
  predicate Unchecked(c: Cell, id: Id, a: Action) {
    || a.CreateCommit?
    || (a == Act(id, CommitStep(true)) && InStage(c, Commit)
        && (c.work.value.job.why.Finished? || c.work.value.job.why.Removed? || c.work.value.job.why.Interrupted?))
  }

  lemma BootFollowsTable(c: Cell, a: Local)
    requires LocalStep(c, a).Some? && c.rec.Some? && (a.BootStep? || a.BootWatch?)
    ensures var r := LocalStep(c, a).value.rec;
            r.Some? && r.value.state != c.rec.value.state ==> MayMove(c.rec.value.state, r.value.state)
  {
  }

  lemma LocalFollowsTable(c: Cell, a: Local)
    requires LocalStep(c, a).Some? && c.rec.Some? && !a.CommitStep?
    ensures var r := LocalStep(c, a).value.rec;
            r.Some? && r.value.state != c.rec.value.state ==> MayMove(c.rec.value.state, r.value.state)
  {
    if a.BootStep? || a.BootWatch? {
      BootFollowsTable(c, a);
    } else {
      RecordWriters(c, a);
    }
  }

  lemma CommitFollowsTable(c: Cell, k: Cleanup, stored: bool)
    requires CellOk(c) && c.work == Some(Clean(k)) && k.stage.Commit? && c.rec.Some?
    ensures var r := Committed(c, k, stored).rec;
            r.Some? && r.value.state != c.rec.value.state ==>
              MayMove(c.rec.value.state, r.value.state) ||
                  (stored && (k.why.Finished? || k.why.Removed? || k.why.Interrupted?))
  {
  }

  lemma CreateFollowsTable(s: State, a: Action, id: Id)
    requires CreateStep(s, a).Some? && !a.CreateCommit? && id in s.cells && s.cells[id].rec.Some?
    ensures var t := CreateStep(s, a).value;
            id in t.cells && (t.cells[id].rec.Some? && t.cells[id].rec.value.state != s.cells[id].rec.value.state ==>
                                MayMove(s.cells[id].rec.value.state, t.cells[id].rec.value.state))
  {
  }

  lemma CellFollowsTable(c: Cell, id: Id, a: Local)
    requires CellOk(c) && LocalStep(c, a).Some? && c.rec.Some?
    ensures var r := LocalStep(c, a).value.rec;
            r.Some? && r.value.state != c.rec.value.state ==>
              MayMove(c.rec.value.state, r.value.state) || Unchecked(c, id, Act(id, a))
  {
    if a.CommitStep? {
      CommitFollowsTable(c, c.work.value.job, a.stored);
    } else {
      LocalFollowsTable(c, a);
    }
  }

  lemma AdmissionFollowsTable(s: State, id: Id, stored: bool)
    requires StartStep(s, StartCommit(id, stored)).Some? && CellOk(s.cells[id]) && s.cells[id].rec.Some?
    ensures var r := StartStep(s, StartCommit(id, stored)).value.cells[id].rec;
            r.Some? && r.value.state != s.cells[id].rec.value.state ==>
              MayMove(s.cells[id].rec.value.state, r.value.state)
  {
  }

  /** A record's state changes as the transition table allows, except by those writes. */
  lemma StateFollowsTable(s: State, a: Action, id: Id)
    requires Reachable(s) && Step(s, a).Some? && id in s.cells && s.cells[id].rec.Some?
    ensures var t := Step(s, a).value;
            id in t.cells && (t.cells[id].rec.Some? && t.cells[id].rec.value.state != s.cells[id].rec.value.state ==>
                                MayMove(s.cells[id].rec.value.state, t.cells[id].rec.value.state) ||
                                    Unchecked(s.cells[id], id, a))
  {
    assert CellOk(s.cells[id]) by { ReachableInv(s); }
    if a.Act? {
      if a.id == id {
        CellFollowsTable(s.cells[id], id, a.a);
      }
    } else if CreateStep(s, a).Some? {
      if !a.CreateCommit? {
        CreateFollowsTable(s, a, id);
      }
    } else if a.StartCommit? && a.id == id {
      AdmissionFollowsTable(s, id, a.stored);
    } else {
      RecordsStay(s, a, id);
    }
  }
}
