/** Sandbox records, their state transitions and the record store (internal/state/store.go). */
module Records {
  import opened Basics

  datatype Status = Creating | Created | Starting | Running | Stopping | Exited | Failed | Removing

  /** How an application run ended. `run` is the generation whose `finish` recorded it. */
  datatype Exit = Exit(run: nat, code: Option<int>)

  datatype Spec = Spec(
    mounts: set<string>,   // names of the mounted volumes
    ports: set<nat>,       // published host ports
    bridge: bool,          // network "bridge" rather than "none"
    autoRemove: bool,
    memory: nat)           // requested bytes

  datatype Sandbox = Sandbox(
    id: string,
    name: string,
    spec: Spec,
    state: Status,
    generation: nat,
    exit: Option<Exit>,
    released: bool,        // VMResourcesReleased
    slot: nat,
    guestMemory: nat,
    prepared: bool)        // a base digest has been stored, so the base can be looked up

  /** The states in which a virtual machine is expected to exist. */
  predicate Live(s: Status) {
    s.Starting? || s.Running? || s.Stopping?
  }

  predicate Reserves(v: Sandbox) {
    match v.state
    case Starting | Running | Stopping => true
    case Failed => !v.released
    case _ => false
  }

  predicate MayMove(from: Status, to: Status) {
    match from
    case Creating => to.Created? || to.Failed? || to.Removing?
    case Created => to.Starting? || to.Removing?
    case Starting => to.Running? || to.Failed? || to.Stopping?
    case Running => to.Stopping? || to.Failed?
    case Stopping => to.Exited? || to.Failed?
    case Exited => to.Starting? || to.Removing?
    case Failed => to.Removing?
    case Removing => false
  }

  /** `None` is the conflict error: the record is then left as it was. */
  function Transition(v: Sandbox, to: Status): (r: Option<Sandbox>) {
    if v.state == to then Some(v)
    else if MayMove(v.state, to) then Some(v.(state := to))
    else None
  }

  /** The table read by its targets: what each state may be reached from. */
  function Sources(to: Status): set<Status> {
    match to
    case Creating => {}
    case Created => {Creating}
    case Starting => {Created, Exited}
    case Running => {Starting}
    case Stopping => {Starting, Running}
    case Exited => {Stopping}
    case Failed => {Creating, Starting, Running, Stopping}
    case Removing => {Creating, Created, Exited, Failed}
  }

  lemma TransitionExactly(v: Sandbox, to: Status)
    ensures Transition(v, to).Some? <==> v.state == to || v.state in Sources(to)
    ensures Transition(v, to).Some? ==> Transition(v, to).value == v.(state := to)
  {
  }

  /** Resources are reserved for what is live and for what has failed without a confirmed release. */
  lemma ReservesExactly(v: Sandbox)
    ensures Reserves(v) <==> Live(v.state) || (v.state == Failed && !v.released)
  {
  }

  // ----- Lookup by ID, name or unique ID prefix -----

  datatype Lookup = Found(v: Sandbox) | Ambiguous | NotFound

  predicate Exact(v: Sandbox, key: string) {
    v.id == key || v.name == key
  }

  predicate Abbreviates(v: Sandbox, key: string) {
    key != "" && key <= v.id
  }

  /**
    * The first row that matches exactly wins, whether by ID or by name; a prefix counts only if no row matches exactly.
    */
  ghost predicate IsLookup(all: seq<Sandbox>, key: string, r: Lookup) {
    if exists i :: 0 <= i < |all| && Exact(all[i], key) then
      exists i :: 0 <= i < |all| && Exact(all[i], key) && r == Found(all[i])
        && forall j :: 0 <= j < i ==> !Exact(all[j], key)
    else match r
      case Found(v) =>
        exists i :: 0 <= i < |all| && v == all[i] && Abbreviates(all[i], key)
          && forall j :: 0 <= j < |all| && Abbreviates(all[j], key) ==> j == i
      case Ambiguous =>
        exists i, j :: 0 <= i < j < |all| && Abbreviates(all[i], key) && Abbreviates(all[j], key)
      case NotFound =>
        forall i :: 0 <= i < |all| ==> !Abbreviates(all[i], key)
  }

  method Get(all: seq<Sandbox>, key: string) returns (r: Lookup)
    ensures IsLookup(all, key, r)
  {
    for i := 0 to |all|
      invariant forall j :: 0 <= j < i ==> !Exact(all[j], key)
    {
      if Exact(all[i], key) {
        return Found(all[i]);
      }
    }
    var found: seq<Sandbox> := [];
    ghost var at: seq<nat> := [];
    for i := 0 to |all|
      invariant |at| == |found|
      invariant forall k :: 0 <= k < |at| ==> at[k] < i && found[k] == all[at[k]] && Abbreviates(all[at[k]], key)
      invariant forall k, l :: 0 <= k < l < |at| ==> at[k] < at[l]
      invariant forall j :: 0 <= j < i && Abbreviates(all[j], key) ==> j in at
    {
      if Abbreviates(all[i], key) {
        found := found + [all[i]];
        at := at + [i];
      }
    }
    if |found| == 1 {
      return Found(found[0]);
    }
    if |found| > 1 {
      assert Abbreviates(all[at[0]], key) && Abbreviates(all[at[1]], key);
      return Ambiguous;
    }
    return NotFound;
  }

  ghost predicate DistinctRows(all: seq<Sandbox>) {
    forall i, j :: 0 <= i < j < |all| ==> all[i].id != all[j].id && all[i].name != all[j].name
  }

  /**
    * Looking up a stored row by its own ID finds that row exactly when no earlier row carries the ID as its name.
    * The daemon looks rows up by ID under a lock that is named by the ID.
    */
  lemma LookupById(all: seq<Sandbox>, i: nat, r: Lookup)
    requires DistinctRows(all) && i < |all|
    requires IsLookup(all, all[i].id, r)
    ensures r == Found(all[i]) <==> forall j :: 0 <= j < i ==> all[j].name != all[i].id
  {
    assert Exact(all[i], all[i].id);
    var k :| 0 <= k < |all| && Exact(all[k], all[i].id) && r == Found(all[k])
             && forall j :: 0 <= j < k ==> !Exact(all[j], all[i].id);
    if k < i {
      assert all[k].name == all[i].id;
      assert all[k].id != all[i].id;
    } else if forall j :: 0 <= j < i ==> all[j].name != all[i].id {
      assert k == i;
    }
  }

  /** The empty key abbreviates nothing. */
  lemma EmptyKeyFindsNothing(all: seq<Sandbox>, r: Lookup)
    requires IsLookup(all, "", r) && forall i :: 0 <= i < |all| ==> all[i].id != "" && all[i].name != ""
    ensures r == NotFound
  {
    assert forall i :: 0 <= i < |all| ==> !Exact(all[i], "") && !Abbreviates(all[i], "");
  }

  /**
    * The daemon resolves a key, takes the lock named by the resolved ID, and looks that ID up again. When an earlier
    * row has another row's ID as its name, a request for that other row so works on the earlier row, under a lock that
    * requests for the earlier row do not take.
    */
  lemma TwoLocksOneRow(all: seq<Sandbox>, i: nat, j: nat, other: Lookup, direct: Lookup)
    requires DistinctRows(all) && i < j < |all| && all[i].name == all[j].id
    requires IsLookup(all, all[j].id, other) && IsLookup(all, all[i].id, direct)
    ensures all[i].id != all[j].id && other == Found(all[i])
    ensures direct == Found(all[i]) <==> forall k :: 0 <= k < i ==> all[k].name != all[i].id
  {
    LookupById(all, i, direct);
    assert Exact(all[i], all[j].id);
    var k :| 0 <= k < |all| && Exact(all[k], all[j].id) && other == Found(all[k])
             && forall l :: 0 <= l < k ==> !Exact(all[l], all[j].id);
    assert forall l :: 0 <= l < i ==> !Exact(all[l], all[j].id);
  }

  // ----- Transactions -----

  type Table = map<string, Sandbox>

  /** Rows are kept under their ID, and names are unique. */
  ghost predicate Keyed(rows: Table) {
    && (forall id :: id in rows ==> rows[id].id == id)
    && (forall a, b :: a in rows && b in rows && a != b ==> rows[a].name != rows[b].name)
  }

  /** What the daemon asks of the record store: Create, Update with the record it has computed, and Delete. */
  datatype Write = Insert(v: Sandbox) | Replace(v: Sandbox) | Erase(id: string)

  /** One transaction; `None` is an error, which leaves the rows alone. */
  ghost function Applied(rows: Table, w: Write): Option<Table> {
    match w
    case Insert(v) =>
      if v.id in rows || (exists id :: id in rows && rows[id].name == v.name) then None else Some(rows[v.id := v])
    case Replace(v) => if v.id in rows then Some(rows[v.id := v]) else None
    case Erase(id) => Some(rows - {id})
  }
}
