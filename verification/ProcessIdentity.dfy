/**
  * Process identity and Kill (internal/firecracker/vm.go).
  *
  * Every read of a file under /proc sees the host at its own moment. Between any two moments processes may exit
  * and their PIDs may be given to others.
  */
module ProcessIdentity {
  import opened Basics
  import opened ProcessText

  // ----- The host, moment by moment -----

  datatype File = Missing | Unreadable | Text(text: string)

  /** `incarnation` tells apart the processes that have the same PID at different times. */
  datatype Process = Process(incarnation: nat, stat: File, cgroup: File)

  datatype PidFile = NoPidFile | UnreadablePidFile | PidFile(pid: Option<int>)

  /** `boot` is the trimmed boot ID; `pidFile` is the jailer's record for the sandbox. */
  datatype Host = Host(boot: File, procs: map<int, Process>, pidFile: PidFile)

  type Hosts = nat -> Host

  ghost predicate Is(h: Host, pid: int, incarnation: nat) {
    pid in h.procs && h.procs[pid].incarnation == incarnation
  }

  /** A process that has a PID at two moments has had it all along: PIDs are recycled, processes are not. */
  ghost predicate Continuous(w: Hosts) {
    forall i: nat, j: nat, k: nat :: i <= j <= k ==> StaysBetween(w, i, j, k)
  }

  ghost predicate StaysBetween(w: Hosts, i: nat, j: nat, k: nat) {
    forall pid, inc :: Is(w(i), pid, inc) && Is(w(k), pid, inc) ==> Is(w(j), pid, inc)
  }

  datatype Started = Started(identity: string) | NoProcess | StartError

  function StatFile(h: Host, pid: int): File {
    if pid in h.procs then h.procs[pid].stat else Missing
  }

  function CgroupFile(h: Host, pid: int): File {
    if pid in h.procs then h.procs[pid].cgroup else Missing
  }

  /** pidStartAt: reads the boot ID at one moment and the process at the next. */
  function PidStart(w: Hosts, t: nat, pid: int): Started {
    match w(t).boot
    case Missing => NoProcess
    case Unreadable => StartError
    case Text(boot) =>
      if boot == "" || ':' in boot then StartError
      else match StatFile(w(t + 1), pid)
        case Missing => NoProcess
        case Unreadable => StartError
        case Text(stat) =>
          var ticks := StartTicks(stat);
          if ticks.None? then StartError else Started(Identity(boot, ticks.value))
  }

  datatype Owned = Yes | No | OwnError

  /** cgroupOwnedAt */
  function CgroupOwned(h: Host, pid: int, id: string): Owned {
    match CgroupFile(h, pid)
    case Missing => No
    case Unreadable => OwnError
    case Text(text) => if ListsGroup(text, id) then Yes else No
  }

  datatype Recorded = Recorded(id: string, pid: int, start: string)

  /** aliveAt: three reads. */
  predicate Alive(w: Hosts, t: nat, s: Recorded) {
    && s.pid > 1 && s.start != ""
    && PidStart(w, t, s.pid).Started?
    && Matches(PidStart(w, t, s.pid).identity, s.start)
    && CgroupOwned(w(t + 2), s.pid, s.id).Yes?
  }

  /** ownedAlive: a fourth read, of the cgroup again. */
  function OwnedAlive(w: Hosts, t: nat, s: Recorded): Owned {
    if !Alive(w, t, s) then No else CgroupOwned(w(t + 3), s.pid, s.id)
  }

  datatype Discovery = Adopted(s: Recorded) | DiscoverError

  /** Discover: eleven moments at most. */
  function Discover(w: Hosts, t: nat, s: Recorded): Discovery {
    var none := Adopted(s.(pid := 0, start := ""));
    match OwnedAlive(w, t, s)
    case OwnError => DiscoverError
    case Yes => Adopted(s)
    case No =>
      match w(t + 4).pidFile
      case NoPidFile => none
      case UnreadablePidFile => DiscoverError
      case PidFile(pid) =>
        if pid.None? || pid.value < 2 then DiscoverError
        else match PidStart(w, t + 5, pid.value)
          case NoProcess => none
          case StartError => DiscoverError
          case Started(identity) =>
            var found := s.(pid := pid.value, start := identity);
            match OwnedAlive(w, t + 7, found)
            case OwnError => DiscoverError
            case Yes => Adopted(found)
            case No => none
  }

  /** Neither a start time nor its absence can be read: a text is unreadable or is not what it should be. */
  predicate StartIsUnclear(boot: File, stat: File) {
    || boot.Unreadable?
    || (boot.Text? && (boot.text == "" || ':' in boot.text || stat.Unreadable? ||
            (stat.Text? && StartTicks(stat.text).None?)))
  }

  /** A jailer's file that is there and names no process. */
  predicate IsSpoiled(f: PidFile) {
    f.UnreadablePidFile? || (f.PidFile? && (f.pid.None? || f.pid.value < 2))
  }

  /** A process is seen in its group, and then its group cannot be read. */
  predicate IsHidden(w: Hosts, t: nat, s: Recorded) {
    Alive(w, t, s) && CgroupFile(w(t + 3), s.pid).Unreadable?
  }

  /** The recorded process is not found, and of the one in the jailer's file something that matters cannot be read. */
  ghost predicate FileIsUnclear(w: Hosts, t: nat, s: Recorded) {
    && (!Alive(w, t, s) || CgroupOwned(w(t + 3), s.pid, s.id).No?)
    && var f := w(t + 4).pidFile;
       || IsSpoiled(f)
       || (f.PidFile? && StartIsUnclear(w(t + 5).boot, StatFile(w(t + 6), f.pid.value)))
       || (f.PidFile? && exists start ::
             PidStart(w, t + 5, f.pid.value) == Started(start) &&
             IsHidden(w, t + 7, s.(pid := f.pid.value, start := start)))
  }

  /** Discover fails exactly when what it needs is there and cannot be read; what is missing is no failure. */
  lemma DiscoverFailsExactly(w: Hosts, t: nat, s: Recorded)
    ensures Discover(w, t, s).DiscoverError? <==> IsHidden(w, t, s) || FileIsUnclear(w, t, s)
  {
  }

  // ----- Kill -----

  /** SIGKILL sent at a moment through a descriptor that was opened on one incarnation of a PID. */
  datatype Signal = Signal(pid: int, incarnation: nat, at: nat)

  /** The signal reaches a process only if the descriptor's process still runs. */
  ghost predicate Delivered(w: Hosts, k: Signal) {
    Is(w(k.at), k.pid, k.incarnation)
  }

  /** Before the signal, this very process showed the identity and stood in the sandbox's group. */
  ghost predicate Identified(w: Hosts, k: Signal, s: Recorded) {
    && k.pid == s.pid
    && (exists i :: 0 <= i && i + 1 < k.at && ShowsStart(w, i, k.pid, k.incarnation, s.start))
    && (exists j :: 0 <= j < k.at && ShowsGroup(w, j, k.pid, k.incarnation, s.id))
  }

  ghost predicate ShowsStart(w: Hosts, i: nat, pid: int, incarnation: nat, start: string) {
    Is(w(i + 1), pid, incarnation) && PidStart(w, i, pid).Started? && Matches(PidStart(w, i, pid).identity, start)
  }

  ghost predicate ShowsGroup(w: Hosts, j: nat, pid: int, incarnation: nat, id: string) {
    Is(w(j), pid, incarnation) && CgroupOwned(w(j), pid, id).Yes?
  }

  /** At some moment in a span the identity was looked for and not found running in its group. */
  ghost predicate Missed(w: Hosts, from: nat, to: nat, s: Recorded) {
    exists m :: from <= m < to && (OwnedAlive(w, m, s).No? || s.pid !in w(m).procs)
  }

  /** Discover found nobody: neither the recorded process nor the one in the jailer's file was running in the group. */
  ghost predicate NothingFound(w: Hosts, t: nat, s: Recorded) {
    && OwnedAlive(w, t, s).No?
    && match w(t + 4).pidFile
       case NoPidFile => true
       case UnreadablePidFile => false
       case PidFile(pid) =>
         && pid.Some? && pid.value >= 2
         && match PidStart(w, t + 5, pid.value)
            case NoProcess => true
            case StartError => false
            case Started(identity) => OwnedAlive(w, t + 7, s.(pid := pid.value, start := identity)).No?
  }

  // ----- What a look that misses proves -----

  /**
    * A process with the recorded PID shows the recorded start time, of the given boot, and stands in the sandbox's
    * group.
    */
  predicate Runs(h: Host, boot: string, s: Recorded) {
    && s.pid > 1 && s.start != "" && s.pid in h.procs
    && h.procs[s.pid].stat.Text? && ShowsTicks(h.procs[s.pid].stat.text, boot, s.start)
    && h.procs[s.pid].cgroup.Text? && ListsGroup(h.procs[s.pid].cgroup.text, s.id)
  }

  predicate ShowsTicks(stat: string, boot: string, start: string) {
    StartTicks(stat).Some? && Matches(Identity(boot, StartTicks(stat).value), start)
  }

  /** The boot ID is there and well formed, and no file of a process is unreadable. */
  predicate Legible(h: Host) {
    BootIsLegible(h.boot) && forall pid :: pid in h.procs ==>
          !h.procs[pid].cgroup.Unreadable? && !h.procs[pid].stat.Unreadable?
  }

  predicate BootIsLegible(boot: File) {
    boot.Text? && boot.text != "" && ':' !in boot.text
  }

  ghost predicate AllLegible(w: Hosts, from: nat, to: nat) {
    forall m :: from <= m < to ==> Legible(w(m))
  }

  /** At moment `j`, no process ran that the record could mean on the boot of moment `i`. */
  ghost predicate NotThere(w: Hosts, i: nat, j: nat, s: Recorded) {
    w(i).boot.Text? && !Runs(w(j), w(i).boot.text, s)
  }

  ghost predicate Absent(w: Hosts, from: nat, to: nat, s: Recorded) {
    exists i, j :: from <= i <= j < to && NotThere(w, i, j, s)
  }

  /** A look that misses, when everything it reads is legible, missed because the process was not there. */
  lemma MissIsReal(w: Hosts, m: nat, s: Recorded)
    requires OwnedAlive(w, m, s).No?
    requires BootIsLegible(w(m).boot) && Legible(w(m + 1)) && Legible(w(m + 2)) && Legible(w(m + 3))
    ensures NotThere(w, m, m + 1, s) || NotThere(w, m, m + 2, s) || NotThere(w, m, m + 3, s)
  {
  }

  lemma MissedIsAbsent(w: Hosts, from: nat, to: nat, s: Recorded)
    requires Missed(w, from, to, s) && AllLegible(w, from, to + 3)
    ensures Absent(w, from, to + 3, s)
  {
    var m :| from <= m < to && (OwnedAlive(w, m, s).No? || s.pid !in w(m).procs);
    assert Legible(w(m)) && Legible(w(m + 1)) && Legible(w(m + 2)) && Legible(w(m + 3));
    if s.pid !in w(m).procs {
      assert NotThere(w, m, m, s);
    } else {
      MissIsReal(w, m, s);
    }
  }

  /**
    * The jailer's file names nobody, or a process that was not there, or not in the group with the start time it had
    * shown.
    */
  ghost predicate FileNamesNobody(w: Hosts, t: nat, s: Recorded) {
    match w(t + 4).pidFile
    case NoPidFile => true
    case UnreadablePidFile => false
    case PidFile(pid) =>
      && pid.Some?
      && (|| StatFile(w(t + 6), pid.value).Missing?
          || (PidStart(w, t + 5, pid.value).Started? &&
              Absent(w, t, t + 14, s.(pid := pid.value, start := PidStart(w, t + 5, pid.value).identity))))
  }

  lemma NothingIsThere(w: Hosts, t: nat, s: Recorded)
    requires NothingFound(w, t, s) && AllLegible(w, t, t + 14)
    ensures FileNamesNobody(w, t, s)
  {
    assert Legible(w(t + 5)) && Legible(w(t + 6));
    match w(t + 4).pidFile
    case NoPidFile =>
    case PidFile(pid) =>
      match PidStart(w, t + 5, pid.value) {
        case NoProcess =>
        case Started(identity) =>
          var d := s.(pid := pid.value, start := identity);
          assert OwnedAlive(w, t + 7, d).No?;
          assert Missed(w, t, t + 8, d);
          MissedIsAbsent(w, t, t + 8, d);
          AbsentLonger(w, t, t + 11, t + 14, d);
      }
  }

  lemma AbsentLonger(w: Hosts, from: nat, to: nat, later: nat, s: Recorded)
    requires Absent(w, from, to, s) && to <= later
    ensures Absent(w, from, later, s)
  {
    var i, j :| from <= i <= j < to && NotThere(w, i, j, s);
  }

  /** A process is there at every read of a look, and what can be read of it shows the recorded identity and group. */
  ghost predicate Present(w: Hosts, m: nat, s: Recorded, boot: string) {
    && s.pid > 1 && s.start != "" && boot != "" && ':' !in boot
    && s.pid in w(m + 1).procs && s.pid in w(m + 2).procs && s.pid in w(m + 3).procs
    && (w(m).boot == Text(boot) || w(m).boot.Unreadable?)
    && (w(m + 1).procs[s.pid].stat.Unreadable?
        || (w(m + 1).procs[s.pid].stat.Text? && ShowsTicks(w(m + 1).procs[s.pid].stat.text, boot, s.start)))
    && ShowsOrHides(w(m + 2).procs[s.pid].cgroup, s.id) && ShowsOrHides(w(m + 3).procs[s.pid].cgroup, s.id)
  }

  predicate ShowsOrHides(cgroup: File, id: string) {
    cgroup.Unreadable? || (cgroup.Text? && ListsGroup(cgroup.text, id))
  }

  /**
    * Exactly when the identity check takes a process that is there for gone: when the boot ID, its start time or, at
    * the first time of asking, its group cannot be read. Kill then reports success.
    */
  lemma PresentIsMissedExactly(w: Hosts, m: nat, s: Recorded, boot: string)
    requires Present(w, m, s, boot)
    ensures OwnedAlive(w, m, s).No? <==>
              w(m).boot.Unreadable? || w(m + 1).procs[s.pid].stat.Unreadable? ||
                  w(m + 2).procs[s.pid].cgroup.Unreadable?
    ensures OwnedAlive(w, m, s).Yes? ==> w(m + 3).procs[s.pid].cgroup.Text?
  {
  }

  /**
    * An instance: one VMM runs in its group all along, and only at one moment the boot ID cannot be read. Discover
    * finds the VMM, and yet the look that decides whether Kill has anything to do misses it.
    */
  lemma LiveVmmLooksDead(id: string, boot: string, f: seq<string>) returns (w: Hosts, s: Recorded)
    requires '\n' !in id && boot != "" && ':' !in boot && |f| >= 20 && forall x :: x in f ==> Plain(x)
    ensures Continuous(w) && forall m :: Is(w(m), s.pid, 1) && Runs(w(m), boot, s)
    ensures Discover(w, 0, s) == Adopted(s) && OwnedAlive(w, 11, s).No?
  {
    var stat := "2" + " (" + "fc" + ") " + (Join(f) + "\n");
    StartTicksOfStat("2", "fc", f);
    var cgroup := "0::" + Group(id) + "\n";
    UnifiedGroup(Group(id), id);
    s := Recorded(id, 2, Identity(boot, f[19]));
    w := m => Host(if m == 11 then Unreadable else Text(boot), map[2 := Process(1, Text(stat), Text(cgroup))],
        NoPidFile);
    assert CgroupOwned(w(2), 2, id).Yes?;
  }

  /**
    * Another instance, with every file legible: a VMM runs in the group all along, but neither the record nor a file of
    * the jailer names it, as after a crash between launching it and storing its PID. Discover finds nobody.
    */
  lemma UnnamedVmmIsMissed(id: string, boot: string, f: seq<string>) returns (w: Hosts, s: Recorded, d: Recorded)
    requires '\n' !in id && boot != "" && ':' !in boot && |f| >= 20 && forall x :: x in f ==> Plain(x)
    ensures Continuous(w) && forall m :: Legible(w(m)) && Is(w(m), d.pid, 1) && Runs(w(m), boot, d)
    ensures s == Recorded(d.id, 0, "") && Discover(w, 0, s) == Adopted(s) && OwnedAlive(w, 11, s).No?
  {
    var stat := "2" + " (" + "fc" + ") " + (Join(f) + "\n");
    StartTicksOfStat("2", "fc", f);
    var cgroup := "0::" + Group(id) + "\n";
    UnifiedGroup(Group(id), id);
    d := Recorded(id, 2, Identity(boot, f[19]));
    s := Recorded(id, 0, "");
    w := m => Host(Text(boot), map[2 := Process(1, Text(stat), Text(cgroup))], NoPidFile);
    assert CgroupOwned(w(2), 2, id).Yes?;
  }

  // ----- A process that shows its identity for as long as it lives -----

  /**
    * One boot, and the process shows the identity and stands in the group at every moment of a span at which it is
    * there.
    */
  ghost predicate ShowsWhileAlive(w: Hosts, from: nat, to: nat, s: Recorded, incarnation: nat, boot: string) {
    forall m :: from <= m < to ==> w(m).boot == Text(boot) && (Is(w(m), s.pid, incarnation) ==> Runs(w(m), boot, s))
  }

  ghost predicate GoneForGood(w: Hosts, from: nat, to: nat, s: Recorded) {
    forall incarnation, boot, later ::
      Is(w(from), s.pid, incarnation) && ShowsWhileAlive(w, from, to, s, incarnation, boot) && later >= to ==>
        !Is(w(later), s.pid, incarnation)
  }

  /** If such a process was there, and then not for a moment, it is gone for good. */
  lemma AbsentIsGone(w: Hosts, from: nat, to: nat, s: Recorded)
    requires Continuous(w) && Absent(w, from, to, s)
    ensures GoneForGood(w, from, to, s)
  {
    var i, j :| from <= i <= j < to && NotThere(w, i, j, s);
    forall incarnation, boot, later |
      Is(w(from), s.pid, incarnation) && ShowsWhileAlive(w, from, to, s, incarnation, boot) && later >= to
      ensures !Is(w(later), s.pid, incarnation)
    {
      assert w(i).boot == Text(boot) && !Is(w(j), s.pid, incarnation);
      assert StaysBetween(w, from, j, later);
    }
  }

  // ----- Kill finds what is there -----

  /** From `t` on, for as long as Kill looks before it signals, one process stays put. */
  ghost predicate Steady(w: Hosts, t: nat, s: Recorded, incarnation: nat) {
    && s.pid > 1 && s.start != ""
    && forall m :: t <= m <= t + 20 ==>
         ShowsStart(w, m, s.pid, incarnation, s.start) && ShowsGroup(w, m, s.pid, incarnation, s.id)
  }

  /**
    * The record lacks the PID, as after a crash between launching the VMM and storing it, but the jailer's file names
    * it.
    */
  ghost predicate OnlyInPidFile(w: Hosts, t: nat, s: Recorded, found: Recorded, incarnation: nat) {
    && s == Recorded(found.id, 0, "")
    && Steady(w, t, found, incarnation)
    && w(t + 4).pidFile == PidFile(Some(found.pid))
    && PidStart(w, t + 5, found.pid) == Started(found.start)
  }

  /** A process stays put in its group for as long as Kill looks, and the record or only the jailer's file names it. */
  ghost predicate Stays(w: Hosts, t: nat, s: Recorded, d: Recorded, incarnation: nat) {
    (s == d && Steady(w, t, d, incarnation)) || OnlyInPidFile(w, t, s, d, incarnation)
  }

  lemma NobodyIsNamed(w: Hosts, t: nat, s: Recorded)
    requires Discover(w, t, s).Adopted? && Discover(w, t, s).s.pid == 0
    ensures NothingFound(w, t, s)
  {
  }

  lemma SteadyIsOwned(w: Hosts, t: nat, m: nat, s: Recorded, incarnation: nat)
    requires Steady(w, t, s, incarnation) && t <= m && m + 3 <= t + 20
    ensures OwnedAlive(w, m, s).Yes? && Is(w(m), s.pid, incarnation)
  {
    assert ShowsStart(w, m, s.pid, incarnation, s.start);
    assert ShowsGroup(w, m, s.pid, incarnation, s.id);
    assert ShowsGroup(w, m + 2, s.pid, incarnation, s.id);
    assert ShowsGroup(w, m + 3, s.pid, incarnation, s.id);
  }

  /** What the second look proves, if the process that the descriptor holds is still there to be signalled. */
  lemma HeldProcessIsIdentified(w: Hosts, grab: nat, s: Recorded, k: Signal)
    requires Continuous(w) && k.pid == s.pid && k.at == grab + 5
    requires Is(w(grab), k.pid, k.incarnation) && OwnedAlive(w, grab + 1, s).Yes?
    requires Delivered(w, k)
    ensures Identified(w, k, s)
  {
    assert StaysBetween(w, grab, grab + 2, k.at) && StaysBetween(w, grab, grab + 4, k.at);
    assert ShowsStart(w, grab + 1, k.pid, k.incarnation, s.start);
    assert ShowsGroup(w, grab + 4, k.pid, k.incarnation, s.id);
  }

  lemma DiscoverSteady(w: Hosts, t: nat, s: Recorded, d: Recorded, incarnation: nat)
    requires Stays(w, t, s, d, incarnation)
    ensures Discover(w, t, s) == Adopted(d)
  {
    SteadyIsOwned(w, t, t, d, incarnation);
    SteadyIsOwned(w, t, t + 7, d, incarnation);
  }

  /** Looks until the process is missed or the context is done. */
  method Await(w: Hosts, from: nat, s: Recorded, deadline: nat) returns (ok: bool, next: nat)
    ensures next > from && (ok <==> !Alive(w, next - 1, s))
    ensures !Alive(w, from, s) ==> ok
    ensures !ok ==> next > deadline
  {
    next := from;
    while Alive(w, next, s)
      invariant next >= from && (next > from ==> Alive(w, from, s))
      decreases deadline - next
    {
      if next >= deadline {
        return false, next + 1;
      }
      next := next + 3;
    }
    return true, next + 1;
  }

  /** A process that stays put is found and held, at both looks. */
  lemma SteadyIsHeld(w: Hosts, t: nat, s: Recorded, d: Recorded, incarnation: nat)
    requires Stays(w, t, s, d, incarnation)
    ensures Discover(w, t, s) == Adopted(d) && Holdable(w, t + 11, d, incarnation)
  {
    DiscoverSteady(w, t, s, d, incarnation);
    SteadyIsHoldable(w, t, d, incarnation);
  }

  lemma SteadyIsHoldable(w: Hosts, t: nat, d: Recorded, incarnation: nat)
    requires Steady(w, t, d, incarnation)
    ensures Holdable(w, t + 11, d, incarnation)
  {
    SteadyIsOwned(w, t, t + 11, d, incarnation);
    SteadyIsOwned(w, t, t + 15, d, incarnation);
    SteadyIsOwned(w, t, t + 16, d, incarnation);
  }

  /** The looks before and after opening the process both find the identity. */
  ghost predicate Holdable(w: Hosts, t: nat, s: Recorded, incarnation: nat) {
    OwnedAlive(w, t, s).Yes? && Is(w(t + 4), s.pid, incarnation) && OwnedAlive(w, t + 5, s).Yes?
  }

  lemma SignalIsIdentified(w: Hosts, t: nat, s: Recorded, k: Signal)
    requires k.pid == s.pid && k.at == t + 9 && Holdable(w, t, s, k.incarnation)
    ensures Continuous(w) && Delivered(w, k) ==> Identified(w, k, s)
  {
    if Continuous(w) && Delivered(w, k) {
      HeldProcessIsIdentified(w, t + 4, s, k);
    }
  }

  lemma MissedWithin(w: Hosts, t: nat, u: nat, to: nat, next: nat, s: Recorded)
    requires t <= u && to <= next && Missed(w, u, to, s)
    ensures Missed(w, t, next, s)
  {
  }

  /** Discover settles on another identity only if it has missed the recorded one. */
  lemma DiscoverMisses(w: Hosts, t: nat, s: Recorded)
    requires Discover(w, t, s).Adopted? && Discover(w, t, s).s != s
    ensures Missed(w, t, t + 1, s)
  {
    assert OwnedAlive(w, t, s).No?;
  }

  // ----- What Kill promises -----

  datatype Outcome = Outcome(ok: bool, signal: Option<Signal>, next: nat)

  /** A signal that reaches a process reaches one that showed the recorded or discovered identity in the exact group. */
  ghost predicate SignalIsAimed(w: Hosts, t: nat, s: Recorded, o: Outcome) {
    o.signal.Some? ==>
      Discover(w, t, s).Adopted? && o.signal.value.pid > 1 &&
          (Continuous(w) && Delivered(w, o.signal.value) ==> Identified(w, o.signal.value, Discover(w, t, s).s))
  }

  /**
    * Success means that looks for the recorded and for the discovered identity missed. If all that was read was
    * legible, neither was there, nor anyone whom the jailer's file names.
    */
  ghost predicate SuccessMeansGone(w: Hosts, t: nat, s: Recorded, o: Outcome) {
    o.ok ==>
      && Discover(w, t, s).Adopted?
      && Missed(w, t, o.next, Discover(w, t, s).s) && Missed(w, t, o.next, s)
      && (AllLegible(w, t, o.next + 3) ==>
            && Absent(w, t, o.next + 3, Discover(w, t, s).s) && Absent(w, t, o.next + 3, s)
            && (Discover(w, t, s).s.pid == 0 ==> FileNamesNobody(w, t, s)))
  }

  /**
    * Killing what is not there succeeds and signals nothing; after a signal, the first look that misses it is success.
    */
  ghost predicate GoneMeansSuccess(w: Hosts, t: nat, s: Recorded, o: Outcome) {
    Discover(w, t, s).Adopted? ==>
      && (OwnedAlive(w, t + 11, Discover(w, t, s).s).No? ==> o.ok && o.signal.None?)
      && (o.signal.Some? && !Alive(w, o.signal.value.at + 1, Discover(w, t, s).s) ==> o.ok)
  }

  /** Kill fails only if a look fails, a system call fails, or the process outlives the context. */
  ghost predicate FailureHasCause(w: Hosts, t: nat, s: Recorded, o: Outcome, fails: bool, deadline: nat) {
    !o.ok ==>
      || IsHidden(w, t, s) || FileIsUnclear(w, t, s) || fails
      || OwnedAlive(w, t + 11, Discover(w, t, s).s).OwnError? || OwnedAlive(w, t + 16, Discover(w, t, s).s).OwnError?
      || (o.signal.Some? && o.next > deadline)
  }

  /** So does killing what is no longer there when it is opened, or at the second look. */
  ghost predicate LostMeansSuccess(w: Hosts, t: nat, s: Recorded, o: Outcome) {
    OwnedAlive(w, t, s).Yes? && (s.pid !in w(t + 4).procs || OwnedAlive(w, t + 5, s).No?) ==> o.ok && o.signal.None?
  }

  /** A process stays put, with one identity and in its group, for as long as Kill looks before it signals. */
  ghost predicate StaysPut(w: Hosts, t: nat, d: Recorded, incarnation: nat) {
    && d.pid > 1
    && forall m :: t <= m <= t + 20 ==>
         ShowsIdentity(w, m, d, incarnation) && ShowsGroup(w, m, d.pid, incarnation, d.id)
  }

  ghost predicate ShowsIdentity(w: Hosts, m: nat, d: Recorded, incarnation: nat) {
    Is(w(m + 1), d.pid, incarnation) && PidStart(w, m, d.pid) == Started(d.start)
  }

  /**
    * The record names the process and a look finds it so; or the look misses, and the jailer's file names the process.
    */
  ghost predicate Names(w: Hosts, t: nat, s: Recorded, d: Recorded) {
    || (s.pid == d.pid && OwnedAlive(w, t, s).Yes?)
    || (OwnedAlive(w, t, s).No? && w(t + 4).pidFile == PidFile(Some(d.pid)))
  }

  /** A process of the sandbox that stays put is signalled exactly when it is named. */
  ghost predicate NamedIsSignalled(w: Hosts, t: nat, s: Recorded, o: Outcome) {
    forall d: Recorded, incarnation :: d.id == s.id && StaysPut(w, t, d, incarnation) ==>
      && (Signals(o, d.pid) <==> Names(w, t, s, d))
      && (Signals(o, d.pid) ==> o.signal.value.incarnation == incarnation)
  }

  predicate Signals(o: Outcome, pid: int) {
    o.signal.Some? && o.signal.value.pid == pid
  }

  /**
    * After success, a process that was there when Kill began, and whose identity was recorded or discovered, is gone
    * for good, provided that it showed that identity while it lived and that all that was read was legible.
    */
  ghost predicate SuccessLasts(w: Hosts, t: nat, s: Recorded, o: Outcome) {
    o.ok && Discover(w, t, s).Adopted? && Continuous(w) && AllLegible(w, t, o.next + 3) ==>
      GoneForGood(w, t, o.next + 3, s) && GoneForGood(w, t, o.next + 3, Discover(w, t, s).s)
  }

  /** A process that stays put is signalled, whether the record or only the jailer's file names it. */
  ghost predicate SteadyIsSignalled(w: Hosts, t: nat, s: Recorded, o: Outcome) {
    forall d, incarnation :: Stays(w, t, s, d, incarnation) ==>
      o.signal.Some? && o.signal.value.pid == d.pid && o.signal.value.incarnation == incarnation
  }

  /** What happens once Discover has settled on `s`. */
  ghost predicate DidKill(w: Hosts, t: nat, s: Recorded, o: Outcome) {
    && (o.signal.Some? ==>
          o.signal.value.pid == s.pid && o.signal.value.at == t + 9 && Holdable(w, t, s, o.signal.value.incarnation))
    && o.next > t && (o.ok ==> Missed(w, t, o.next, s))
    && (OwnedAlive(w, t, s).No? ==> o.ok && o.signal.None?)
    && (o.signal.Some? && !Alive(w, t + 10, s) ==> o.ok)
  }

  ghost predicate HoldableIsSignalled(w: Hosts, t: nat, s: Recorded, o: Outcome) {
    forall incarnation :: Holdable(w, t, s, incarnation) ==> o.signal.Some? && o.signal.value.incarnation == incarnation
  }

  method KillDiscovered(w: Hosts, t: nat, s: Recorded, openFails: bool, sendFails: bool, deadline: nat)
    returns (o: Outcome)
    ensures DidKill(w, t, s, o)
    ensures !openFails && !sendFails ==> HoldableIsSignalled(w, t, s, o)
    ensures !openFails ==> LostMeansSuccess(w, t, s, o)
    ensures !o.ok ==>
              || openFails || sendFails || OwnedAlive(w, t, s).OwnError? || OwnedAlive(w, t + 5, s).OwnError?
              || (o.signal.Some? && o.next > deadline)
  {
    var owned := OwnedAlive(w, t, s);
    if !owned.Yes? {
      return Outcome(owned.No?, None, t + 4);
    }
    if s.pid !in w(t + 4).procs {
      return Outcome(true, None, t + 5);
    }
    if openFails {
      return Outcome(false, None, t + 5);
    }
    var incarnation := w(t + 4).procs[s.pid].incarnation;
    assert Is(w(t + 4), s.pid, incarnation);
    owned := OwnedAlive(w, t + 5, s);
    if !owned.Yes? {
      return Outcome(owned.No?, None, t + 9);
    }
    assert Holdable(w, t, s, incarnation);
    if sendFails {
      return Outcome(false, None, t + 9);
    }
    var ok, next := Await(w, t + 10, s, deadline);
    assert ok ==> OwnedAlive(w, next - 1, s).No?;
    return Outcome(ok, Some(Signal(s.pid, incarnation, t + 9)), next);
  }

  lemma AimsAtDiscovered(w: Hosts, t: nat, s: Recorded, o: Outcome)
    requires Discover(w, t, s).Adopted? && DidKill(w, t + 11, Discover(w, t, s).s, o)
    ensures SignalIsAimed(w, t, s, o) && GoneMeansSuccess(w, t, s, o)
  {
    if o.signal.Some? {
      SignalIsIdentified(w, t + 11, Discover(w, t, s).s, o.signal.value);
    }
  }

  lemma SuccessIsReal(w: Hosts, t: nat, s: Recorded, d: Recorded, o: Outcome)
    requires Discover(w, t, s) == Adopted(d) && Missed(w, t + 11, o.next, d) && o.next > t + 11
    ensures SuccessMeansGone(w, t, s, o)
  {
    MissedWithin(w, t, t + 11, o.next, o.next, d);
    if d != s {
      DiscoverMisses(w, t, s);
      MissedWithin(w, t, t, t + 1, o.next, s);
    }
    if AllLegible(w, t, o.next + 3) {
      MissedIsAbsent(w, t, o.next, d);
      MissedIsAbsent(w, t, o.next, s);
      if d.pid == 0 {
        NobodyIsNamed(w, t, s);
        NothingIsThere(w, t, s);
      }
    }
  }

  lemma SteadySignalled(w: Hosts, t: nat, s: Recorded, o: Outcome)
    requires Discover(w, t, s).Adopted? ==>
               DidKill(w, t + 11, Discover(w, t, s).s, o) && HoldableIsSignalled(w, t + 11, Discover(w, t, s).s, o)
    ensures SteadyIsSignalled(w, t, s, o)
  {
    forall d, incarnation | Stays(w, t, s, d, incarnation)
      ensures o.signal.Some? && o.signal.value.pid == d.pid && o.signal.value.incarnation == incarnation
    {
      SteadyIsHeld(w, t, s, d, incarnation);
    }
  }

  lemma StaysPutIsSteady(w: Hosts, t: nat, s: Recorded, d: Recorded, incarnation: nat)
    requires StaysPut(w, t, d, incarnation) && s.pid == d.pid && s.id == d.id && s.start != "" &&
             Matches(d.start, s.start)
    ensures Steady(w, t, s, incarnation)
  {
    forall m | t <= m <= t + 20
      ensures ShowsStart(w, m, s.pid, incarnation, s.start) && ShowsGroup(w, m, s.pid, incarnation, s.id)
    {
      assert ShowsIdentity(w, m, d, incarnation) && ShowsGroup(w, m, d.pid, incarnation, d.id);
    }
  }

  lemma IdentityIsNotEmpty(w: Hosts, t: nat, d: Recorded, incarnation: nat)
    requires StaysPut(w, t, d, incarnation)
    ensures d.start != ""
  {
    assert ShowsIdentity(w, t, d, incarnation);
  }

  /** Discover settles on a named process, by the identity on record or by the one it shows. */
  lemma NamedIsDiscovered(w: Hosts, t: nat, s: Recorded, d: Recorded, incarnation: nat)
    requires d.id == s.id && StaysPut(w, t, d, incarnation) && Names(w, t, s, d)
    ensures Discover(w, t, s).Adopted? && Discover(w, t, s).s.pid == d.pid &&
            Steady(w, t, Discover(w, t, s).s, incarnation)
  {
    IdentityIsNotEmpty(w, t, d, incarnation);
    assert ShowsIdentity(w, t, d, incarnation) && ShowsIdentity(w, t + 5, d, incarnation);
    if OwnedAlive(w, t, s).Yes? {
      StaysPutIsSteady(w, t, s, d, incarnation);
    } else {
      StaysPutIsSteady(w, t, d, d, incarnation);
      SteadyIsOwned(w, t, t + 7, d, incarnation);
      assert s.(pid := d.pid, start := d.start) == d;
    }
  }

  lemma DiscoveredIsNamed(w: Hosts, t: nat, s: Recorded, d: Recorded)
    requires Discover(w, t, s).Adopted? && Discover(w, t, s).s.pid == d.pid && d.pid > 1
    ensures Names(w, t, s, d)
  {
  }

  lemma SignalledExactly(w: Hosts, t: nat, s: Recorded, o: Outcome)
    requires Discover(w, t, s).Adopted? ==>
               DidKill(w, t + 11, Discover(w, t, s).s, o) && HoldableIsSignalled(w, t + 11, Discover(w, t, s).s, o)
    requires o.signal.Some? ==> Discover(w, t, s).Adopted?
    ensures NamedIsSignalled(w, t, s, o)
  {
    forall d: Recorded, incarnation | d.id == s.id && StaysPut(w, t, d, incarnation)
      ensures Signals(o, d.pid) <==> Names(w, t, s, d)
      ensures Signals(o, d.pid) ==> o.signal.value.incarnation == incarnation
    {
      if Signals(o, d.pid) {
        DiscoveredIsNamed(w, t, s, d);
      }
      if Names(w, t, s, d) {
        NamedIsDiscovered(w, t, s, d, incarnation);
        SteadyIsHoldable(w, t, Discover(w, t, s).s, incarnation);
      }
    }
  }

  lemma SuccessIsLasting(w: Hosts, t: nat, s: Recorded, o: Outcome)
    requires SuccessMeansGone(w, t, s, o)
    ensures SuccessLasts(w, t, s, o)
  {
    if o.ok && Continuous(w) && AllLegible(w, t, o.next + 3) {
      AbsentIsGone(w, t, o.next + 3, s);
      AbsentIsGone(w, t, o.next + 3, Discover(w, t, s).s);
    }
  }

  /** A process that shows its own identity shows the one that Discover settles on for it. */
  lemma ShowsDiscovered(h: Host, boot: string, d: Recorded, s: Recorded)
    requires Runs(h, boot, d) && s.pid == d.pid && s.id == d.id && s.start != "" && ':' in d.start &&
             Matches(d.start, s.start)
    ensures Runs(h, boot, s)
  {
  }

  /**
    * The exact reach of success: when Kill succeeds and the process, which showed its identity in the group all along,
    * is there afterwards, then neither the record nor the jailer's file named it.
    */
  lemma WrongSuccessIsUnnamed(w: Hosts, t: nat, s: Recorded, o: Outcome, d: Recorded, incarnation: nat, boot: string,
      later: nat)
    requires SuccessLasts(w, t, s, o) && o.ok && Continuous(w) && AllLegible(w, t, o.next + 3)
    requires d.id == s.id && StaysPut(w, t, d, incarnation) && ShowsWhileAlive(w, t, o.next + 3, d, incarnation, boot)
    requires Is(w(t), d.pid, incarnation) && later >= o.next + 3 && Is(w(later), d.pid, incarnation)
    ensures !Names(w, t, s, d)
  {
    if Names(w, t, s, d) {
      NamedIsDiscovered(w, t, s, d, incarnation);
      var found := Discover(w, t, s).s;
      NamedMatches(w, t, s, d, incarnation);
      forall m | t <= m < o.next + 3
        ensures w(m).boot == Text(boot) && (Is(w(m), found.pid, incarnation) ==> Runs(w(m), boot, found))
      {
        if Is(w(m), d.pid, incarnation) {
          ShowsDiscovered(w(m), boot, d, found);
        }
      }
      assert ShowsWhileAlive(w, t, o.next + 3, found, incarnation, boot);
      assert false;
    }
  }

  lemma NamedMatches(w: Hosts, t: nat, s: Recorded, d: Recorded, incarnation: nat)
    requires d.id == s.id && StaysPut(w, t, d, incarnation) && Names(w, t, s, d)
    ensures Discover(w, t, s).Adopted?
    ensures var found := Discover(w, t, s).s;
            found.id == d.id && found.start != "" && ':' in d.start && Matches(d.start, found.start)
  {
    NamedIsDiscovered(w, t, s, d, incarnation);
    assert ShowsIdentity(w, t, d, incarnation);
    assert ShowsStart(w, t, d.pid, incarnation, Discover(w, t, s).s.start);
  }

  /**
    * `openFails` and `sendFails` are errors of the system calls other than "no such process"; `deadline` is the moment
    * the context is done.
    */
  method Kill(w: Hosts, t: nat, s: Recorded, openFails: bool, sendFails: bool, deadline: nat) returns (o: Outcome)
    ensures SignalIsAimed(w, t, s, o)
    ensures SuccessMeansGone(w, t, s, o)
    ensures SuccessLasts(w, t, s, o)
    ensures FailureHasCause(w, t, s, o, openFails || sendFails, deadline)
    ensures GoneMeansSuccess(w, t, s, o)
    ensures !openFails && Discover(w, t, s).Adopted? ==> LostMeansSuccess(w, t + 11, Discover(w, t, s).s, o)
    ensures !openFails && !sendFails ==> SteadyIsSignalled(w, t, s, o) && NamedIsSignalled(w, t, s, o)
  {
    var discovered := Discover(w, t, s);
    DiscoverFailsExactly(w, t, s);
    if discovered.DiscoverError? {
      o := Outcome(false, None, t + 11);
      SteadySignalled(w, t, s, o);
      SignalledExactly(w, t, s, o);
      SuccessIsLasting(w, t, s, o);
      return;
    }
    o := KillDiscovered(w, t + 11, discovered.s, openFails, sendFails, deadline);
    AimsAtDiscovered(w, t, s, o);
    if o.ok {
      SuccessIsReal(w, t, s, discovered.s, o);
    }
    SuccessIsLasting(w, t, s, o);
    if !openFails && !sendFails {
      SteadySignalled(w, t, s, o);
      SignalledExactly(w, t, s, o);
    }
  }
}
