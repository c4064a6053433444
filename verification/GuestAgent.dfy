/** The guest agent's one application, its exec admission and its attach loop (internal/guest/agent.go). */
module GuestAgent {
  import opened Basics
  import opened JournalFrames
  import opened JournalReaders

  datatype Status = Ready | Running | Exited

  /** `launched` lists the operations for which the runtime was started; `executed` the exec IDs that were let in. */
  datatype State = State(status: Status, exit: Option<int>, op: string, execs: set<string>, launched: seq<string>,
      executed: seq<string>)

  const BOOTED := State(Ready, None, "", {}, [], [])

  datatype Answer = Done | Failed

  /** The start RPC; `starts` says whether building and starting the runtime succeeds. */
  function Start(a: State, op: string, starts: bool): (State, Answer) {
    if op == "" then (a, Failed)
    else if a.op == op then (a, Done)
    else if !a.status.Ready? then (a, Failed)
    else if !starts then (a, Failed)
    else (a.(op := op, status := Running, launched := a.launched + [op]), Done)
  }

  /** What the goroutine that waits for the application publishes at its end. */
  function Ended(a: State, code: int): State {
    a.(status := Exited, exit := Some(code))
  }

  function Exec(a: State, id: string): (State, Answer) {
    if id == "" || !a.status.Running? || id in a.execs then (a, Failed)
    else (a.(execs := a.execs + {id}, executed := a.executed + [id]), Done)
  }

  class Agent {
    var a: State

    constructor ()
      ensures a == BOOTED
    {
      a := BOOTED;
    }

    method HandleStart(op: string, starts: bool) returns (r: Answer)
      modifies this
      ensures (a, r) == Start(old(a), op, starts)
    {
      if op == "" {
        return Failed;
      }
      if a.op == op {
        return Done;
      }
      if !a.status.Ready? || !starts {
        return Failed;
      }
      a := a.(launched := a.launched + [op]);
      a := a.(op := op);
      a := a.(status := Running);
      return Done;
    }

    method HandleExec(id: string) returns (r: Answer)
      modifies this
      ensures (a, r) == Exec(old(a), id)
    {
      if id == "" || !a.status.Running? || id in a.execs {
        return Failed;
      }
      a := a.(execs := a.execs + {id});
      a := a.(executed := a.executed + [id]);
      return Done;
    }
  }

  // ----- The application, its output and the goroutine that waits for it -----

  datatype Waiter = Idle | Waiting | Waited | Drained | Published

  /**
    * `running` says that the application's process runs, `copying` that a goroutine still copies its output to the
    * journal. With a terminal the agent starts that goroutine itself; without, it belongs to the command.
    */
  datatype Job = Job(tty: bool, running: bool, copying: bool, waiter: Waiter, end: Option<End>)

  /** How the application's process ended, as Wait reports it. */
  datatype End = WithCode(code: nat) | BySignal(signal: nat) | Unclear

  function ExitCode(e: End): int {
    match e
    case WithCode(code) => code
    case BySignal(signal) => 128 + signal
    case Unclear => 125
  }

  /** `seen` is the exit status the attach loop has read; `finished` that it has sent the exit frame. */
  datatype Client = Client(reader: Reader, seen: Option<int>, finished: bool)

  /** The agent, its application, its journal and one attached client. */
  datatype Guest = Guest(agent: State, job: Job, log: Log, client: Client)

  ghost predicate GuestNext(w: Guest, w': Guest) {
    || (exists op, starts :: w' == Started(w, op, starts))
    || (exists id :: w' == w.(agent := Exec(w.agent, id).0))
    || JobStep(w, w')
    || Writes(w, w')
    || (!w.client.finished && AttachStep(w, w'))
  }

  /** A start that launches the application also starts the copying and the waiting. */
  function Started(w: Guest, op: string, starts: bool): Guest {
    var a := Start(w.agent, op, starts).0;
    w.(agent := a, job := if a.launched == w.agent.launched then w.job else Job(w.job.tty, true, true, Waiting, None))
  }

  /**
    * The process ends, the copying ends, or the waiting goroutine goes on: Wait returns once the process has ended and
    * the command's own copying too; then, with a terminal, the goroutine waits for the copying it was told of by a
    * channel; then it publishes the exit status.
    */
  ghost predicate JobStep(w: Guest, w': Guest) {
    || (w.job.running && exists e :: w' == w.(job := w.job.(running := false, end := Some(e))))
    || w' == w.(job := w.job.(copying := false))
    || (w.job.waiter.Waiting? && !w.job.running && (w.job.tty || !w.job.copying) &&
        w' == w.(job := w.job.(waiter := Waited)))
    || (w.job.waiter.Waited? && (w.job.tty ==> !w.job.copying) && w' == w.(job := w.job.(waiter := Drained)))
    || (w.job.waiter.Drained? && w.job.end.Some?
        && w' == w.(agent := Ended(w.agent, ExitCode(w.job.end.value)), job := w.job.(waiter := Published)))
  }

  /** Only the copying writes to the journal. */
  ghost predicate Writes(w: Guest, w': Guest) {
    && w.job.copying && IsLog(w'.log) && w.log.history <= w'.log.history && w.log.start <= w'.log.start
    && w' == w.(log := w'.log)
  }

  /** The loop sends what it reads, looks at the exit status, and reads again before it sends the exit frame. */
  ghost predicate AttachStep(w: Guest, w': Guest) {
    || (exists out :: Reads(w, out) && w' == w.(client := w.client.(reader := Advance(w.client.reader, out))))
    || w' == w.(client := w.client.(seen := w.agent.exit))
    || (w.client.seen.Some? && Reads(w, []) && w' == w.(client := w.client.(finished := true)))
  }

  ghost predicate Reads(w: Guest, out: seq<Frame>) {
    IsLog(w.log) && IsRead(Retained(w.log), w.client.reader.cursor, out)
  }

  ghost predicate IsGuestRun(run: seq<Guest>) {
    && |run| > 0
    && run[0] == Guest(BOOTED, Job(run[0].job.tty, false, false, Idle, None), run[0].log,
        Client(Reader(0, 0, []), None, false)) && IsLog(run[0].log)
    && forall i :: 0 <= i < |run| - 1 ==> GuestNext(run[i], run[i + 1])
  }

  // ----- Invariant -----

  ghost predicate AgentOk(a: State) {
    && (a.exit.Some? <==> a.status.Exited?)
    && (if a.status.Ready? then a.launched == [] && a.op == "" else a.launched == [a.op] && a.op != "")
    && (forall id :: id in a.executed <==> id in a.execs)
    && (forall i, j :: 0 <= i < j < |a.executed| ==> a.executed[i] != a.executed[j])
  }

  /** The exit status is published only once nothing is being copied. */
  predicate JobOk(w: Guest) {
    && (w.job.waiter.Idle? <==> w.agent.status.Ready?) && (w.job.waiter.Published? <==> w.agent.status.Exited?)
    && (w.job.copying ==> w.job.waiter.Waiting? || (w.job.waiter.Waited? && w.job.tty))
    && (w.job.end.Some? <==> !w.job.running && !w.job.waiter.Idle?) && (w.job.running ==> w.job.waiter.Waiting?)
    && (w.agent.exit.Some? ==> w.job.end.Some? && w.agent.exit.value == ExitCode(w.job.end.value))
  }

  ghost predicate ClientOk(w: Guest) {
    var r := w.client.reader;
    && Chain(w.log.history, 0, r.got) && r.origin == 0 && r.cursor == Last(0, r.got)
    && (w.client.seen.Some? ==> w.client.seen == w.agent.exit)
    && (w.client.finished ==> w.client.seen.Some? && r.cursor == |w.log.history|)
  }

  ghost predicate GuestGood(w: Guest) {
    AgentOk(w.agent) && JobOk(w) && IsLog(w.log) && ClientOk(w)
  }

  lemma AgentKept(a: State)
    requires AgentOk(a)
    ensures forall op, starts :: AgentOk(Start(a, op, starts).0)
    ensures forall id :: AgentOk(Exec(a, id).0)
    ensures a.status.Running? ==> forall code :: AgentOk(Ended(a, code))
  {
    forall id
      ensures AgentOk(Exec(a, id).0)
    {
      if Exec(a, id).1.Done? {
        assert id !in a.executed;
      }
    }
  }

  /** A read that returns nothing has nothing left to return. */
  lemma EmptyReadIsEnd(l: Log, cursor: nat)
    requires IsLog(l) && cursor <= |l.history| && IsRead(Retained(l), cursor, [])
    ensures cursor == |l.history|
  {
    RetainedAscends(l);
    EmptyRead(Retained(l), cursor);
    PastIsTail(Retained(l), cursor);
    assert |Retained(l)| > 0 ==> Retained(l)[|Retained(l)| - 1].sequence == |l.history|;
  }

  lemma AttachKept(w: Guest, w': Guest)
    requires GuestGood(w) && !w.client.finished && AttachStep(w, w')
    ensures GuestGood(w')
  {
    var r := w.client.reader;
    ChainBounded(w.log.history, 0, r.got);
    if exists out :: Reads(w, out) && w' == w.(client := w.client.(reader := Advance(r, out))) {
      var out :| Reads(w, out) && w' == w.(client := w.client.(reader := Advance(r, out)));
      ReadContinues(w.log, 0, r.got, out);
      assert out == [] ==> r.got + out == r.got;
    } else if w' != w.(client := w.client.(seen := w.agent.exit)) {
      EmptyReadIsEnd(w.log, r.cursor);
    }
  }

  lemma GuestNextGood(w: Guest, w': Guest)
    requires GuestGood(w) && GuestNext(w, w')
    ensures GuestGood(w')
  {
    AgentKept(w.agent);
    if Writes(w, w') {
      HistoryGrows(w.log.history, w'.log.history, 0, w.client.reader.got);
    } else if !w.client.finished && AttachStep(w, w') {
      AttachKept(w, w');
    }
  }

  lemma {:induction false} GuestRunGood(run: seq<Guest>, n: nat)
    requires IsGuestRun(run) && n < |run|
    ensures GuestGood(run[n])
  {
    if n > 0 {
      GuestRunGood(run, n - 1);
      GuestNextGood(run[n - 1], run[n]);
    }
  }

  // ----- What the agent promises -----

  /** However often start is replayed, and with whatever operations, the application is launched at most once. */
  lemma LaunchedAtMostOnce(run: seq<Guest>, n: nat)
    requires IsGuestRun(run) && n < |run|
    ensures |run[n].agent.launched| <= 1
    ensures run[n].agent.launched == [] <==> run[n].agent.status.Ready?
  {
    GuestRunGood(run, n);
  }

  /**
    * What start answers: a first start that succeeds launches the application, a replay of it is answered the same way,
    * and everything else is refused and changes nothing.
    */
  lemma StartAnswers(run: seq<Guest>, n: nat, op: string, starts: bool)
    requires IsGuestRun(run) && n < |run|
    ensures var a := run[n].agent;
            var (b, answer) := Start(a, op, starts);
            && (answer.Done? <==> op != "" && (op in a.launched || (a.status.Ready? && starts)))
            && (b != a <==> answer.Done? && op !in a.launched)
            && (b != a ==> b.launched == [op] && b.status.Running? && b.exit.None? && b.executed == a.executed)
  {
    GuestRunGood(run, n);
  }

  /** What exec answers: an ID is let in exactly if the application runs and the ID has not been let in before. */
  lemma ExecAnswers(run: seq<Guest>, n: nat, id: string)
    requires IsGuestRun(run) && n < |run|
    ensures var a := run[n].agent;
            var (b, answer) := Exec(a, id);
            && (answer.Done? <==> id != "" && a.status.Running? && id !in a.executed)
            && (answer.Done? ==>
                  && b.executed == a.executed + [id] && b.launched == a.launched
                  && b.status == a.status && b.exit == a.exit)
            && (answer.Failed? ==> b == a)
  {
    GuestRunGood(run, n);
  }

  /** The exit status that is published is the one with which the application's process ended. */
  lemma ExitIsTheProcesss(run: seq<Guest>, n: nat)
    requires IsGuestRun(run) && n < |run| && run[n].agent.exit.Some?
    ensures run[n].job.end.Some? && !run[n].job.running
    ensures match run[n].job.end.value
            case WithCode(code) => run[n].agent.exit.value == code
            case BySignal(signal) => run[n].agent.exit.value == 128 + signal
            case Unclear => run[n].agent.exit.value == 125
  {
    GuestRunGood(run, n);
  }

  /** No exec ID is let in twice. */
  lemma ExecutedOnce(run: seq<Guest>, n: nat, i: nat, j: nat)
    requires IsGuestRun(run) && n < |run| && i < j < |run[n].agent.executed|
    ensures run[n].agent.executed[i] != run[n].agent.executed[j]
  {
    GuestRunGood(run, n);
  }

  function Rank(s: Status): nat {
    match s case Ready => 0 case Running => 1 case Exited => 2
  }

  /**
    * The status only moves ready, running, exited, one step at a time; the exit status is there exactly once exited,
    * and stays.
    */
  lemma StatusMovesForward(run: seq<Guest>, n: nat)
    requires IsGuestRun(run) && n + 1 < |run|
    ensures var a, b := run[n].agent, run[n + 1].agent;
            && Rank(a.status) <= Rank(b.status) <= Rank(a.status) + 1
            && (a.exit.Some? <==> a.status.Exited?)
            && (a.exit.Some? ==> b.exit == a.exit)
  {
    GuestRunGood(run, n);
    assert GuestNext(run[n], run[n + 1]);
  }

  /**
    * When the exit frame is sent, all output there ever was has been accounted for: delivered, or covered by a gap
    * marker.
    */
  lemma ExitFrameComesLast(run: seq<Guest>, n: nat, number: nat) returns (i: nat)
    requires IsGuestRun(run) && n < |run| && run[n].client.finished
    requires 1 <= number <= |run[n].log.history|
    ensures run[n].agent.status.Exited? && run[n].client.seen == run[n].agent.exit
    ensures i < |run[n].client.reader.got| && Accounts(run[n].log.history, 0, run[n].client.reader.got, i, number)
  {
    GuestRunGood(run, n);
    i := ChainAccounts(run[n].log.history, 0, run[n].client.reader.got, number);
  }
}
