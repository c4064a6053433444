/** Token buckets and work slots that admit DNS queries (internal/network/dns.go). Times are in seconds. */
module DnsAdmission {
  import opened Basics
  import opened Sums

  const LOCAL_RATE: real := 256.0
  const LOCAL_BURST: real := 512.0
  const LOCAL_SLOTS: nat := 64
  const GLOBAL_RATE: real := 4096.0
  const GLOBAL_BURST: real := 8192.0
  const GLOBAL_SLOTS: nat := 256

  // ----- Token bucket -----

  datatype Bucket = Bucket(rate: real, burst: real, tokens: real, last: Option<real>)

  function NewBucket(rate: real, burst: real): Bucket {
    Bucket(rate, burst, burst, None)
  }

  /** The tokens that accrue over a span of time. */
  function Accrued(span: real, rate: real): real {
    span * rate
  }

  /** Adds what has accrued since the latest time seen; an earlier time changes nothing. */
  function Refill(b: Bucket, now: real): Bucket {
    if b.last.None? then b.(last := Some(now))
    else if now > b.last.value then
      var t := b.tokens + Accrued(now - b.last.value, b.rate);
      b.(tokens := if t > b.burst then b.burst else t, last := Some(now))
    else b
  }

  function Allow(b: Bucket, now: real): (Bucket, bool) {
    if b.rate <= 0.0 || b.burst < 1.0 then (b, false)
    else
      var r := Refill(b, now);
      if r.tokens < 1.0 then (r, false) else (r.(tokens := r.tokens - 1.0), true)
  }

  class TokenBucket {
    var b: Bucket

    constructor (rate: real, burst: real)
      ensures b == NewBucket(rate, burst)
    {
      b := NewBucket(rate, burst);
    }

    method Take(now: real) returns (ok: bool)
      modifies this
      ensures (b, ok) == Allow(old(b), now)
    {
      if b.rate <= 0.0 || b.burst < 1.0 {
        return false;
      }
      if b.last.None? {
        b := b.(last := Some(now));
      } else if now > b.last.value {
        var accrued := Accrued(now - b.last.value, b.rate);
        b := b.(tokens := b.tokens + accrued);
        if b.tokens > b.burst {
          b := b.(tokens := b.burst);
        }
        b := b.(last := Some(now));
      }
      assert b == Refill(old(b), now);
      if b.tokens < 1.0 {
        return false;
      }
      b := b.(tokens := b.tokens - 1.0);
      return true;
    }
  }

  predicate Sound(b: Bucket) {
    0.0 <= b.tokens <= b.burst
  }

  /** The latest time a bucket has seen, or the time it is about to see first. */
  function Latest(b: Bucket, first: real): real {
    if b.last.Some? then b.last.value else first
  }

  lemma AccruedPositive(span: real, rate: real)
    requires span >= 0.0 && rate >= 0.0
    ensures Accrued(span, rate) >= 0.0
  {
  }

  lemma AccruedZero(rate: real)
    ensures Accrued(0.0, rate) == 0.0
  {
  }

  /** One call: tokens stay in range, and what is admitted is paid for by tokens held and by time that has passed. */
  lemma AllowPays(b: Bucket, now: real)
    requires Sound(b) && b.rate > 0.0 && b.burst >= 1.0
    ensures var (c, ok) := Allow(b, now);
            Paid(b, Latest(b, now), c, if ok then 1 else 0)
  {
    if b.last.Some? && now > b.last.value {
      AccruedPositive(now - b.last.value, b.rate);
    }
    AccruedZero(b.rate);
  }

  /** How many of a run of calls are admitted, and the bucket they leave. */
  function AllowAll(b: Bucket, times: seq<real>): (Bucket, nat) {
    if times == [] then (b, 0)
    else
      var (c, n) := AllowAll(b, times[..|times| - 1]);
      var (d, ok) := Allow(c, times[|times| - 1]);
      (d, if ok then n + 1 else n)
  }

  /**
    * Over any run of calls, whatever the order of their times, the admitted calls number at most the burst plus the
    * rate times the advance of the latest time seen.
    */
  lemma {:induction false} RateIsBounded(b: Bucket, times: seq<real>)
    requires Sound(b) && b.rate > 0.0 && b.burst >= 1.0 && times != []
    ensures var (c, n) := AllowAll(b, times);
            && Paid(b, Latest(b, times[0]), c, n)
            && n as real <= b.burst + Accrued(c.last.value - Latest(b, times[0]), b.rate)
  {
    var m := |times| - 1;
    var before := times[..m];
    var (c, n) := AllowAll(b, before);
    if m == 0 {
      assert (c, n) == (b, 0);
      AllowPays(b, times[0]);
    } else {
      RateIsBounded(b, before);
      assert before[0] == times[0];
      PaidOn(b, Latest(b, times[0]), c, n, times[m]);
    }
  }

  /** `n` admissions that took bucket `b` to `c`, from the time `origin` on, are paid for. */
  predicate Paid(b: Bucket, origin: real, c: Bucket, n: nat) {
    && Sound(c) && c.rate == b.rate && c.burst == b.burst && c.last.Some? && origin <= c.last.value
    && n as real + c.tokens <= b.tokens + Accrued(c.last.value - origin, b.rate)
  }

  lemma PaidOn(b: Bucket, origin: real, c: Bucket, n: nat, now: real)
    requires Paid(b, origin, c, n) && b.rate > 0.0 && b.burst >= 1.0
    ensures Paid(b, origin, Allow(c, now).0, if Allow(c, now).1 then n + 1 else n)
  {
    AllowPays(c, now);
    var d := Allow(c, now).0;
    AccruedAdds(c.last.value - origin, d.last.value - c.last.value, b.rate);
    assert (c.last.value - origin) + (d.last.value - c.last.value) == d.last.value - origin;
  }

  lemma AccruedAdds(x: real, y: real, rate: real)
    ensures Accrued(x + y, rate) == Accrued(x, rate) + Accrued(y, rate)
  {
  }

  /** A disabled bucket admits nothing. */
  lemma {:induction false} DisabledAdmitsNothing(b: Bucket, times: seq<real>)
    requires b.rate <= 0.0 || b.burst < 1.0
    ensures AllowAll(b, times) == (b, 0)
  {
    if times != [] {
      DisabledAdmitsNothing(b, times[..|times| - 1]);
    }
  }

  ghost predicate KeepsToRate(times: seq<real>, rate: real) {
    forall i, j :: 0 <= i < |times| && j == i + 1 < |times| ==> Accrued(times[j] - times[i], rate) >= 1.0
  }

  /** A whole token has accrued since the last call, or was there from the start. */
  lemma AllowGranted(b: Bucket, now: real)
    requires Sound(b) && b.rate > 0.0 && b.burst >= 1.0
    requires b.last.Some? ==> b.last.value <= now
    requires b.tokens >= 1.0 || (b.last.Some? && Accrued(now - b.last.value, b.rate) >= 1.0)
    ensures var (c, ok) := Allow(b, now);
            ok && Sound(c) && c.rate == b.rate && c.burst == b.burst && c.last == Some(now)
  {
    if b.last.Some? {
      AccruedPositive(now - b.last.value, b.rate);
    }
  }

  lemma AllowSpendsOne(b: Bucket, now: real)
    requires b.rate > 0.0 && 1.0 <= b.tokens <= b.burst
    ensures var (c, ok) := Allow(b, now);
            ok && b.tokens - 1.0 <= c.tokens <= c.burst && c.rate == b.rate && c.burst == b.burst
  {
    if b.last.Some? && now > b.last.value {
      AccruedPositive(now - b.last.value, b.rate);
    }
  }

  /** A new bucket admits its whole burst, however close together and in whatever order the times are. */
  lemma {:induction false} BurstIsAdmitted(rate: real, burst: real, times: seq<real>)
    requires rate > 0.0 && |times| as real <= burst
    ensures var (c, n) := AllowAll(NewBucket(rate, burst), times);
            n == |times| && burst - n as real <= c.tokens <= c.burst == burst && c.rate == rate
  {
    if times != [] {
      var m := |times| - 1;
      BurstIsAdmitted(rate, burst, times[..m]);
      AllowSpendsOne(AllowAll(NewBucket(rate, burst), times[..m]).0, times[m]);
    }
  }

  /** Calls that keep to the rate, each at least 1/rate after the one before, are all admitted. */
  lemma {:induction false} SteadyIsNeverRefused(b: Bucket, times: seq<real>)
    requires Sound(b) && b.rate > 0.0 && b.burst >= 1.0 && b.tokens >= 1.0
    requires b.last.Some? && times != [] ==> b.last.value <= times[0]
    requires KeepsToRate(times, b.rate)
    ensures var (c, n) := AllowAll(b, times);
            && n == |times| && Sound(c) && c.rate == b.rate && c.burst == b.burst
            && (times != [] ==> c.last == Some(times[|times| - 1]))
  {
    if times != [] {
      var m := |times| - 1;
      SteadyIsNeverRefused(b, times[..m]);
      var c := AllowAll(b, times[..m]).0;
      if m == 0 {
        assert c == b;
      } else {
        Positive(times[m] - times[m - 1], b.rate);
      }
      AllowGranted(c, times[m]);
    }
  }

  lemma Positive(span: real, rate: real)
    requires rate > 0.0 && Accrued(span, rate) >= 1.0
    ensures span > 0.0
  {
    if span <= 0.0 {
      AccruedPositive(-span, rate);
      AccruedAdds(span, -span, rate);
      AccruedZero(rate);
      assert false;
    }
  }

  // ----- Work slots -----

  /**
    * One sandbox's admission: its slots in use, and how many of its calls are at each point of acquire and release.
    * `tokened` calls have passed the local bucket, `cleared` both; `placed` hold a local slot and are about to try the
    * global one; `refunding` were refused it; `working` hold both; `leaving` have given back the global one.
    */
  datatype Local = Local(bucket: Bucket, slots: nat, tokened: nat, cleared: nat, placed: nat, refunding: nat,
      working: nat, leaving: nat)

  datatype State = State(locals: map<nat, Local>, bucket: Bucket, slots: nat)

  const NEW_STATE := State(map[], NewBucket(GLOBAL_RATE, GLOBAL_BURST), 0)

  datatype Action =
    | Serve(k: nat)
    | LocalToken(k: nat, now: real)
    | GlobalToken(k: nat, now: real)
    | TakeLocal(k: nat)
    | TakeGlobal(k: nat)
    | Refund(k: nat)
    | LeaveGlobal(k: nat)
    | LeaveLocal(k: nat)

  function Set(s: State, k: nat, l: Local): State {
    s.(locals := s.locals[k := l])
  }

  /** One bucket call or channel operation; `None` if it cannot happen. Taking from an empty channel would block. */
  function Step(s: State, a: Action): Option<State> {
    if a.Serve? then
      if a.k in s.locals then None
      else Some(Set(s, a.k, Local(NewBucket(LOCAL_RATE, LOCAL_BURST), 0, 0, 0, 0, 0, 0, 0)))
    else if a.k !in s.locals then None
    else
      var l := s.locals[a.k];
      match a
      case LocalToken(k, now) =>
        var (b, ok) := Allow(l.bucket, now);
        Some(Set(s, k, l.(bucket := b, tokened := if ok then l.tokened + 1 else l.tokened)))
      case GlobalToken(k, now) =>
        if l.tokened == 0 then None
        else
          var (b, ok) := Allow(s.bucket, now);
          var cleared := if ok then l.cleared + 1 else l.cleared;
          Some(Set(s, k, l.(tokened := l.tokened - 1, cleared := cleared)).(bucket := b))
      case TakeLocal(k) =>
        if l.cleared == 0 then None
        else if l.slots < LOCAL_SLOTS
        then Some(Set(s, k, l.(cleared := l.cleared - 1, slots := l.slots + 1, placed := l.placed + 1)))
        else Some(Set(s, k, l.(cleared := l.cleared - 1)))
      case TakeGlobal(k) =>
        if l.placed == 0 then None
        else if s.slots < GLOBAL_SLOTS
        then Some(Set(s, k, l.(placed := l.placed - 1, working := l.working + 1)).(slots := s.slots + 1))
        else Some(Set(s, k, l.(placed := l.placed - 1, refunding := l.refunding + 1)))
      case Refund(k) =>
        if l.refunding == 0 || l.slots == 0 then None
        else Some(Set(s, k, l.(refunding := l.refunding - 1, slots := l.slots - 1)))
      case LeaveGlobal(k) =>
        if l.working == 0 || s.slots == 0 then None
        else Some(Set(s, k, l.(working := l.working - 1, leaving := l.leaving + 1)).(slots := s.slots - 1))
      case LeaveLocal(k) =>
        if l.leaving == 0 || l.slots == 0 then None
        else Some(Set(s, k, l.(leaving := l.leaving - 1, slots := l.slots - 1)))
  }

  function RunFrom(s: State, actions: seq<Action>): Option<State> {
    if actions == [] then Some(s)
    else
      var p := RunFrom(s, actions[..|actions| - 1]);
      if p.None? then None else Step(p.value, actions[|actions| - 1])
  }

  function Run(actions: seq<Action>): Option<State> {
    RunFrom(NEW_STATE, actions)
  }

  function Working(s: State): map<nat, nat> {
    map k | k in s.locals :: s.locals[k].working
  }

  predicate LocalOk(l: Local) {
    l.slots == l.placed + l.refunding + l.working + l.leaving && l.slots <= LOCAL_SLOTS
    && Sound(l.bucket) && l.bucket.rate == LOCAL_RATE && l.bucket.burst == LOCAL_BURST
  }

  /** Every slot in use has exactly one holder. */
  ghost predicate SlotsOk(s: State) {
    && (forall k :: k in s.locals ==> LocalOk(s.locals[k]))
    && s.slots == Sum(Working(s)) && s.slots <= GLOBAL_SLOTS
    && Sound(s.bucket) && s.bucket.rate == GLOBAL_RATE && s.bucket.burst == GLOBAL_BURST
  }

  lemma LocalKept(s: State, a: Action)
    requires SlotsOk(s) && Step(s, a).Some?
    ensures a.k in Step(s, a).value.locals && LocalOk(Step(s, a).value.locals[a.k])
  {
    if a.LocalToken? {
      AllowPays(s.locals[a.k].bucket, a.now);
    }
  }

  lemma WorkingSum(s: State, a: Action)
    requires Step(s, a).Some?
    ensures a.k in Step(s, a).value.locals
    ensures Sum(Working(Step(s, a).value)) ==
              Sum(Working(s)) - (if a.k in s.locals then s.locals[a.k].working else 0)
              + Step(s, a).value.locals[a.k].working
  {
    var t := Step(s, a).value;
    SumSet(Working(s), a.k, t.locals[a.k].working);
    assert Working(t) == Working(s)[a.k := t.locals[a.k].working];
  }

  lemma StepKeepsSlots(s: State, a: Action)
    requires SlotsOk(s) && Step(s, a).Some?
    ensures SlotsOk(Step(s, a).value)
  {
    var t := Step(s, a).value;
    LocalKept(s, a);
    WorkingSum(s, a);
    if a.GlobalToken? {
      AllowPays(s.bucket, a.now);
    }
  }

  /** Over any interleaving: 64 local and 256 global slots at most, and each in use belongs to a call that holds it. */
  lemma {:induction false} SlotsAreConserved(actions: seq<Action>)
    ensures Run(actions).Some? ==> SlotsOk(Run(actions).value)
  {
    if actions == [] {
      SumZero(Working(NEW_STATE));
    } else {
      var p := Run(actions[..|actions| - 1]);
      SlotsAreConserved(actions[..|actions| - 1]);
      if p.Some? && Step(p.value, actions[|actions| - 1]).Some? {
        StepKeepsSlots(p.value, actions[|actions| - 1]);
      }
    }
  }

  /** A call that has something to give back never waits for it. */
  lemma GivingBackNeverBlocks(actions: seq<Action>, k: nat)
    requires Run(actions).Some? && k in Run(actions).value.locals
    ensures var s := Run(actions).value;
            && (s.locals[k].refunding > 0 ==> Step(s, Refund(k)).Some?)
            && (s.locals[k].working > 0 ==> Step(s, LeaveGlobal(k)).Some?)
            && (s.locals[k].leaving > 0 ==> Step(s, LeaveLocal(k)).Some?)
  {
    SlotsAreConserved(actions);
    var s := Run(actions).value;
    SumWithout(Working(s), k);
  }

  /** When every call has returned and nobody works, every slot is free again: refused calls leak nothing. */
  lemma NothingLeaks(actions: seq<Action>)
    requires Run(actions).Some?
    requires forall k :: k in Run(actions).value.locals ==>
               var l := Run(actions).value.locals[k]; l.placed == l.refunding == l.working == l.leaving == 0
    ensures Run(actions).value.slots == 0
    ensures forall k :: k in Run(actions).value.locals ==> Run(actions).value.locals[k].slots == 0
  {
    SlotsAreConserved(actions);
    SumZero(Working(Run(actions).value));
  }

  // ----- The global rate, across sandboxes -----

  lemma {:induction false} RunSplits(s: State, a: seq<Action>, b: seq<Action>)
    requires RunFrom(s, a + b).Some?
    ensures RunFrom(s, a).Some? && RunFrom(RunFrom(s, a).value, b) == RunFrom(s, a + b)
    decreases |b|
  {
    if b == [] {
      assert a + b == a;
    } else {
      var p := b[..|b| - 1];
      assert (a + b)[..|a + b| - 1] == a + p;
      RunSplits(s, a, p);
    }
  }

  /** The times of the global bucket's calls, in order, whichever sandbox makes them. */
  function GlobalTimes(actions: seq<Action>): seq<real> {
    if actions == [] then []
    else
      var n := |actions| - 1;
      GlobalTimes(actions[..n]) + if actions[n].GlobalToken? then [actions[n].now] else []
  }

  /** How many of the global bucket's calls let a query in. */
  function GlobalAdmitted(s: State, actions: seq<Action>): nat {
    if actions == [] then 0
    else
      var n := |actions| - 1;
      var p := RunFrom(s, actions[..n]);
      var admitted := actions[n].GlobalToken? && p.Some? && Allow(p.value.bucket, actions[n].now).1;
      GlobalAdmitted(s, actions[..n]) + if admitted then 1 else 0
  }

  /** The global bucket sees exactly these calls. */
  lemma {:induction false} GlobalBucketSees(s: State, actions: seq<Action>)
    requires RunFrom(s, actions).Some?
    ensures (RunFrom(s, actions).value.bucket, GlobalAdmitted(s, actions)) == AllowAll(s.bucket, GlobalTimes(actions))
  {
    if actions != [] {
      var n := |actions| - 1;
      GlobalBucketSees(s, actions[..n]);
      if actions[n].GlobalToken? {
        var times := GlobalTimes(actions);
        assert times[..|times| - 1] == GlobalTimes(actions[..n]);
      } else {
        assert GlobalTimes(actions) == GlobalTimes(actions[..n]);
      }
    }
  }

  /** A call of some sandbox gets past the process-wide bucket. */
  ghost predicate Clears(s: State, t: State) {
    exists k :: k in s.locals && k in t.locals && t.locals[k].cleared > s.locals[k].cleared
  }

  /** A call of one sandbox gets past the sandbox's own bucket. */
  predicate Tokens(s: State, t: State, k: nat) {
    k in s.locals && k in t.locals && t.locals[k].tokened > s.locals[k].tokened
  }

  /** How many steps of a run let a query past the process-wide bucket, read off the states before and after each. */
  ghost function Cleared(s: State, actions: seq<Action>): nat {
    if actions == [] then 0
    else
      var n := |actions| - 1;
      var p, q := RunFrom(s, actions[..n]), RunFrom(s, actions);
      Cleared(s, actions[..n]) + if p.Some? && q.Some? && Clears(p.value, q.value) then 1 else 0
  }

  lemma ClearingIsAllowed(s: State, a: Action)
    requires Step(s, a).Some? && Clears(s, Step(s, a).value)
    ensures a.GlobalToken? && Allow(s.bucket, a.now).1
  {
  }

  lemma {:induction false} ClearedIsAdmitted(s: State, actions: seq<Action>)
    requires RunFrom(s, actions).Some?
    ensures Cleared(s, actions) <= GlobalAdmitted(s, actions)
  {
    if actions != [] {
      var n := |actions| - 1;
      ClearedIsAdmitted(s, actions[..n]);
      var p := RunFrom(s, actions[..n]).value;
      if Clears(p, RunFrom(s, actions).value) {
        ClearingIsAllowed(p, actions[n]);
      }
    }
  }

  lemma AdmittedIsBounded(s: State, stretch: seq<Action>, t: State)
    requires Sound(s.bucket) && s.bucket.rate == GLOBAL_RATE && s.bucket.burst == GLOBAL_BURST
    requires RunFrom(s, stretch) == Some(t) && GlobalTimes(stretch) != []
    ensures t.bucket.last.Some?
    ensures var span := t.bucket.last.value - Latest(s.bucket, GlobalTimes(stretch)[0]);
            GlobalAdmitted(s, stretch) as real <= GLOBAL_BURST + Accrued(span, GLOBAL_RATE)
  {
    GlobalBucketSees(s, stretch);
    RateIsBounded(s.bucket, GlobalTimes(stretch));
  }

  /**
    * Over any stretch of any run, all sandboxes together pass at most 8192 queries plus 4096 for each second by which
    * the latest time advances in it.
    */
  lemma GlobalRateIsBounded(before: seq<Action>, stretch: seq<Action>, s: State, t: State)
    requires Run(before) == Some(s) && Run(before + stretch) == Some(t) && GlobalTimes(stretch) != []
    ensures t.bucket.last.Some?
    ensures var span := t.bucket.last.value - Latest(s.bucket, GlobalTimes(stretch)[0]);
            Cleared(s, stretch) as real <= GLOBAL_BURST + Accrued(span, GLOBAL_RATE)
  {
    assert SlotsOk(s) by { SlotsAreConserved(before); }
    RunSplits(NEW_STATE, before, stretch);
    AdmittedIsBounded(s, stretch, t);
    ClearedIsAdmitted(s, stretch);
  }

  // ----- The rate of one sandbox -----

  function LocalTimes(actions: seq<Action>, k: nat): seq<real> {
    if actions == [] then []
    else
      var n := |actions| - 1;
      LocalTimes(actions[..n], k) + if actions[n].LocalToken? && actions[n].k == k then [actions[n].now] else []
  }

  /** How many steps of a run let a query of one sandbox past its own bucket. */
  function Tokened(s: State, actions: seq<Action>, k: nat): nat {
    if actions == [] then 0
    else
      var n := |actions| - 1;
      var p, q := RunFrom(s, actions[..n]), RunFrom(s, actions);
      Tokened(s, actions[..n], k) + if p.Some? && q.Some? && Tokens(p.value, q.value, k) then 1 else 0
  }

  /** A sandbox's bucket changes only by its own calls, each of which it sees. */
  lemma LocalBucketSteps(s: State, a: Action, k: nat)
    requires Step(s, a).Some? && k in s.locals
    ensures var t := Step(s, a).value;
            k in t.locals &&
            if a.LocalToken? && a.k == k
            then (t.locals[k].bucket, Tokens(s, t, k)) == Allow(s.locals[k].bucket, a.now)
            else t.locals[k].bucket == s.locals[k].bucket && !Tokens(s, t, k)
  {
  }

  lemma {:induction false} LocalBucketSees(s: State, actions: seq<Action>, k: nat)
    requires RunFrom(s, actions).Some? && k in s.locals
    ensures k in RunFrom(s, actions).value.locals
    ensures (RunFrom(s, actions).value.locals[k].bucket, Tokened(s, actions, k)) ==
              AllowAll(s.locals[k].bucket, LocalTimes(actions, k))
  {
    if actions != [] {
      var n := |actions| - 1;
      LocalBucketSees(s, actions[..n], k);
      LocalBucketSteps(RunFrom(s, actions[..n]).value, actions[n], k);
      var times := LocalTimes(actions, k);
      if actions[n].LocalToken? && actions[n].k == k {
        assert times[..|times| - 1] == LocalTimes(actions[..n], k);
      } else {
        assert times == LocalTimes(actions[..n], k);
      }
    }
  }

  lemma LocalStretchIsBounded(s: State, stretch: seq<Action>, t: State, k: nat)
    requires k in s.locals && LocalOk(s.locals[k])
    requires RunFrom(s, stretch) == Some(t) && LocalTimes(stretch, k) != []
    ensures k in t.locals && t.locals[k].bucket.last.Some?
    ensures var span := t.locals[k].bucket.last.value - Latest(s.locals[k].bucket, LocalTimes(stretch, k)[0]);
            Tokened(s, stretch, k) as real <= LOCAL_BURST + Accrued(span, LOCAL_RATE)
  {
    LocalBucketSees(s, stretch, k);
    RateIsBounded(s.locals[k].bucket, LocalTimes(stretch, k));
  }

  /** So does each sandbox, with 512 queries and 256 for each second. */
  lemma LocalRateIsBounded(before: seq<Action>, stretch: seq<Action>, s: State, t: State, k: nat)
    requires Run(before) == Some(s) && Run(before + stretch) == Some(t) && k in s.locals && LocalTimes(stretch, k) != []
    ensures k in t.locals && t.locals[k].bucket.last.Some?
    ensures var span := t.locals[k].bucket.last.value - Latest(s.locals[k].bucket, LocalTimes(stretch, k)[0]);
            Tokened(s, stretch, k) as real <= LOCAL_BURST + Accrued(span, LOCAL_RATE)
  {
    assert SlotsOk(s) by { SlotsAreConserved(before); }
    RunSplits(NEW_STATE, before, stretch);
    LocalStretchIsBounded(s, stretch, t, k);
  }

  // ----- One call of acquire, and its release -----

  /** A call that is let in: both buckets allow it and both kinds of slot are free. */
  predicate LetsIn(s: State, k: nat, now: real)
    requires k in s.locals
  {
    && Allow(s.locals[k].bucket, now).1 && Allow(s.bucket, now).1
    && s.locals[k].slots < LOCAL_SLOTS && s.slots < GLOBAL_SLOTS
  }

  /** The steps of one call of acquire that nothing interferes with. */
  function Acquire(s: State, k: nat, now: real): State
    requires k in s.locals
  {
    var s1 := Step(s, LocalToken(k, now)).value;
    if !Tokens(s, s1, k) then s1
    else
      var s2 := Step(s1, GlobalToken(k, now)).value;
      if s2.locals[k].cleared == s1.locals[k].cleared then s2
      else
        var s3 := Step(s2, TakeLocal(k)).value;
        if s3.locals[k].placed == s2.locals[k].placed then s3
        else
          var s4 := Step(s3, TakeGlobal(k)).value;
          if s4.locals[k].working > s3.locals[k].working then s4 else Step(s4, Refund(k)).value
  }

  /** acquire takes one slot of each kind exactly if the call is let in, and otherwise none. */
  lemma AcquireExactly(s: State, k: nat, now: real)
    requires k in s.locals
    ensures var t := Acquire(s, k, now);
            var l, m := s.locals[k], t.locals[k];
            var got := if LetsIn(s, k, now) then 1 else 0;
            && t.slots == s.slots + got && m.slots == l.slots + got && m.working == l.working + got
            && m.tokened == l.tokened && m.cleared == l.cleared && m.placed == l.placed
            && m.refunding == l.refunding && m.leaving == l.leaving
            && t.locals == s.locals[k := m]
  {
  }

  /** Releasing gives both slots back. */
  lemma ReleaseGivesBack(s: State, k: nat)
    requires k in s.locals && s.locals[k].working > 0 && s.slots > 0 && s.locals[k].slots > 0
    ensures var s1 := Step(s, LeaveGlobal(k));
            s1.Some? &&
            var t := Step(s1.value, LeaveLocal(k));
            && t.Some? && t.value.slots == s.slots - 1
            && t.value.locals ==
                 s.locals[k := s.locals[k].(working := s.locals[k].working - 1, slots := s.locals[k].slots - 1)]
  {
  }
}
