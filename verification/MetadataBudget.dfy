/** The byte budget that bounds registry metadata responses (internal/oci/metadata.go). */
module MetadataBudget {
  import opened Basics
  import opened Sums

  const MAX_RESPONSES: nat := 32

  /** A limited response body; `pending` is what a read in progress has reserved. */
  datatype Body = Body(read: nat, pending: Option<nat>)

  datatype Budget = Budget(max: int, total: int, active: nat, responses: nat, used: int, bodies: map<nat, Body>)

  function NewBudget(max: int, total: int): Budget {
    Budget(max, total, 0, 0, 0, map[])
  }

  predicate Limited(t: Budget) {
    t.active > 0
  }

  /** `length` is the announced content length, negative if unknown. */
  predicate Refused(t: Budget, length: int) {
    || t.responses + 1 > MAX_RESPONSES || t.max < 0 || t.total < 0
    || length > t.max || (length >= 0 && length > t.total - t.used)
  }

  /** A response arrives; a limited one is counted even if it is refused. */
  function RoundTrip(t: Budget, b: nat, length: int): Budget {
    if !Limited(t) then t
    else
      var u := t.(responses := t.responses + 1);
      if Refused(t, length) then u else u.(bodies := u.bodies[b := Body(0, None)])
  }

  /** How much a read of `len` bytes may take; zero or less if a limit is already passed. */
  function Allowance(t: Budget, body: Body, len: nat): int {
    var per, all := t.max - body.read, t.total - t.used;
    if per < 0 || all < 0 then 0
    else
      var a := if len > per + 1 then per + 1 else len;
      if a > all + 1 then all + 1 else a
  }

  predicate CanReserve(t: Budget, b: nat, len: nat) {
    b in t.bodies && t.bodies[b].pending.None? && len > 0 && Allowance(t, t.bodies[b], len) > 0
  }

  /** The first half of Read: reserve before the read that may block. */
  function Reserve(t: Budget, b: nat, len: nat): Budget
    requires CanReserve(t, b, len)
  {
    var a := Allowance(t, t.bodies[b], len);
    t.(used := t.used + a, bodies := t.bodies[b := t.bodies[b].(pending := Some(a))])
  }

  predicate CanSettle(t: Budget, b: nat, n: nat) {
    b in t.bodies && t.bodies[b].pending.Some? && n <= t.bodies[b].pending.value
  }

  /** The second half: refund what was not read. */
  function Settle(t: Budget, b: nat, n: nat): Budget
    requires CanSettle(t, b, n)
  {
    t.(used := t.used - (t.bodies[b].pending.value - n), bodies := t.bodies[b := Body(t.bodies[b].read + n, None)])
  }

  /** The limit error of Read. */
  predicate Over(t: Budget, b: nat)
    requires b in t.bodies
  {
    t.bodies[b].read > t.max || t.used > t.total
  }

  // ----- Every interleaving -----

  datatype Action =
    | Limit
    | Unlimit
    | Response(b: nat, length: int)
    | Begin(b: nat, len: nat)
    | End(b: nat, n: nat)

  /** One critical section; `None` if it cannot happen. Body numbers are not reused. */
  function Step(t: Budget, a: Action): Option<Budget> {
    match a
    case Limit => Some(t.(active := t.active + 1))
    case Unlimit => if t.active > 0 then Some(t.(active := t.active - 1)) else None
    case Response(b, length) => if b in t.bodies then None else Some(RoundTrip(t, b, length))
    case Begin(b, len) => if CanReserve(t, b, len) then Some(Reserve(t, b, len)) else None
    case End(b, n) => if CanSettle(t, b, n) then Some(Settle(t, b, n)) else None
  }

  function Run(t: Budget, actions: seq<Action>): Option<Budget> {
    if actions == [] then Some(t)
    else
      var p := Run(t, actions[..|actions| - 1]);
      if p.None? then None else Step(p.value, actions[|actions| - 1])
  }

  function Charge(b: Body): nat {
    b.read + if b.pending.Some? then b.pending.value else 0
  }

  function Charges(t: Budget): map<nat, nat> {
    map b | b in t.bodies :: Charge(t.bodies[b])
  }

  /**
    * What has been read plus what is reserved is what is used; no body and no total passes its limit by more than one
    * byte.
    */
  ghost predicate Conserved(t: Budget) {
    && t.used == Sum(Charges(t))
    && (t.bodies != map[] ==> t.max >= 0 && t.total >= 0)
    && (forall b :: b in t.bodies ==> Charge(t.bodies[b]) <= t.max + 1)
    && (t.total >= 0 ==> t.used <= t.total + 1)
    && t.responses >= |t.bodies|
    && |t.bodies| <= MAX_RESPONSES
  }

  lemma ChargesSet(t: Budget, b: nat, body: Body)
    ensures Charges(t.(bodies := t.bodies[b := body])) == Charges(t)[b := Charge(body)]
  {
  }

  lemma ChargesSum(t: Budget, b: nat, body: Body)
    ensures Sum(Charges(t.(bodies := t.bodies[b := body]))) ==
              Sum(Charges(t)) + Charge(body) - if b in t.bodies then Charge(t.bodies[b]) else 0
  {
    ChargesSet(t, b, body);
    SumSet(Charges(t), b, Charge(body));
  }

  lemma ResponseConserves(t: Budget, b: nat, length: int)
    requires Conserved(t) && b !in t.bodies
    ensures Conserved(RoundTrip(t, b, length))
  {
    var u := RoundTrip(t, b, length);
    if b in u.bodies {
      ChargesSum(t, b, Body(0, None));
      assert Charges(u) == Charges(t.(bodies := t.bodies[b := Body(0, None)]));
      assert u.bodies.Keys == t.bodies.Keys + {b};
    } else {
      assert Charges(u) == Charges(t);
    }
  }

  /** A new value for a body that is there, charged to what is used. */
  lemma BodyConserves(t: Budget, b: nat, body: Body, used: int)
    requires Conserved(t) && b in t.bodies && Charge(body) <= t.max + 1
    requires used == t.used + Charge(body) - Charge(t.bodies[b]) && (t.total >= 0 ==> used <= t.total + 1)
    ensures Conserved(t.(used := used, bodies := t.bodies[b := body]))
  {
    var u := t.(used := used, bodies := t.bodies[b := body]);
    ChargesSum(t, b, body);
    assert Charges(u) == Charges(t.(bodies := t.bodies[b := body]));
    assert u.bodies.Keys == t.bodies.Keys;
  }

  lemma StepConserves(t: Budget, a: Action)
    requires Conserved(t) && Step(t, a).Some?
    ensures Conserved(Step(t, a).value)
  {
    var u := Step(t, a).value;
    match a
    case Limit => assert Charges(u) == Charges(t);
    case Unlimit => assert Charges(u) == Charges(t);
    case Response(b, length) => ResponseConserves(t, b, length);
    case Begin(b, _) => BodyConserves(t, b, u.bodies[b], u.used);
    case End(b, _) => BodyConserves(t, b, u.bodies[b], u.used);
  }

  /** Over any interleaving, bytes are conserved and the limits hold. */
  lemma {:induction false} RunConserves(max: int, total: int, actions: seq<Action>)
    ensures var r := Run(NewBudget(max, total), actions);
            r.Some? ==> Conserved(r.value) && r.value.max == max && r.value.total == total
  {
    var t := NewBudget(max, total);
    if actions == [] {
      SumZero(Charges(t));
    } else {
      var p := Run(t, actions[..|actions| - 1]);
      RunConserves(max, total, actions[..|actions| - 1]);
      if p.Some? && Step(p.value, actions[|actions| - 1]).Some? {
        StepConserves(p.value, actions[|actions| - 1]);
      }
    }
  }

  function Delivered(t: Budget): map<nat, nat> {
    map b | b in t.bodies :: t.bodies[b].read
  }

  predicate Quiet(t: Budget) {
    forall b :: b in t.bodies ==> t.bodies[b].pending.None?
  }

  /** When no read is in progress, what all bodies have delivered together is exactly what is used. */
  lemma QuietBudgetIsExact(max: int, total: int, actions: seq<Action>)
    requires Run(NewBudget(max, total), actions).Some?
    requires Quiet(Run(NewBudget(max, total), actions).value)
    ensures var t := Run(NewBudget(max, total), actions).value;
            t.used == Sum(Delivered(t))
  {
    RunConserves(max, total, actions);
    var t := Run(NewBudget(max, total), actions).value;
    assert Charges(t) == Delivered(t);
  }

  // ----- Counting -----

  function Weight(a: Action): int {
    match a
    case Limit => 1
    case Unlimit => -1
    case _ => 0
  }

  /** How many more times the limit was switched on than off. */
  function Depth(actions: seq<Action>): int {
    if actions == [] then 0 else Depth(actions[..|actions| - 1]) + Weight(actions[|actions| - 1])
  }

  /** How many responses arrived while the limit was on. */
  function Arrivals(actions: seq<Action>): nat {
    if actions == [] then 0
    else
      var p := actions[..|actions| - 1];
      Arrivals(p) + if actions[|actions| - 1].Response? && Depth(p) > 0 then 1 else 0
  }

  /** The limit is on while it was switched on more often than off, and then every response counts, refused or not. */
  lemma {:induction false} RunCounts(max: int, total: int, actions: seq<Action>)
    requires Run(NewBudget(max, total), actions).Some?
    ensures var t := Run(NewBudget(max, total), actions).value;
            && (Limited(t) <==> Depth(actions) > 0) && t.active == Depth(actions)
            && t.responses == Arrivals(actions)
  {
    if actions != [] {
      RunCounts(max, total, actions[..|actions| - 1]);
    }
  }

  /**
    * Of any run: the next response is let in with a body of its own exactly if the limit is on and it is not refused;
    * if the limit is off, it is none of the budget's business.
    */
  lemma ResponseExactly(max: int, total: int, actions: seq<Action>, b: nat, length: int)
    requires Run(NewBudget(max, total), actions).Some? && b !in Run(NewBudget(max, total), actions).value.bodies
    ensures var t := Run(NewBudget(max, total), actions).value;
            var u := RoundTrip(t, b, length);
            && (b in u.bodies <==>
                  Depth(actions) > 0 && ResponseFits(t, length) && !(length >= 0 && Crowded(t, length)))
            && (Depth(actions) <= 0 ==> u == t)
            && (b in u.bodies ==> u.bodies == t.bodies[b := Body(0, None)])
            && (b !in u.bodies ==> u.bodies == t.bodies)
  {
    RunConserves(max, total, actions);
    RunCounts(max, total, actions);
    RefusedExactly(Run(NewBudget(max, total), actions).value, b, 1, length);
  }

  /** A read may take exactly what leaves its body and the total at most one byte past their limits. */
  lemma AllowanceIsMost(t: Budget, b: nat, len: nat, n: nat)
    requires CanReserve(t, b, len)
    ensures n <= Allowance(t, t.bodies[b], len) <==>
              n <= len && t.bodies[b].read + n <= t.max + 1 && t.used + n <= t.total + 1
  {
  }

  // ----- The transport -----

  class Transport {
    var t: Budget

    constructor (max: int, total: int)
      ensures t == NewBudget(max, total)
    {
      t := NewBudget(max, total);
    }

    /** A whole Read; `avail` is how many bytes the body has ready, of which it gives what it is allowed to. */
    method Read(b: nat, len: nat, avail: nat) returns (n: nat, ok: bool)
      requires b in t.bodies && t.bodies[b].pending.None?
      modifies this
      ensures len == 0 || !CanReserve(old(t), b, len) ==> t == old(t) && n == 0 && ok == (len == 0)
      ensures len > 0 && CanReserve(old(t), b, len) ==>
                && n == Min(avail, Allowance(old(t), old(t).bodies[b], len))
                && t == Settle(Reserve(old(t), b, len), b, n)
                && ok == !Over(t, b)
    {
      if len == 0 {
        return 0, true;
      }
      var a := Allowance(t, t.bodies[b], len);
      if a <= 0 {
        return 0, false;
      }
      t := Reserve(t, b, len);
      n := Min(avail, a);
      t := Settle(t, b, n);
      ok := !Over(t, b);
    }

    /**
      * Reads a whole body of `length` bytes and then its end, with no other read in progress: it fails exactly when the
      * body is longer than one may be, or when together with what was used before it is longer than all may be.
      */
    method ReadWhole(b: nat, length: nat, len: nat, avail: nat -> nat) returns (ok: bool)
      requires b in t.bodies && t.bodies[b] == Body(0, None) && len > 0
      requires 0 <= t.max
      requires forall rest :: rest > 0 ==> 0 < avail(rest) <= rest
      modifies this
      ensures ok <==> length <= t.max && old(t).used + length <= t.total
      ensures ok ==> t == Took(old(t), b, length)
      ensures t.max == old(t).max && t.total == old(t).total
    {
      var rest := length;
      var eof := false;
      ghost var was := t;
      ok := true;
      while ok && !eof
        invariant 0 <= rest <= length && t == Took(was, b, length - rest)
        invariant rest < length || eof || !ok ==>
                    (ok <==> length - rest <= t.max && was.used + (length - rest) <= t.total)
        invariant eof ==> rest == 0
        decreases rest, !eof, ok
      {
        if length - rest <= t.max && was.used + (length - rest) <= t.total {
          TookMore(was, b, length - rest, len, if rest == 0 then 0 else avail(rest));
        }
        var n;
        eof := rest == 0;
        n, ok := Read(b, len, if rest == 0 then 0 else avail(rest));
        rest := rest - n;
      }
    }
  }

  function Min(a: nat, b: int): nat
    requires b >= 0
  {
    if a < b then a else b
  }

  /** The budget once a body has delivered `n` bytes. */
  function Took(t: Budget, b: nat, n: nat): Budget {
    t.(used := t.used + n, bodies := t.bodies[b := Body(n, None)])
  }

  /** While neither limit has been passed, a read takes at least one byte and moves the budget on by what it takes. */
  lemma TookMore(was: Budget, b: nat, got: nat, len: nat, avail: nat)
    requires b in was.bodies && len > 0
    requires got <= was.max && was.used + got <= was.total
    ensures var t := Took(was, b, got);
            CanReserve(t, b, len) &&
            var n := Min(avail, Allowance(t, t.bodies[b], len));
            (avail > 0 ==> n > 0) && n <= avail && Settle(Reserve(t, b, len), b, n) == Took(was, b, got + n)
  {
  }

  // ----- Overlapping reads -----

  function Pending(t: Budget): map<nat, nat> {
    map b | b in t.bodies :: Charge(t.bodies[b]) - t.bodies[b].read
  }

  /** What is used is what was read and what is reserved. */
  lemma UsedSplits(t: Budget)
    requires Conserved(t)
    ensures t.used == Sum(Delivered(t)) + Sum(Pending(t))
    ensures Quiet(t) ==> Sum(Pending(t)) == 0
  {
    SumSplits(Charges(t), Delivered(t), Pending(t));
    if Quiet(t) {
      SumZero(Pending(t));
    }
  }

  /** The bytes that bodies have delivered are within both limits. */
  ghost predicate Fits(t: Budget, b: nat)
    requires b in t.bodies
  {
    t.bodies[b].read <= t.max && Sum(Delivered(t)) <= t.total
  }

  /** So would they be with a response of the announced length, which is not one too many. */
  ghost predicate ResponseFits(t: Budget, length: int) {
    && t.responses < MAX_RESPONSES && t.max >= 0 && t.total >= 0
    && length <= t.max && (length >= 0 ==> Sum(Delivered(t)) + length <= t.total)
  }

  /** What other reads have reserved leaves less than `more` of the total. */
  ghost predicate Crowded(t: Budget, more: nat) {
    Sum(Delivered(t)) + Sum(Pending(t)) + more > t.total
  }

  /**
    * The three places where the limit error arises: before a read, after it, and at a response. Each refuses what does
    * not fit, and refuses what fits exactly when the reservations of reads in progress crowd it out.
    */
  lemma RefusedExactly(t: Budget, b: nat, len: nat, length: int)
    requires Conserved(t)
    ensures b in t.bodies && t.bodies[b].pending.None? && len > 0 ==>
              (!CanReserve(t, b, len) <==> !Fits(t, b) || Crowded(t, 0))
    ensures b in t.bodies ==> (Over(t, b) <==> !Fits(t, b) || Crowded(t, 0))
    ensures Refused(t, length) <==> !ResponseFits(t, length) || (length >= 0 && Crowded(t, length))
  {
    UsedSplits(t);
  }

  /** A Read that begins in `t` and, if it is let in, ends in `u` reports the limit error. */
  ghost predicate ReadFails(t: Budget, b: nat, len: nat, u: Budget)
    requires b in u.bodies
  {
    !CanReserve(t, b, len) || Over(u, b)
  }

  /**
    * Of any run of responses and reads that overlap: a Read whose bytes fit when it begins and when it ends, and a
    * response that fits, fail exactly when reservations of other reads crowd them out. When no other read is in
    * progress at those moments, they do not fail.
    */
  lemma SpuriousExactly(max: int, total: int, before: seq<Action>, after: seq<Action>, b: nat, len: nat, length: int)
    requires Run(NewBudget(max, total), before).Some? && Run(NewBudget(max, total), after).Some?
    ensures var t, u := Run(NewBudget(max, total), before).value, Run(NewBudget(max, total), after).value;
            && (b in t.bodies && b in u.bodies && t.bodies[b].pending.None? && len > 0 && Fits(t, b) && Fits(u, b) ==>
                  && (ReadFails(t, b, len, u) <==> Crowded(t, 0) || Crowded(u, 0))
                  && (Quiet(t) && Quiet(u) ==> !ReadFails(t, b, len, u)))
            && (ResponseFits(t, length) ==>
                  && (Refused(t, length) <==> length >= 0 && Crowded(t, length))
                  && (Quiet(t) ==> !Refused(t, length)))
  {
    RunConserves(max, total, before);
    RunConserves(max, total, after);
    var t, u := Run(NewBudget(max, total), before).value, Run(NewBudget(max, total), after).value;
    RefusedExactly(t, b, len, length);
    RefusedExactly(u, b, len, length);
    UsedSplits(t);
    UsedSplits(u);
  }

  // Instances of each: with a total of one byte, another read's reservation refuses what fits.

  lemma RunOn(t: Budget, actions: seq<Action>, a: Action)
    ensures Run(t, actions + [a]) == if Run(t, actions).None? then None else Step(Run(t, actions).value, a)
  {
    assert (actions + [a])[..|actions|] == actions;
  }

  const TWO_EMPTY := Budget(10, 1, 1, 2, 0, map[0 := Body(0, None), 1 := Body(0, None)])

  lemma TwoEmptyBodies()
    ensures Run(NewBudget(10, 1), [Limit] + [Response(0, -1)] + [Response(1, -1)]) == Some(TWO_EMPTY)
  {
    var t := NewBudget(10, 1);
    assert Run(t, []) == Some(t);
    assert [] + [Limit] == [Limit];
    RunOn(t, [], Limit);
    RunOn(t, [Limit], Response(0, -1));
    RunOn(t, [Limit] + [Response(0, -1)], Response(1, -1));
  }

  /** A body is refused a byte, and an empty response is refused, while an empty body is being read. */
  lemma OverlapRefusesWhatFits()
    ensures var r := Run(NewBudget(10, 1), [Limit] + [Response(0, -1)] + [Response(1, -1)] + [Begin(0, 2)]);
            r.Some? && 0 in r.value.bodies && 1 in r.value.bodies && !CanReserve(r.value, 1, 1) && Refused(r.value, 0)
            && r.value.bodies[0].read == r.value.bodies[1].read == 0
  {
    TwoEmptyBodies();
    RunOn(NewBudget(10, 1), [Limit] + [Response(0, -1)] + [Response(1, -1)], Begin(0, 2));
  }

  /** A body of one byte is let in and delivers it, and then fails because an empty body is being read. */
  lemma OverlapFailsWhatWasRead()
    ensures var r := Run(NewBudget(10, 1),
            [Limit] + [Response(0, -1)] + [Response(1, -1)] + [Begin(1, 1)] + [Begin(0, 1)] + [End(1, 1)]);
            r.Some? && 0 in r.value.bodies && 1 in r.value.bodies && Over(r.value, 1) && r.value.bodies[1].read == 1 &&
                r.value.bodies[0].read == 0
  {
    TwoEmptyBodies();
    var t, s := NewBudget(10, 1), [Limit] + [Response(0, -1)] + [Response(1, -1)];
    RunOn(t, s, Begin(1, 1));
    RunOn(t, s + [Begin(1, 1)], Begin(0, 1));
    RunOn(t, s + [Begin(1, 1)] + [Begin(0, 1)], End(1, 1));
  }
}
