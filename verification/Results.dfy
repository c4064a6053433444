/** Retention of the results of removed sandboxes (internal/daemon/results.go). Times are in nanoseconds. */
module Results {
  import opened Basics

  const RETENTION: int := 24 * 3600 * 1_000_000_000
  const MAX_RESULTS: nat := 128
  const MAX_RESULT_BYTES: nat := 256 * MIB

  datatype Saved = Saved(id: string, at: int, size: nat)

  function Total(s: seq<Saved>): nat {
    if s == [] then 0 else s[0].size + Total(s[1..])
  }

  ghost predicate Sorted(s: seq<Saved>) {
    forall i, j :: 0 <= i < j < |s| ==> s[i].at <= s[j].at
  }

  /** Every result is young enough, and together they are few and small enough. */
  ghost predicate Admissible(s: seq<Saved>, now: int) {
    && (forall i :: 0 <= i < |s| ==> now - s[i].at < RETENTION)
    && Total(s) <= MAX_RESULT_BYTES
    && |s| <= MAX_RESULTS
  }

  /** What sorting a listing by time may leave: results of the same time stand in any order. */
  ghost predicate IsSorting(listing: seq<Saved>, all: seq<Saved>) {
    Sorted(all) && multiset(all) == multiset(listing)
  }

  lemma {:induction false} TotalWithout(s: seq<Saved>, i: nat)
    requires i < |s|
    ensures Total(s) == s[i].size + Total(s[..i] + s[i + 1..])
    ensures multiset(s) == multiset(s[..i] + s[i + 1..]) + multiset{s[i]}
  {
    assert s == s[..i] + [s[i]] + s[i + 1..];
    if i == 0 {
      assert s[..0] + s[1..] == s[1..];
    } else {
      TotalWithout(s[1..], i - 1);
      assert (s[..i] + s[i + 1..])[1..] == s[1..][..i - 1] + s[1..][i..];
    }
  }

  lemma Cancel(x: multiset<Saved>, y: multiset<Saved>, e: Saved)
    requires x + multiset{e} == y + multiset{e}
    ensures x == y
  {
    assert x == (x + multiset{e}) - multiset{e} && y == (y + multiset{e}) - multiset{e};
  }

  /** Sorting does not change the total. */
  lemma {:induction false} TotalPermutes(a: seq<Saved>, b: seq<Saved>)
    requires multiset(a) == multiset(b)
    ensures Total(a) == Total(b)
  {
    if a == [] {
      assert |multiset(b)| == 0;
    } else {
      assert a[0] in multiset(b);
      var i :| 0 <= i < |b| && b[i] == a[0];
      TotalWithout(a, 0);
      TotalWithout(b, i);
      assert a[..0] + a[1..] == a[1..];
      Cancel(multiset(a[1..]), multiset(b[..i] + b[i + 1..]), a[0]);
      TotalPermutes(a[1..], b[..i] + b[i + 1..]);
    }
  }

  /** Of results in order of time, the oldest decides whether all are young enough. */
  lemma OldestDecides(all: seq<Saved>, k: nat, now: int)
    requires Sorted(all) && k < |all|
    ensures Admissible(all[k..], now) <==>
              now - all[k].at < RETENTION && Total(all[k..]) <= MAX_RESULT_BYTES && |all| - k <= MAX_RESULTS
  {
    assert all[k..][0] == all[k];
  }

  /**
    * Deletes from the oldest on, until what is left may stay; `all` is the listing in whatever order sorting leaves it.
    */
  method Prune(listing: seq<Saved>, all: seq<Saved>, now: int) returns (kept: nat)
    requires IsSorting(listing, all)
    // The rest is the longest run of newest results that is admissible.
    ensures IsPruning(all, now, kept)
  {
    var total := 0;
    for i := 0 to |listing|
      invariant total + Total(listing[i..]) == Total(listing)
    {
      total := total + listing[i].size;
      assert listing[i..][1..] == listing[i + 1..];
    }
    assert listing[|listing|..] == [] && all[0..] == all;
    TotalPermutes(listing, all);
    kept := 0;
    while kept < |all|
      invariant kept <= |all| && total == Total(all[kept..])
      invariant forall k :: 0 <= k < kept ==> !Admissible(all[k..], now)
    {
      OldestDecides(all, kept, now);
      if now - all[kept].at < RETENTION && total <= MAX_RESULT_BYTES && |all| - kept <= MAX_RESULTS {
        return;
      }
      assert all[kept..][0] == all[kept] && all[kept..][1..] == all[kept + 1..];
      total := total - all[kept].size;
      kept := kept + 1;
    }
  }

  /** `all[kept..]` is the longest admissible run of newest results. */
  ghost predicate IsPruning(all: seq<Saved>, now: int, kept: nat) {
    && kept <= |all| && Admissible(all[kept..], now)
    && forall k :: 0 <= k < kept ==> !Admissible(all[k..], now)
  }

  /** The strictly newest result comes last. */
  lemma NewestIsLast(listing: seq<Saved>, all: seq<Saved>, x: Saved)
    requires IsSorting(listing, all)
    requires x in listing && forall y :: y in listing && y != x ==> y.at < x.at
    ensures all != [] && all[|all| - 1] == x
  {
    assert x in multiset(listing) && x in multiset(all);
    var i :| 0 <= i < |all| && all[i] == x;
    var last := all[|all| - 1];
    assert last in multiset(all) && last in listing;
    assert i < |all| - 1 ==> all[i].at <= last.at;
  }

  /** A result that has just been saved survives its own pruning, if it is strictly the newest and fits by itself. */
  lemma NewestSurvives(listing: seq<Saved>, all: seq<Saved>, now: int, x: Saved, kept: nat)
    requires IsSorting(listing, all) && IsPruning(all, now, kept)
    requires x in listing && now - x.at < RETENTION && x.size <= MAX_RESULT_BYTES
    requires forall y :: y in listing && y != x ==> y.at < x.at
    ensures x in all[kept..]
  {
    NewestIsLast(listing, all, x);
    var n := |all| - 1;
    assert all[n..] == [x];
    assert Total([x]) == x.size + Total([x][1..]);
    assert Admissible(all[n..], now);
    assert all[kept..][n - kept] == x;
  }
}
