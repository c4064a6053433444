/** Sums of the values of a finite map. */
module Sums {

  ghost function Sum<K>(m: map<K, nat>): nat
    decreases m.Keys
  {
    if m == map[] then 0 else
      var k :| k in m;
      m[k] + Sum(m - {k})
  }

  lemma {:induction false} SumWithout<K>(m: map<K, nat>, k: K)
    requires k in m
    ensures Sum(m) == m[k] + Sum(m - {k})
    decreases m.Keys
  {
    var p :| p in m && Sum(m) == m[p] + Sum(m - {p});
    if p != k {
      SumWithout(m - {p}, k);
      SumWithout(m - {k}, p);
      assert (m - {p}) - {k} == (m - {k}) - {p};
    }
  }

  /** Changing or adding one entry changes the sum by the difference of that entry. */
  lemma SumSet<K>(m: map<K, nat>, k: K, v: nat)
    ensures Sum(m[k := v]) == Sum(m) - (if k in m then m[k] else 0) + v
  {
    SumWithout(m[k := v], k);
    assert m[k := v] - {k} == m - {k};
    if k in m {
      SumWithout(m, k);
    } else {
      assert m - {k} == m;
    }
  }

  lemma {:induction false} SumMonotone<K>(a: map<K, nat>, b: map<K, nat>)
    requires a.Keys <= b.Keys
    requires forall k :: k in a ==> a[k] <= b[k]
    ensures Sum(a) <= Sum(b)
    decreases a.Keys
  {
    if a != map[] {
      var k :| k in a;
      SumWithout(a, k);
      SumWithout(b, k);
      SumMonotone(a - {k}, b - {k});
    }
  }

  lemma OneMore(n: nat, c: nat)
    ensures (n + 1) * c == n * c + c
  {
  }

  lemma {:induction false} SumBounded<K>(m: map<K, nat>, c: nat)
    requires forall k :: k in m ==> m[k] <= c
    ensures Sum(m) <= |m| * c
    decreases m.Keys
  {
    if m != map[] {
      var k :| k in m;
      SumWithout(m, k);
      var rest := m - {k};
      assert rest.Keys == m.Keys - {k};
      SumBounded(rest, c);
      OneMore(|rest|, c);
    }
  }

  lemma Scale(a: nat, b: nat, c: nat)
    requires a <= b
    ensures a * c <= b * c
  {
  }

  /** At most n entries of at most c each. */
  lemma SumBoundedBy<K>(m: map<K, nat>, n: nat, c: nat)
    requires |m| <= n
    requires forall k :: k in m ==> m[k] <= c
    ensures Sum(m) <= n * c
  {
    SumBounded(m, c);
    Scale(|m|, n, c);
  }

  /** Entries that are zero can be dropped. */
  lemma {:induction false} SumSupport<K>(m: map<K, nat>, keep: set<K>)
    requires forall k :: k in m && k !in keep ==> m[k] == 0
    ensures Sum(m) == Sum(map k | k in m && k in keep :: m[k])
    decreases m.Keys
  {
    if k :| k in m && k !in keep {
      SumWithout(m, k);
      SumSupport(m - {k}, keep);
      assert (map j | j in m - {k} && j in keep :: (m - {k})[j]) == (map j | j in m && j in keep :: m[j]);
    } else {
      assert (map j | j in m && j in keep :: m[j]) == m;
    }
  }

  /** Entries that are all zero sum to zero. */
  lemma SumZero<K>(m: map<K, nat>)
    requires forall k :: k in m ==> m[k] == 0
    ensures Sum(m) == 0
  {
    SumBounded(m, 0);
  }

  lemma {:induction false} SumSplits<K>(m: map<K, nat>, a: map<K, nat>, b: map<K, nat>)
    requires m.Keys == a.Keys == b.Keys && forall k :: k in m ==> m[k] == a[k] + b[k]
    ensures Sum(m) == Sum(a) + Sum(b)
    decreases |m|
  {
    if m != map[] {
      var k :| k in m;
      SumWithout(m, k);
      SumWithout(a, k);
      SumWithout(b, k);
      SumSplits(m - {k}, a - {k}, b - {k});
    } else {
      SumZero(a);
      SumZero(b);
    }
  }
}
