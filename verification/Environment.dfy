/** Layered environments (MergeEnv, internal/api/types.go). */
module Environment {
  import opened Basics

  /** What comes before the first equals sign, or the whole entry. */
  function Key(entry: string): string {
    if entry == "" || entry[0] == '=' then "" else [entry[0]] + Key(entry[1..])
  }

  /** An entry's key is cut at the first equals sign; an entry without one is its own key. */
  lemma {:induction false} KeyOf(k: string, v: string)
    requires '=' !in k
    ensures Key(k) == k && Key(k + "=" + v) == k
  {
    if k == "" {
      assert k + "=" + v == "=" + v;
    } else {
      KeyOf(k[1..], v);
      assert (k + "=" + v)[1..] == k[1..] + "=" + v;
      assert [k[0]] + k[1..] == k;
    }
  }

  // ----- Reference definition -----

  /** The keys in the order in which they first occur. */
  function FirstKeys(es: seq<string>): seq<string> {
    if es == [] then [] else AddKey(FirstKeys(es[..|es| - 1]), Key(es[|es| - 1]))
  }

  function AddKey(ks: seq<string>, k: string): seq<string> {
    if k in ks then ks else ks + [k]
  }

  /** The last entry for a key. */
  function Last(es: seq<string>, k: string): Option<string> {
    if es == [] then None
    else if Key(es[|es| - 1]) == k then Some(es[|es| - 1])
    else Last(es[..|es| - 1], k)
  }

  /** Each key once, where it first occurs, with the entry that comes last. */
  ghost predicate IsMerged(es: seq<string>, out: seq<string>) {
    && |out| == |FirstKeys(es)|
    && forall i :: 0 <= i < |out| ==> Last(es, FirstKeys(es)[i]) == Some(out[i])
  }

  ghost predicate Distinct(ks: seq<string>) {
    forall i, j :: 0 <= i < j < |ks| ==> ks[i] != ks[j]
  }

  lemma {:induction false} FirstKeysDistinct(es: seq<string>)
    ensures Distinct(FirstKeys(es))
    ensures forall k :: k in FirstKeys(es) <==> Last(es, k).Some?
  {
    if es != [] {
      FirstKeysDistinct(es[..|es| - 1]);
    }
  }

  lemma {:induction false} LastHasKey(es: seq<string>, k: string)
    requires Last(es, k).Some?
    ensures Key(Last(es, k).value) == k
  {
    if Key(es[|es| - 1]) != k {
      LastHasKey(es[..|es| - 1], k);
    }
  }

  // ----- MergeEnv -----

  method MergeEnv(base: seq<string>, over: seq<string>) returns (out: seq<string>)
    ensures IsMerged(base + over, out)
  {
    out := [];
    var all := base + over;
    var index: map<string, nat> := map[];
    ghost var ks := [];
    for n := 0 to |all|
      invariant ks == FirstKeys(all[..n]) && IsMerged(all[..n], out)
      invariant forall k :: k in index <==> k in ks
      invariant forall k :: k in index ==> index[k] < |ks| && ks[index[k]] == k
    {
      var entry := all[n];
      var k := Key(entry);
      assert all[..n] + [entry] == all[..n + 1];
      if k in index {
        MergeKnown(all[..n], out, entry, index[k]);
        out := out[index[k] := entry];
      } else {
        MergeNew(all[..n], out, entry);
        index := index[k := |out|];
        out := out + [entry];
      }
      ks := AddKey(ks, k);
    }
    assert all[..|all|] == all;
  }

  lemma OneMore(es: seq<string>, entry: string)
    ensures FirstKeys(es + [entry]) == AddKey(FirstKeys(es), Key(entry))
    ensures forall k :: Last(es + [entry], k) == if k == Key(entry) then Some(entry) else Last(es, k)
  {
    assert (es + [entry])[..|es|] == es;
  }

  /** An entry with a new key comes last. */
  lemma MergeNew(es: seq<string>, out: seq<string>, entry: string)
    requires IsMerged(es, out) && Key(entry) !in FirstKeys(es)
    ensures IsMerged(es + [entry], out + [entry])
    ensures FirstKeys(es + [entry]) == AddKey(FirstKeys(es), Key(entry))
  {
    OneMore(es, entry);
  }

  /** An entry with a known key takes the place of the one before. */
  lemma MergeKnown(es: seq<string>, out: seq<string>, entry: string, i: nat)
    requires IsMerged(es, out) && i < |out| && FirstKeys(es)[i] == Key(entry)
    ensures IsMerged(es + [entry], out[i := entry])
    ensures FirstKeys(es + [entry]) == AddKey(FirstKeys(es), Key(entry))
  {
    OneMore(es, entry);
    FirstKeysDistinct(es);
  }

  // ----- Normal form -----

  /** Merged entries have distinct keys, in the order of first occurrence. */
  lemma MergedKeys(es: seq<string>, out: seq<string>, i: nat)
    requires IsMerged(es, out) && i < |out|
    ensures Key(out[i]) == FirstKeys(es)[i]
  {
    LastHasKey(es, FirstKeys(es)[i]);
  }

  lemma MergedIsUnique(es: seq<string>, a: seq<string>, b: seq<string>)
    requires IsMerged(es, a) && IsMerged(es, b)
    ensures a == b
  {
    forall i | 0 <= i < |a|
      ensures a[i] == b[i]
    {
      assert Last(es, FirstKeys(es)[i]) == Some(a[i]);
    }
  }

  /** Two lists of entries that no merge can tell apart. */
  ghost predicate Alike(a: seq<string>, b: seq<string>) {
    FirstKeys(a) == FirstKeys(b) && forall k :: Last(a, k) == Last(b, k)
  }

  lemma {:induction false} DistinctFirstKeys(out: seq<string>, ks: seq<string>)
    requires |out| == |ks| && Distinct(ks) && forall i :: 0 <= i < |out| ==> Key(out[i]) == ks[i]
    ensures FirstKeys(out) == ks
    ensures forall i :: 0 <= i < |out| ==> Last(out, ks[i]) == Some(out[i])
    ensures forall k :: k !in ks ==> Last(out, k) == None
  {
    if out != [] {
      var n := |out| - 1;
      DistinctFirstKeys(out[..n], ks[..n]);
      assert ks == ks[..n] + [ks[n]];
      assert ks[n] !in ks[..n];
    }
  }

  /** A merge is like what it merges. */
  lemma MergedAlike(es: seq<string>, out: seq<string>)
    requires IsMerged(es, out)
    ensures Alike(out, es)
  {
    var ks := FirstKeys(es);
    FirstKeysDistinct(es);
    forall i | 0 <= i < |out|
      ensures Key(out[i]) == ks[i]
    {
      MergedKeys(es, out, i);
    }
    DistinctFirstKeys(out, ks);
    forall k
      ensures Last(out, k) == Last(es, k)
    {
      if k in ks {
        var i :| 0 <= i < |ks| && ks[i] == k;
        assert Last(es, ks[i]) == Some(out[i]);
      }
    }
  }

  lemma {:induction false} LastAcross(a: seq<string>, b: seq<string>, k: string)
    ensures Last(a + b, k) == if Last(b, k).Some? then Last(b, k) else Last(a, k)
  {
    if b == [] {
      assert a + b == a;
    } else {
      assert (a + b)[..|a + b| - 1] == a + b[..|b| - 1];
      LastAcross(a, b[..|b| - 1], k);
    }
  }

  function AddKeys(ks: seq<string>, more: seq<string>): seq<string> {
    if more == [] then ks else AddKey(AddKeys(ks, more[..|more| - 1]), more[|more| - 1])
  }

  lemma {:induction false} AddKeysHas(ks: seq<string>, more: seq<string>, k: string)
    ensures k in AddKeys(ks, more) <==> k in ks || k in more
  {
    if more != [] {
      AddKeysHas(ks, more[..|more| - 1], k);
      assert more == more[..|more| - 1] + [more[|more| - 1]];
    }
  }

  /** The keys of a concatenation depend on the second part only through its own keys. */
  lemma {:induction false} FirstKeysAcross(a: seq<string>, b: seq<string>)
    ensures FirstKeys(a + b) == AddKeys(FirstKeys(a), FirstKeys(b))
  {
    if b == [] {
      assert a + b == a;
    } else {
      var p, k := b[..|b| - 1], Key(b[|b| - 1]);
      assert (a + b)[..|a + b| - 1] == a + p;
      FirstKeysAcross(a, p);
      if k in FirstKeys(p) {
        AddKeysHas(FirstKeys(a), FirstKeys(p), k);
      } else {
        var ks := FirstKeys(p) + [k];
        assert ks[..|ks| - 1] == FirstKeys(p);
      }
    }
  }

  lemma AlikeAcross(a: seq<string>, a': seq<string>, b: seq<string>, b': seq<string>)
    requires Alike(a, a') && Alike(b, b')
    ensures Alike(a + b, a' + b')
  {
    FirstKeysAcross(a, b);
    FirstKeysAcross(a', b');
    forall k
      ensures Last(a + b, k) == Last(a' + b', k)
    {
      LastAcross(a, b, k);
      LastAcross(a', b', k);
    }
  }

  lemma AlikeMerged(a: seq<string>, b: seq<string>, out: seq<string>)
    requires Alike(a, b)
    ensures IsMerged(a, out) <==> IsMerged(b, out)
  {
  }

  /** Merging layer by layer, from either end, equals one merge of all layers. */
  lemma MergeIsAssociative(a: seq<string>, b: seq<string>, c: seq<string>, ab: seq<string>, bc: seq<string>,
      left: seq<string>, right: seq<string>)
    requires IsMerged(a + b, ab) && IsMerged(ab + c, left)
    requires IsMerged(b + c, bc) && IsMerged(a + bc, right)
    ensures left == right && IsMerged(a + b + c, left)
  {
    MergedAlike(a + b, ab);
    MergedAlike(b + c, bc);
    AlikeAcross(ab, a + b, c, c);
    AlikeAcross(a, a, bc, b + c);
    assert a + (b + c) == a + b + c;
    AlikeMerged(ab + c, a + b + c, left);
    AlikeMerged(a + bc, a + b + c, right);
    MergedIsUnique(a + b + c, left, right);
  }

  /** Merging a merged environment again, or with itself, changes nothing. */
  lemma MergeIsIdempotent(es: seq<string>, out: seq<string>)
    requires IsMerged(es, out)
    ensures IsMerged(out, out) && IsMerged(out + out, out)
  {
    MergedAlike(es, out);
    AlikeMerged(out, es, out);
    FirstKeysAcross(out, out);
    FirstKeysAdded(FirstKeys(out), FirstKeys(out));
    forall k
      ensures Last(out + out, k) == Last(out, k)
    {
      LastAcross(out, out, k);
    }
  }

  lemma {:induction false} FirstKeysAdded(ks: seq<string>, more: seq<string>)
    requires forall k :: k in more ==> k in ks
    ensures AddKeys(ks, more) == ks
  {
    if more != [] {
      FirstKeysAdded(ks, more[..|more| - 1]);
      assert more[|more| - 1] in more;
    }
  }
}
