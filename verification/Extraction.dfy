/** What extracting an archive does to a tree of files that need not be empty (internal/filecopy/copy.go). */
module Extraction {
  import opened Basics
  import opened Paths
  import opened Archive

  predicate IsFile(fs: Files, p: seq<string>) {
    p in fs && fs[p].Regular?
  }

  /** A file stands where a folder is needed on the way to a path, or at it. */
  ghost predicate Blocked(fs: Files, p: seq<string>) {
    exists i :: 0 < i <= |p| && IsFile(fs, p[..i])
  }

  /** A path on the way to another, or that path itself. */
  predicate OnTheWay(q: seq<string>, p: seq<string>) {
    q != [] && q <= p
  }

  /** Folders are added on the way to a path, and nothing else changes. */
  ghost predicate AddsFolders(fs: Files, p: seq<string>, g: Files) {
    && (forall q :: q in g <==> q in fs || OnTheWay(q, p))
    && (forall q :: q in g ==> g[q] == if q in fs then fs[q] else Folder)
    && (forall q :: q in g && OnTheWay(q, p) ==> g[q].Folder?)
  }

  // ----- mkdir -----

  lemma BlockedAbove(fs: Files, p: seq<string>)
    requires p != []
    ensures Blocked(fs, p) <==> Blocked(fs, p[..|p| - 1]) || IsFile(fs, p)
  {
    var up := p[..|p| - 1];
    assert forall i :: 0 < i <= |up| ==> up[..i] == p[..i];
    assert p[..|p|] == p;
    if Blocked(fs, up) {
      var i :| 0 < i <= |up| && IsFile(fs, up[..i]);
      assert IsFile(fs, p[..i]);
    }
    if IsFile(fs, p) {
      assert IsFile(fs, p[..|p|]);
    }
    if Blocked(fs, p) {
      var i :| 0 < i <= |p| && IsFile(fs, p[..i]);
      if i < |p| {
        assert IsFile(fs, up[..i]);
      }
    }
  }

  lemma OnTheWayUp(q: seq<string>, p: seq<string>)
    requires p != []
    ensures OnTheWay(q, p) <==> OnTheWay(q, p[..|p| - 1]) || q == p
  {
    if OnTheWay(q, p) && q != p {
      assert q == p[..|q|] == p[..|p| - 1][..|q|];
    }
  }

  /** mkdir fails exactly when a file is in the way, and otherwise adds exactly the folders that are missing. */
  lemma {:induction false} MakeFoldersExactly(fs: Files, p: seq<string>)
    ensures MakeFolders(fs, p).None? <==> Blocked(fs, p)
    ensures MakeFolders(fs, p).Some? ==> AddsFolders(fs, p, MakeFolders(fs, p).value)
  {
    if p != [] {
      var up := p[..|p| - 1];
      MakeFoldersExactly(fs, up);
      BlockedAbove(fs, p);
      forall q
        ensures OnTheWay(q, p) <==> OnTheWay(q, up) || q == p
      {
        OnTheWayUp(q, p);
      }
    }
  }

  // ----- One file -----

  /** A file is put at a path, with the folders above it. */
  ghost predicate PutsFile(fs: Files, p: seq<string>, data: string, g: Files) {
    && p != [] && p in g && g[p] == Regular(data)
    && (forall q :: q in g <==> q in fs || OnTheWay(q, p))
    && (forall q :: q in g && q != p ==> g[q] == if q in fs then fs[q] else Folder)
    && (forall q :: q in g && q != p && OnTheWay(q, p) ==> g[q].Folder?)
  }

  /** A file that is there is overwritten; a folder in its place, or a file on the way, is an error. */
  lemma PutFileExactly(fs: Files, p: seq<string>, data: string)
    ensures PutFile(fs, p, data).None? <==> p == [] || Blocked(fs, p[..|p| - 1]) || (p in fs && fs[p].Folder?)
    ensures PutFile(fs, p, data).Some? ==> PutsFile(fs, p, data, PutFile(fs, p, data).value)
  {
    if p != [] {
      MakeFoldersExactly(fs, p[..|p| - 1]);
      assert !OnTheWay(p, p[..|p| - 1]);
      forall q
        ensures OnTheWay(q, p) <==> OnTheWay(q, p[..|p| - 1]) || q == p
      {
        OnTheWayUp(q, p);
      }
    }
  }

  // ----- Where a member goes -----

  lemma {:induction false} GoAcross<T(!new)>(x: T, a: seq<string>, b: seq<string>, up: T -> T, down: (T, string) -> T)
    ensures Go(x, a + b, up, down) == Go(Go(x, a, up, down), b, up, down)
  {
    if b == [] {
      assert a + b == a;
    } else {
      assert (a + b)[..|a + b| - 1] == a + b[..|b| - 1];
      GoAcross(x, a, b[..|b| - 1], up, down);
    }
  }

  lemma {:induction false} GoVisible<T(!new)>(x: T, parts: seq<string>, up: T -> T, down: (T, string) -> T)
    ensures Go(x, Visible(parts), up, down) == Go(x, parts, up, down)
  {
    if parts != [] {
      var p, last := parts[..|parts| - 1], parts[|parts| - 1];
      GoVisible(x, p, up, down);
      assert (Visible(p) + [last])[..|Visible(p)|] == Visible(p);
    }
  }

  /** A member goes where its name leads from the destination, in every tree whose root is its own parent. */
  lemma TargetMeaning<T(!new)>(dest: string, name: string, root: T, up: T -> T, down: (T, string) -> T)
    requires IsTree(up, down) && up(root) == root && Target(dest, name).Some?
    ensures Go(root, Target(dest, name).value, up, down) ==
              Go(Go(root, Split(dest), up, down), Split(name), up, down)
  {
    var n := PathClean(name);
    CleanKeepsMeaning(name, Go(root, Split(dest), up, down), up, down);
    CleanKeepsMeaning(dest + "/" + n, root, up, down);
    SplitAcross(dest, n);
    GoAcross(root, Split(dest), Split(n), up, down);
    GoVisible(root, Split(PathJoin(dest, n)), up, down);
  }

  // ----- One member -----

  /** What is needed as a folder for a member at `p`. */
  predicate NeedsFolder(q: seq<string>, p: seq<string>, dir: bool) {
    OnTheWay(q, p) && (dir || q != p)
  }

  ghost predicate Obstructed(fs: Files, p: seq<string>, dir: bool) {
    if dir then Blocked(fs, p) else p == [] || Blocked(fs, p[..|p| - 1]) || (p in fs && fs[p].Folder?)
  }

  ghost predicate Takes(fs: Files, p: seq<string>, e: Entry, g: Files) {
    if e.dir then AddsFolders(fs, p, g) else PutsFile(fs, p, e.data, g)
  }

  /**
    * A member fails exactly when there are too many, its name is unsafe, its data is too much, or something is in its
    * way.
    */
  lemma ExtractOneExactly(r: Reading, dest: string, e: Entry)
    ensures ExtractOne(r, dest, e).None? <==>
              || r.count >= 10000 || Clean(e.name).None? || Rooted(e.name)
              || (!e.dir && r.total + |e.data| > 512 * MIB)
              || Obstructed(r.fs, Target(dest, e.name).value, e.dir)
    ensures ExtractOne(r, dest, e).Some? ==>
              var s := ExtractOne(r, dest, e).value;
              && s.count == r.count + 1 && s.total == (if e.dir then r.total else r.total + |e.data|)
              && Takes(r.fs, Target(dest, e.name).value, e, s.fs)
  {
    var p := Target(dest, e.name);
    if p.Some? {
      MakeFoldersExactly(r.fs, p.value);
      PutFileExactly(r.fs, p.value, e.data);
    }
  }

  // ----- All members -----

  function TargetOfEntry(dest: string, e: Entry): seq<string> {
    if Target(dest, e.name).Some? then Target(dest, e.name).value else []
  }

  lemma OneStep(r: Reading, dest: string, es: seq<Entry>, g: Reading) returns (s: Reading)
    requires es != [] && ExtractAll(r, dest, es) == Some(g)
    ensures ExtractOne(r, dest, es[0]) == Some(s) && ExtractAll(s, dest, es[1..]) == Some(g)
  {
    s := ExtractOne(r, dest, es[0]).value;
  }

  predicate SameKind(fs: Files, g: Files, q: seq<string>) {
    q in fs ==> q in g && g[q].Folder? == fs[q].Folder?
  }

  lemma OneKeepsKind(r: Reading, dest: string, e: Entry, s: Reading, q: seq<string>)
    requires ExtractOne(r, dest, e) == Some(s)
    ensures SameKind(r.fs, s.fs, q)
  {
    ExtractOneExactly(r, dest, e);
  }

  /** No folder turns into a file, and no file into a folder. */
  lemma {:induction false} KindsStay(r: Reading, dest: string, es: seq<Entry>, g: Reading, q: seq<string>)
    requires ExtractAll(r, dest, es) == Some(g)
    ensures SameKind(r.fs, g.fs, q)
    decreases |es|
  {
    if es != [] {
      var s := OneStep(r, dest, es, g);
      OneKeepsKind(r, dest, es[0], s, q);
      KindsStay(s, dest, es[1..], g, q);
    }
  }

  lemma OneMakesFolder(r: Reading, dest: string, e: Entry, s: Reading, q: seq<string>)
    requires ExtractOne(r, dest, e) == Some(s) && NeedsFolder(q, TargetOfEntry(dest, e), e.dir)
    ensures q in s.fs && s.fs[q].Folder?
  {
    ExtractOneExactly(r, dest, e);
  }

  /** Each folder member, and everything on the way to a member, is a folder. */
  lemma {:induction false} FoldersAreThere(
    r: Reading, dest: string, es: seq<Entry>, g: Reading, i: nat, p: seq<string>, q: seq<string>
  )
    requires ExtractAll(r, dest, es) == Some(g)
    requires i < |es| && p == TargetOfEntry(dest, es[i]) && NeedsFolder(q, p, es[i].dir)
    ensures q in g.fs && g.fs[q].Folder?
    decreases i
  {
    var s := OneStep(r, dest, es, g);
    var rest := es[1..];
    if i == 0 {
      OneMakesFolder(r, dest, es[0], s, q);
      KindsStay(s, dest, rest, g, q);
    } else {
      assert rest[i - 1] == es[i];
      FoldersAreThere(s, dest, rest, g, i - 1, p, q);
    }
  }

  /** A member touches a path: it is put there, or a folder is needed there. */
  predicate Touches(dest: string, e: Entry, q: seq<string>) {
    var p := TargetOfEntry(dest, e);
    (!e.dir && q == p) || NeedsFolder(q, p, e.dir)
  }

  predicate SameAt(fs: Files, g: Files, q: seq<string>) {
    (q in g <==> q in fs) && (q in g ==> g[q] == fs[q])
  }

  lemma OneSpares(r: Reading, dest: string, e: Entry, s: Reading, q: seq<string>)
    requires ExtractOne(r, dest, e) == Some(s) && !Touches(dest, e, q)
    ensures SameAt(r.fs, s.fs, q)
  {
    ExtractOneExactly(r, dest, e);
  }

  /** Every other path is as it was. */
  lemma {:induction false} OthersStay(r: Reading, dest: string, es: seq<Entry>, g: Reading, q: seq<string>)
    requires ExtractAll(r, dest, es) == Some(g) && forall i :: 0 <= i < |es| ==> !Touches(dest, es[i], q)
    ensures SameAt(r.fs, g.fs, q)
    decreases |es|
  {
    if es != [] {
      var s := OneStep(r, dest, es, g);
      OneSpares(r, dest, es[0], s, q);
      OthersStay(s, dest, es[1..], g, q);
    }
  }

  /** A file that no later member is put at is not touched by one: it would have to be a folder. */
  lemma FileIsSpared(r: Reading, dest: string, es: seq<Entry>, g: Reading, p: seq<string>)
    requires ExtractAll(r, dest, es) == Some(g) && IsFile(r.fs, p)
    requires forall j :: 0 <= j < |es| && !es[j].dir ==> TargetOfEntry(dest, es[j]) != p
    ensures SameAt(r.fs, g.fs, p)
  {
    KindsStay(r, dest, es, g, p);
    forall j | 0 <= j < |es|
      ensures !Touches(dest, es[j], p)
    {
      if NeedsFolder(p, TargetOfEntry(dest, es[j]), es[j].dir) {
        FoldersAreThere(r, dest, es, g, j, TargetOfEntry(dest, es[j]), p);
      }
    }
    OthersStay(r, dest, es, g, p);
  }

  /** The last member that is put at a place decides what is there. */
  lemma {:induction false} LastMemberDecides(r: Reading, dest: string, es: seq<Entry>, g: Reading, i: nat)
    requires ExtractAll(r, dest, es) == Some(g) && i < |es| && !es[i].dir
    requires forall j :: i < j < |es| && !es[j].dir ==> TargetOfEntry(dest, es[j]) != TargetOfEntry(dest, es[i])
    ensures var p := TargetOfEntry(dest, es[i]);
            p in g.fs && g.fs[p] == Regular(es[i].data)
    decreases |es|
  {
    var s := OneStep(r, dest, es, g);
    if i > 0 {
      LastMemberDecides(s, dest, es[1..], g, i - 1);
    } else {
      ExtractOneExactly(r, dest, es[0]);
      FileIsSpared(s, dest, es[1..], g, TargetOfEntry(dest, es[0]));
    }
  }
}
