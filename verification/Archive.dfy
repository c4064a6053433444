/** Copying trees of files through an archive (internal/filecopy/copy.go). */
module Archive {
  import opened Basics
  import opened Paths

  const MAX_BYTES: nat := 512 * MIB
  const MAX_ENTRIES: nat := 10000
  const STREAM_SLACK: nat := 16 * MIB
  const BLOCK: nat := 512

  datatype Tree = File(data: string) | Dir(children: seq<Child>)
  datatype Child = Child(name: string, tree: Tree)

  /** Directory entries have proper names, all different. */
  ghost predicate WellNamed(t: Tree)
    decreases t, 1
  {
    t.Dir? ==> AllWellNamed(t.children)
  }

  ghost predicate AllWellNamed(cs: seq<Child>)
    decreases cs, 0
  {
    && (forall i :: 0 <= i < |cs| ==> IsName(cs[i].name) && WellNamed(cs[i].tree))
    && (forall i, j :: 0 <= i < j < |cs| ==> cs[i].name != cs[j].name)
  }

  /** One archive member: a header, and the data of a regular file. */
  datatype Entry = Entry(name: string, dir: bool, data: string)

  /** What walking a tree writes: each object before what is below it. */
  function Entries(t: Tree, at: seq<string>): seq<Entry>
    decreases t, 1
  {
    match t
    case File(data) => [Entry(PathOf(at), false, data)]
    case Dir(children) => [Entry(PathOf(at), true, "")] + AllEntries(children, at)
  }

  function AllEntries(cs: seq<Child>, at: seq<string>): seq<Entry>
    decreases cs, 0
  {
    if cs == [] then [] else Entries(cs[0].tree, at + [cs[0].name]) + AllEntries(cs[1..], at)
  }

  function Bytes(es: seq<Entry>): nat {
    if es == [] then 0 else |es[0].data| + Bytes(es[1..])
  }

  lemma {:induction false} BytesAcross(a: seq<Entry>, b: seq<Entry>)
    ensures Bytes(a + b) == Bytes(a) + Bytes(b)
  {
    if a == [] {
      assert a + b == b;
    } else {
      assert (a + b)[1..] == a[1..] + b;
      BytesAcross(a[1..], b);
    }
  }

  // ----- Writing -----

  /** The walk's counters and what it has written. */
  datatype Writing = Writing(count: nat, total: nat, out: seq<Entry>)

  ghost predicate Fits(w: Writing, more: seq<Entry>) {
    w.count + |more| <= MAX_ENTRIES && w.total + Bytes(more) <= MAX_BYTES
  }

  function Wrote(w: Writing, more: seq<Entry>): Writing {
    Writing(w.count + |more|, w.total + Bytes(more), w.out + more)
  }

  lemma WroteTwice(w: Writing, a: seq<Entry>, b: seq<Entry>)
    ensures Wrote(Wrote(w, a), b) == Wrote(w, a + b)
    ensures Fits(w, a + b) <==> Fits(w, a) && Fits(Wrote(w, a), b)
  {
    BytesAcross(a, b);
    assert w.out + a + b == w.out + (a + b);
  }

  /** Walks a tree; it fails exactly when the objects or the bytes become too many. */
  method Walk(t: Tree, at: seq<string>, w: Writing) returns (ok: bool, w': Writing)
    requires w.count <= MAX_ENTRIES && w.total <= MAX_BYTES
    ensures ok <==> Fits(w, Entries(t, at))
    ensures ok ==> w' == Wrote(w, Entries(t, at))
    decreases t, 1
  {
    w' := w.(count := w.count + 1);
    if w'.count > MAX_ENTRIES {
      return false, w';
    }
    match t
    case File(data) =>
      var e := Entry(PathOf(at), false, data);
      w' := w'.(out := w'.out + [e]);
      assert Bytes([e]) == |data|;
      if |data| > MAX_BYTES - w'.total {
        return false, w';
      }
      w' := w'.(total := w'.total + |data|);
      return true, w';
    case Dir(children) =>
      var e := Entry(PathOf(at), true, "");
      w' := w'.(out := w'.out + [e]);
      assert Bytes([e]) == 0;
      assert w' == Wrote(w, [e]);
      WroteTwice(w, [e], AllEntries(children, at));
      ok, w' := WalkAll(children, at, w');
  }

  method WalkAll(cs: seq<Child>, at: seq<string>, w: Writing) returns (ok: bool, w': Writing)
    requires w.count <= MAX_ENTRIES && w.total <= MAX_BYTES
    ensures ok <==> Fits(w, AllEntries(cs, at))
    ensures ok ==> w' == Wrote(w, AllEntries(cs, at))
    decreases cs, 0
  {
    if cs == [] {
      assert w.out + [] == w.out;
      return true, w;
    }
    WroteTwice(w, Entries(cs[0].tree, at + [cs[0].name]), AllEntries(cs[1..], at));
    ok, w' := Walk(cs[0].tree, at + [cs[0].name], w);
    if ok {
      ok, w' := WalkAll(cs[1..], at, w');
    }
  }

  method ArchiveTree(t: Tree, at: seq<string>) returns (ok: bool, out: seq<Entry>)
    ensures ok <==> |Entries(t, at)| <= MAX_ENTRIES && Bytes(Entries(t, at)) <= MAX_BYTES
    ensures ok ==> out == Entries(t, at)
  {
    var w;
    ok, w := Walk(t, at, Writing(0, 0, []));
    out := w.out;
    assert [] + Entries(t, at) == Entries(t, at);
  }

  // ----- The stream -----

  /** Data is padded to whole blocks. */
  function Padded(n: nat): nat {
    (n + BLOCK - 1) / BLOCK * BLOCK
  }

  /** The length of the stream with one header block to an entry and two blocks at the end. */
  function StreamSize(es: seq<Entry>): nat {
    if es == [] then 2 * BLOCK else BLOCK + Padded(|es[0].data|) + StreamSize(es[1..])
  }

  lemma {:induction false} StreamBounded(es: seq<Entry>)
    ensures StreamSize(es) <= 2 * BLOCK + |es| * (2 * BLOCK - 1) + Bytes(es)
  {
    if es != [] {
      StreamBounded(es[1..]);
    }
  }

  /** Whatever the walk accepts is within the limit at which extract gives up on the stream. */
  lemma AcceptedStreamFits(es: seq<Entry>)
    requires |es| <= MAX_ENTRIES && Bytes(es) <= MAX_BYTES
    ensures StreamSize(es) <= MAX_BYTES + STREAM_SLACK
  {
    StreamBounded(es);
  }

  // ----- Reading -----

  datatype Node = Folder | Regular(data: string)

  type Files = map<seq<string>, Node>

  const EMPTY_ROOT: Files := map[[] := Folder]

  /** mkdir: every missing folder on the way is made; a file on the way is an error. */
  function MakeFolders(fs: Files, p: seq<string>): Option<Files> {
    if p == [] then Some(fs)
    else
      var up := MakeFolders(fs, p[..|p| - 1]);
      if up.None? then None
      else if p !in up.value then Some(up.value[p := Folder])
      else if up.value[p].Folder? then up
      else None
  }

  method Mkdir(fs: Files, p: seq<string>) returns (r: Option<Files>)
    ensures r == MakeFolders(fs, p)
  {
    r := Some(fs);
    for i := 0 to |p|
      invariant r.Some? && r == MakeFolders(fs, p[..i])
    {
      var here := p[..i + 1];
      assert here[..|here| - 1] == p[..i];
      if here !in r.value {
        r := Some(r.value[here := Folder]);
      } else if !r.value[here].Folder? {
        FailsBelow(fs, p, i + 1);
        return None;
      }
    }
    assert p[..|p|] == p;
  }

  lemma {:induction false} FailsBelow(fs: Files, p: seq<string>, i: nat)
    requires i <= |p| && MakeFolders(fs, p[..i]).None?
    ensures MakeFolders(fs, p).None?
    decreases |p|
  {
    if i < |p| {
      var q := p[..|p| - 1];
      assert q[..i] == p[..i];
      FailsBelow(fs, q, i);
    } else {
      assert p[..i] == p;
    }
  }

  /** open with O_CREAT and O_TRUNC, then the data. */
  function PutFile(fs: Files, p: seq<string>, data: string): Option<Files> {
    if p == [] then None
    else
      var up := MakeFolders(fs, p[..|p| - 1]);
      if up.None? || (p in up.value && up.value[p].Folder?) then None else Some(up.value[p := Regular(data)])
  }

  datatype Reading = Reading(fs: Files, count: nat, total: nat)

  /** Where a member goes, if its name is safe; `dest` is clean. */
  function Target(dest: string, name: string): Option<seq<string>> {
    var n := Clean(name);
    if n.None? || Rooted(name) then None else Some(Walked(PathJoin(dest, n.value)))
  }

  /** The files once a member is put at its place. */
  function Put(fs: Files, p: seq<string>, e: Entry): Option<Files> {
    if e.dir then MakeFolders(fs, p) else PutFile(fs, p, e.data)
  }

  function Counted(r: Reading, fs: Option<Files>, e: Entry): Option<Reading> {
    if fs.None? then None else Some(Reading(fs.value, r.count + 1, if e.dir then r.total else r.total + |e.data|))
  }

  function ExtractOne(r: Reading, dest: string, e: Entry): Option<Reading> {
    var p := Target(dest, e.name);
    if r.count + 1 > MAX_ENTRIES || p.None? || (!e.dir && |e.data| > MAX_BYTES - r.total) then None
    else Counted(r, Put(r.fs, p.value, e), e)
  }

  function ExtractAll(r: Reading, dest: string, es: seq<Entry>): Option<Reading>
    decreases |es|
  {
    if es == [] then Some(r)
    else
      var s := ExtractOne(r, dest, es[0]);
      if s.None? then None else ExtractAll(s.value, dest, es[1..])
  }

  method Extract(fs: Files, dest: string, es: seq<Entry>) returns (r: Option<Files>)
    ensures Clean(dest).None? ==> r.None?
    ensures Clean(dest).Some? ==>
              var all := ExtractAll(Reading(fs, 0, 0), Clean(dest).value, es);
              r == if all.None? || StreamSize(es) > MAX_BYTES + STREAM_SLACK then None else Some(all.value.fs)
  {
    var d := Clean(dest);
    if d.None? {
      return None;
    }
    var s := Reading(fs, 0, 0);
    for i := 0 to |es|
      invariant ExtractAll(Reading(fs, 0, 0), d.value, es) == ExtractAll(s, d.value, es[i..])
    {
      assert es[i..][0] == es[i] && es[i..][1..] == es[i + 1..];
      var next := ExtractOne(s, d.value, es[i]);
      if next.None? {
        return None;
      }
      s := next.value;
    }
    if StreamSize(es) > MAX_BYTES + STREAM_SLACK {
      return None;
    }
    return Some(s.fs);
  }

  // ----- Round trip -----

  /** The files a tree stands for when it is put at a path. */
  ghost function Spread(t: Tree, at: seq<string>): Files
    decreases t, 1
  {
    match t
    case File(data) => map[at := Regular(data)]
    case Dir(children) => map[at := Folder] + SpreadAll(children, at)
  }

  ghost function SpreadAll(cs: seq<Child>, at: seq<string>): Files
    decreases cs, 0
  {
    if cs == [] then map[] else Spread(cs[0].tree, at + [cs[0].name]) + SpreadAll(cs[1..], at)
  }

  ghost predicate FolderAt(fs: Files, p: seq<string>) {
    forall i :: 0 < i <= |p| ==> p[..i] in fs && fs[p[..i]].Folder?
  }

  /** A tree can be put here: the folders above exist, and nothing is in the way but perhaps the folder itself. */
  ghost predicate Ready(fs: Files, at: seq<string>, t: Tree) {
    && (at != [] ==> FolderAt(fs, at[..|at| - 1]))
    && (forall p :: p in fs && at <= p ==> p == at && t.Dir? && fs[p].Folder?)
  }

  /** Children can be put here: the folder exists, and none of their names is taken. */
  ghost predicate ReadyAll(fs: Files, at: seq<string>, cs: seq<Child>) {
    && FolderAt(fs, at)
    && forall i, p :: 0 <= i < |cs| && p in fs ==> !(at + [cs[i].name] <= p)
  }

  lemma {:induction false} FoldersExist(fs: Files, p: seq<string>)
    requires FolderAt(fs, p)
    ensures MakeFolders(fs, p) == Some(fs)
  {
    if p != [] {
      var q := p[..|p| - 1];
      assert forall i :: 0 < i <= |q| ==> q[..i] == p[..i];
      FoldersExist(fs, q);
      assert p[..|p|] == p;
    }
  }

  lemma {:induction false} SpreadBelow(t: Tree, at: seq<string>)
    ensures forall p :: p in Spread(t, at) ==> at <= p
    decreases t, 1
  {
    if t.Dir? {
      SpreadAllBelow(t.children, at);
    }
  }

  lemma {:induction false} SpreadAllBelow(cs: seq<Child>, at: seq<string>)
    ensures forall p :: p in SpreadAll(cs, at) ==> at <= p
    decreases cs, 0
  {
    if cs != [] {
      var here := at + [cs[0].name];
      SpreadBelow(cs[0].tree, here);
      SpreadAllBelow(cs[1..], at);
      forall p | p in SpreadAll(cs, at)
        ensures at <= p
      {
        assert SpreadAll(cs, at) == Spread(cs[0].tree, here) + SpreadAll(cs[1..], at);
        if p !in SpreadAll(cs[1..], at) {
          assert here <= p;
          assert at == here[..|at|] == p[..|at|];
        }
      }
    }
  }

  /** Putting one child leaves room for the others. */
  lemma RoomForTheRest(fs: Files, at: seq<string>, cs: seq<Child>)
    requires cs != [] && AllWellNamed(cs) && ReadyAll(fs, at, cs)
    ensures ReadyAll(fs + Spread(cs[0].tree, at + [cs[0].name]), at, cs[1..])
  {
    var here := at + [cs[0].name];
    var more := Spread(cs[0].tree, here);
    var fs' := fs + more;
    SpreadBelow(cs[0].tree, here);
    forall i | 0 < i <= |at|
      ensures at[..i] in fs' && fs'[at[..i]].Folder?
    {
      assert at[..i] !in more;
    }
    forall i, p | 0 <= i < |cs[1..]| && p in fs'
      ensures !(at + [cs[1..][i].name] <= p)
    {
      if p in more {
        assert p[|at|] == cs[0].name;
        assert cs[0].name != cs[i + 1].name;
      } else {
        assert !(at + [cs[i + 1].name] <= p);
      }
    }
  }

  lemma ReadyChild(fs: Files, at: seq<string>, cs: seq<Child>)
    requires cs != [] && ReadyAll(fs, at, cs)
    ensures Ready(fs, at + [cs[0].name], cs[0].tree)
  {
    var here := at + [cs[0].name];
    assert here[..|here| - 1] == at;
  }

  ghost predicate Allowed(r: Reading, es: seq<Entry>) {
    r.count + |es| <= MAX_ENTRIES && r.total + Bytes(es) <= MAX_BYTES
  }

  function Advanced(r: Reading, more: Files, es: seq<Entry>): Reading {
    Reading(r.fs + more, r.count + |es|, r.total + Bytes(es))
  }

  lemma AdvancedTwice(r: Reading, m: Files, a: seq<Entry>, n: Files, b: seq<Entry>)
    ensures Advanced(Advanced(r, m, a), n, b) == Advanced(r, m + n, a + b)
    ensures Allowed(r, a + b) ==> Allowed(r, a) && Allowed(Advanced(r, m, a), b)
  {
    BytesAcross(a, b);
    assert (r.fs + m) + n == r.fs + (m + n);
  }

  /** The name that the walk writes leads extract back to the same place. */
  lemma TargetOf(dest: seq<string>, at: seq<string>)
    requires AreNames(dest) && AreNames(at)
    ensures Target(PathOf(dest), PathOf(at)) == Some(dest + at)
  {
    CleanPathOf(at);
    JoinPathsOf(dest, at);
    SplitPathOf(at);
  }

  lemma BytesOfOne(e: Entry)
    ensures Bytes([e]) == |e.data|
  {
    assert [e][1..] == [];
  }

  lemma CountedOne(r: Reading, more: Files, e: Entry)
    requires e.dir ==> e.data == ""
    ensures Counted(r, Some(r.fs + more), e) == Some(Advanced(r, more, [e]))
  {
    BytesOfOne(e);
  }

  lemma FilePut(fs: Files, p: seq<string>, data: string)
    requires p != [] && FolderAt(fs, p[..|p| - 1]) && p !in fs
    ensures PutFile(fs, p, data) == Some(fs + map[p := Regular(data)])
  {
    FoldersExist(fs, p[..|p| - 1]);
    assert fs[p := Regular(data)] == fs + map[p := Regular(data)];
  }

  function NodeOf(t: Tree): Node {
    if t.Dir? then Folder else Regular(t.data)
  }

  /** The first member of a tree, taken alone. */
  lemma ExtractHead(r: Reading, dest: seq<string>, t: Tree, at: seq<string>)
    requires AreNames(dest) && AreNames(at) && [] in r.fs && (t.File? ==> dest + at != [])
    requires Ready(r.fs, dest + at, t) && r.count < MAX_ENTRIES &&
             r.total + (if t.File? then |t.data| else 0) <= MAX_BYTES
    ensures ExtractOne(r, PathOf(dest), Entries(t, at)[0]) ==
              Some(Advanced(r, map[dest + at := NodeOf(t)], [Entries(t, at)[0]]))
  {
    var p := dest + at;
    assert p <= p;
    if t.Dir? {
      FolderMade(r.fs, p);
    } else {
      FilePut(r.fs, p, t.data);
    }
    CountedOne(r, map[p := NodeOf(t)], Entries(t, at)[0]);
    TargetOf(dest, at);
  }

  lemma FolderMade(fs: Files, p: seq<string>)
    requires p != [] ==> FolderAt(fs, p[..|p| - 1])
    requires p in fs ==> fs[p].Folder?
    requires p == [] ==> p in fs
    ensures MakeFolders(fs, p) == Some(fs + map[p := Folder])
  {
    assert p in fs ==> fs + map[p := Folder] == fs;
    if p != [] {
      FoldersExist(fs, p[..|p| - 1]);
      assert fs[p := Folder] == fs + map[p := Folder];
    }
  }

  /** Extracting what was written for a tree puts the tree there, and goes on with the rest of the archive. */
  lemma {:induction false} ExtractTree(r: Reading, dest: seq<string>, t: Tree, at: seq<string>, rest: seq<Entry>)
    requires AreNames(dest) && AreNames(at) && WellNamed(t) && [] in r.fs && (t.File? ==> dest + at != [])
    requires Ready(r.fs, dest + at, t) && Allowed(r, Entries(t, at))
    ensures ExtractAll(r, PathOf(dest), Entries(t, at) + rest) ==
              ExtractAll(Advanced(r, Spread(t, dest + at), Entries(t, at)), PathOf(dest), rest)
    decreases t, 1
  {
    var es := Entries(t, at);
    assert t.File? ==> es == [es[0]] && Bytes(es) == |t.data| + Bytes(es[1..]);
    ExtractHead(r, dest, t, at);
    assert (es + rest)[0] == es[0];
    if t.File? {
      assert (es + rest)[1..] == rest;
    } else {
      var tail := AllEntries(t.children, at);
      assert (es + rest)[1..] == tail + rest && es == [es[0]] + tail;
      var here := map[dest + at := Folder];
      AdvancedTwice(r, here, [es[0]], SpreadAll(t.children, dest + at), tail);
      ReadyBelow(r.fs, dest + at, t);
      ExtractChildren(Advanced(r, here, [es[0]]), dest, t.children, at, rest);
    }
  }

  lemma ReadyBelow(fs: Files, at: seq<string>, t: Tree)
    requires t.Dir? && Ready(fs, at, t)
    ensures ReadyAll(fs + map[at := Folder], at, t.children)
  {
    var fs' := fs + map[at := Folder];
    forall i | 0 < i <= |at|
      ensures at[..i] in fs' && fs'[at[..i]].Folder?
    {
      if i < |at| {
        assert at[..|at| - 1][..i] == at[..i];
      } else {
        assert at[..i] == at;
      }
    }
    forall i, p | 0 <= i < |t.children| && p in fs'
      ensures !(at + [t.children[i].name] <= p)
    {
      assert at + [t.children[i].name] <= p ==> at <= p && p != at;
    }
  }

  lemma {:induction false} ExtractChildren(r: Reading, dest: seq<string>, cs: seq<Child>, at: seq<string>,
      rest: seq<Entry>)
    requires AreNames(dest) && AreNames(at) && AllWellNamed(cs) && [] in r.fs
    requires ReadyAll(r.fs, dest + at, cs) && Allowed(r, AllEntries(cs, at))
    ensures ExtractAll(r, PathOf(dest), AllEntries(cs, at) + rest) ==
              ExtractAll(Advanced(r, SpreadAll(cs, dest + at), AllEntries(cs, at)), PathOf(dest), rest)
    decreases cs, 0
  {
    if cs == [] {
      assert AllEntries(cs, at) + rest == rest;
      assert Advanced(r, map[], []) == r;
    } else {
      var here := at + [cs[0].name];
      assert dest + here == dest + at + [cs[0].name];
      var a, b := Entries(cs[0].tree, here), AllEntries(cs[1..], at);
      var m, n := Spread(cs[0].tree, dest + here), SpreadAll(cs[1..], dest + at);
      AdvancedTwice(r, m, a, n, b);
      ReadyChild(r.fs, dest + at, cs);
      assert (a + b) + rest == a + (b + rest);
      ExtractTree(r, dest, cs[0].tree, here, b + rest);
      RoomForTheRest(r.fs, dest + at, cs);
      ExtractChildren(Advanced(r, m, a), dest, cs[1..], at, rest);
    }
  }

  /**
    * Archiving a tree and extracting the archive into an empty folder gives exactly the tree's names and contents
    * there, and leaves everything else as it was. A folder is archived as `.`, a file under its own name.
    */
  lemma RoundTrip(t: Tree, at: seq<string>, fs: Files, dest: seq<string>)
    requires WellNamed(t) && AreNames(dest) && AreNames(at) && (if t.Dir? then at == [] else |at| == 1)
    requires |Entries(t, at)| <= MAX_ENTRIES && Bytes(Entries(t, at)) <= MAX_BYTES   // ArchiveTree succeeds
    requires [] in fs && fs[[]].Folder? && FolderAt(fs, dest) && (forall p :: p in fs && dest <= p ==> p == dest)
    ensures Clean(PathOf(dest)) == Some(PathOf(dest))
    ensures var all := ExtractAll(Reading(fs, 0, 0), PathOf(dest), Entries(t, at));
            all.Some? && all.value.fs == fs + Spread(t, dest + at)
    ensures StreamSize(Entries(t, at)) <= MAX_BYTES + STREAM_SLACK
  {
    var es, r := Entries(t, at), Reading(fs, 0, 0);
    CleanPathOf(dest);
    AcceptedStreamFits(es);
    assert es + [] == es;
    RootReady(t, at, fs, dest);
    ExtractTree(r, dest, t, at, []);
  }

  lemma RootReady(t: Tree, at: seq<string>, fs: Files, dest: seq<string>)
    requires if t.Dir? then at == [] else |at| == 1
    requires [] in fs && fs[[]].Folder? && FolderAt(fs, dest) && (forall p :: p in fs && dest <= p ==> p == dest)
    ensures Ready(fs, dest + at, t)
  {
    var p := dest + at;
    if t.Dir? {
      assert p == dest;
      assert dest != [] ==> dest[..|dest|] == dest;
      if dest != [] {
        var up := dest[..|dest| - 1];
        forall i | 0 < i <= |up|
          ensures up[..i] in fs && fs[up[..i]].Folder?
        {
          assert up[..i] == dest[..i];
        }
      }
    } else {
      assert p[..|p| - 1] == dest;
      assert forall q :: q in fs && p <= q ==> dest <= q;
    }
  }
}
