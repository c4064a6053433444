/** Slash-separated paths: path.Clean, path.Join and the copy code's own `clean` (internal/filecopy/copy.go). */
module Paths {
  import opened Basics

  /** strings.Split at slashes: never empty. */
  function Split(s: string): (r: seq<string>)
    ensures |r| > 0
  {
    if s == "" then [""] else Prepend(s[0], Split(s[1..]))
  }

  /** The parts of a text with one more character in front. */
  function Prepend(c: char, rest: seq<string>): (r: seq<string>)
    requires |rest| > 0
    ensures |r| > 0
  {
    if c == '/' then [""] + rest else [[c] + rest[0]] + rest[1..]
  }

  lemma PrependAcross(c: char, a: seq<string>, b: seq<string>)
    requires |a| > 0
    ensures Prepend(c, a + b) == Prepend(c, a) + b
  {
    assert (a + b)[1..] == a[1..] + b;
  }

  function Join(parts: seq<string>): string {
    if parts == [] then "" else if |parts| == 1 then parts[0] else parts[0] + "/" + Join(parts[1..])
  }

  lemma {:induction false} SplitPart(part: string, rest: string)
    requires '/' !in part
    ensures Split(part) == [part]
    ensures Split(part + "/" + rest) == [part] + Split(rest)
  {
    if part == "" {
      assert part + "/" + rest == "/" + rest;
      assert ("/" + rest)[1..] == rest;
    } else {
      var tail := part[1..];
      SplitPart(tail, rest);
      assert (part + "/" + rest)[1..] == tail + "/" + rest;
      assert [part[0]] + tail == part;
      assert Split(part) == [[part[0]] + tail];
    }
  }

  lemma {:induction false} SplitJoin(parts: seq<string>)
    requires parts != [] && forall p :: p in parts ==> '/' !in p
    ensures Split(Join(parts)) == parts
  {
    SplitPart(parts[0], Join(parts[1..]));
    if |parts| > 1 {
      SplitJoin(parts[1..]);
    } else {
      assert parts == [parts[0]];
    }
  }

  lemma {:induction false} SplitHasNoSlash(s: string)
    ensures forall p :: p in Split(s) ==> '/' !in p
  {
    if s != "" {
      SplitHasNoSlash(s[1..]);
    }
  }

  lemma {:induction false} SplitAcross(a: string, b: string)
    ensures Split(a + "/" + b) == Split(a) + Split(b)
  {
    if a == "" {
      assert a + "/" + b == "/" + b;
      assert ("/" + b)[1..] == b;
    } else {
      SplitAcross(a[1..], b);
      assert (a + "/" + b)[1..] == a[1..] + "/" + b;
      assert (a + "/" + b)[0] == a[0];
      PrependAcross(a[0], Split(a[1..]), Split(b));
    }
  }

  // ----- path.Clean -----

  /** One component: dots and empty parts vanish, `..` cancels the part before it, and cannot leave a rooted path. */
  function Apply(rooted: bool, stack: seq<string>, part: string): seq<string> {
    if part == "" || part == "." then stack
    else if part == ".." then
      if stack != [] && stack[|stack| - 1] != ".." then stack[..|stack| - 1]
      else if rooted then stack
      else stack + [".."]
    else stack + [part]
  }

  function Resolve(rooted: bool, parts: seq<string>): seq<string> {
    if parts == [] then [] else Apply(rooted, Resolve(rooted, parts[..|parts| - 1]), parts[|parts| - 1])
  }

  function Render(rooted: bool, stack: seq<string>): string {
    if rooted then "/" + Join(stack) else if stack == [] then "." else Join(stack)
  }

  predicate Rooted(s: string) {
    s != "" && s[0] == '/'
  }

  function PathClean(s: string): string {
    Render(Rooted(s), Resolve(Rooted(s), Split(s)))
  }

  /** path.Join of two parts, neither of them empty. */
  function PathJoin(a: string, b: string): string {
    PathClean(a + "/" + b)
  }

  /** A resolved path climbs only at its start, and a rooted one never. */
  ghost predicate Resolved(rooted: bool, stack: seq<string>) {
    && (forall p :: p in stack ==> p != "" && p != "." && '/' !in p)
    && (forall i :: 0 < i < |stack| && stack[i] == ".." ==> stack[i - 1] == "..")
    && (rooted ==> ".." !in stack)
  }

  lemma {:induction false} ResolveIsResolved(rooted: bool, parts: seq<string>)
    requires forall p :: p in parts ==> '/' !in p
    ensures Resolved(rooted, Resolve(rooted, parts))
  {
    if parts != [] {
      ResolveIsResolved(rooted, parts[..|parts| - 1]);
      assert parts[|parts| - 1] in parts;
      ApplyIsResolved(rooted, Resolve(rooted, parts[..|parts| - 1]), parts[|parts| - 1]);
    }
  }

  lemma ApplyIsResolved(rooted: bool, stack: seq<string>, part: string)
    requires Resolved(rooted, stack) && '/' !in part
    ensures Resolved(rooted, Apply(rooted, stack, part))
  {
    var r := Apply(rooted, stack, part);
    if r != stack && part != ".." {
      assert r == stack + [part];
    }
  }

  lemma RenderClimbs(stack: seq<string>)
    requires stack != [] && stack[0] == ".."
    ensures Render(false, stack) == ".." || "../" <= Render(false, stack)
  {
    if |stack| > 1 {
      assert Join(stack) == ".." + "/" + Join(stack[1..]);
    }
  }

  /** A resolved path that does not start with `..` does not climb at all. */
  lemma {:induction false} NoClimb(rooted: bool, stack: seq<string>, i: nat)
    requires Resolved(rooted, stack) && i < |stack| && stack[0] != ".."
    ensures stack[i] != ".."
  {
    if i > 0 {
      NoClimb(rooted, stack, i - 1);
    }
  }

  // ----- clean -----

  /** `None` is the error: the path leaves the root, or holds a NUL. */
  function Clean(s: string): Option<string> {
    var t := PathClean(if Rooted(s) then s[1..] else s);
    if t == ".." || "../" <= t || '\0' in t then None else Some(t)
  }

  /** What Clean accepts is a rendering of a path without a climb. */
  lemma CleanDoesNotClimb(s: string) returns (rooted: bool, stack: seq<string>)
    requires Clean(s).Some?
    ensures Resolved(rooted, stack) && ".." !in stack && Clean(s).value == Render(rooted, stack)
  {
    var t := if Rooted(s) then s[1..] else s;
    rooted, stack := Rooted(t), Resolve(Rooted(t), Split(t));
    SplitHasNoSlash(t);
    ResolveIsResolved(rooted, Split(t));
    if stack != [] && !rooted && stack[0] == ".." {
      RenderClimbs(stack);
      assert false;
    }
    if ".." in stack {
      var i :| 0 <= i < |stack| && stack[i] == "..";
      NoClimb(rooted, stack, i);
      assert false;
    }
  }

  // ----- What cleaning keeps, and what clean refuses -----

  /** One component of a walk through a tree, where `up` leads to the parent and `down` to a child. */
  function Move<T>(x: T, part: string, up: T -> T, down: (T, string) -> T): T {
    if part == "" || part == "." then x else if part == ".." then up(x) else down(x, part)
  }

  function Go<T>(x: T, parts: seq<string>, up: T -> T, down: (T, string) -> T): T {
    if parts == [] then x else Move(Go(x, parts[..|parts| - 1], up, down), parts[|parts| - 1], up, down)
  }

  /** Without links, the parent of a child is where one came from. */
  ghost predicate IsTree<T(!new)>(up: T -> T, down: (T, string) -> T) {
    forall x, name :: up(down(x, name)) == x
  }

  lemma {:induction false} ResolveKeepsMeaning<T(!new)>(rooted: bool, parts: seq<string>, x: T, up: T -> T,
      down: (T, string) -> T)
    requires IsTree(up, down) && (rooted ==> up(x) == x)
    requires forall p :: p in parts ==> '/' !in p
    ensures Go(x, Resolve(rooted, parts), up, down) == Go(x, parts, up, down)
  {
    if parts != [] {
      var p, last := parts[..|parts| - 1], parts[|parts| - 1];
      ResolveKeepsMeaning(rooted, p, x, up, down);
      ResolveIsResolved(rooted, p);
      ApplyKeepsMeaning(rooted, Resolve(rooted, p), last, x, up, down);
    }
  }

  lemma ApplyKeepsMeaning<T(!new)>(rooted: bool, stack: seq<string>, part: string, x: T, up: T -> T,
      down: (T, string) -> T)
    requires IsTree(up, down) && (rooted ==> up(x) == x) && Resolved(rooted, stack)
    ensures Go(x, Apply(rooted, stack, part), up, down) == Move(Go(x, stack, up, down), part, up, down)
  {
    var n := |stack| - 1;
    if part == ".." && stack != [] && stack[n] != ".." {
      assert stack[n] in stack;
      assert up(down(Go(x, stack[..n], up, down), stack[n])) == Go(x, stack[..n], up, down);
    } else if Apply(rooted, stack, part) != stack {
      assert (stack + [part])[..|stack|] == stack;
    }
  }

  lemma GoToRendered<T(!new)>(rooted: bool, stack: seq<string>, x: T, up: T -> T, down: (T, string) -> T)
    requires Resolved(rooted, stack)
    ensures Go(x, Split(Render(rooted, stack)), up, down) == Go(x, stack, up, down)
  {
    SplitRendered(rooted, stack);
    var parts := Split(Render(rooted, stack));
    GoPastEmpty(x, if stack == [] then [""] else stack, up, down);
    if stack == [] {
      assert Go(x, [""][..0], up, down) == x && Go(x, ["."][..0], up, down) == x;
      assert Go(x, [""], up, down) == x && Go(x, ["."], up, down) == x;
      assert [] + ["."] == ["."];
    } else {
      assert [] + stack == stack;
    }
  }

  lemma {:induction false} GoPastEmpty<T(!new)>(x: T, parts: seq<string>, up: T -> T, down: (T, string) -> T)
    ensures Go(x, [""] + parts, up, down) == Go(x, parts, up, down)
  {
    var all := [""] + parts;
    if parts == [] {
      assert all == [""] && all[..0] == [];
    } else {
      assert all[..|all| - 1] == [""] + parts[..|parts| - 1];
      GoPastEmpty(x, parts[..|parts| - 1], up, down);
    }
  }

  /**
    * Cleaning a path keeps where it leads, in every tree without links and from every place (from the root, if rooted).
    */
  lemma CleanKeepsMeaning<T(!new)>(s: string, x: T, up: T -> T, down: (T, string) -> T)
    requires IsTree(up, down) && (Rooted(s) ==> up(x) == x)
    ensures Go(x, Split(PathClean(s)), up, down) == Go(x, Split(s), up, down)
  {
    SplitHasNoSlash(s);
    ResolveIsResolved(Rooted(s), Split(s));
    ResolveKeepsMeaning(Rooted(s), Split(s), x, up, down);
    GoToRendered(Rooted(s), Resolve(Rooted(s), Split(s)), x, up, down);
  }

  /** How far below its beginning a walk ends. */
  function Level(parts: seq<string>): int {
    if parts == [] then 0
    else
      var last := parts[|parts| - 1];
      Level(parts[..|parts| - 1]) + if last == "" || last == "." then 0 else if last == ".." then -1 else 1
  }

  /** At its end, or at some moment before, the walk is above where it began. */
  predicate Climbs(parts: seq<string>) {
    parts != [] && (Level(parts) < 0 || Climbs(parts[..|parts| - 1]))
  }

  /** What is left of a relative path starts with `..` exactly if the path climbs. */
  lemma {:induction false} ClimbIsLeft(parts: seq<string>)
    requires forall p :: p in parts ==> '/' !in p
    ensures var stack := Resolve(false, parts);
            if Climbs(parts) then stack != [] && stack[0] == ".." else ".." !in stack && Level(parts) == |stack|
  {
    if parts != [] {
      var p := parts[..|parts| - 1];
      ClimbIsLeft(p);
      ResolveIsResolved(false, p);
    }
  }

  /**
    * clean refuses a path exactly if the path, less one slash at its beginning, is relative and climbs above where it
    * begins, or a component that is left holds a NUL.
    */
  lemma CleanFailsExactly(s: string)
    ensures var t := if Rooted(s) then s[1..] else s;
            Clean(s).None? <==> (!Rooted(t) && Climbs(Split(t))) || '\0' in PathClean(t)
  {
    var t := if Rooted(s) then s[1..] else s;
    var stack := Resolve(Rooted(t), Split(t));
    SplitHasNoSlash(t);
    ResolveIsResolved(Rooted(t), Split(t));
    if Rooted(t) {
      assert PathClean(t)[0] == '/';
    } else {
      ClimbIsLeft(Split(t));
      if Climbs(Split(t)) {
        RenderClimbs(stack);
      } else {
        SplitRendered(false, stack);
        if PathClean(t) == ".." || "../" <= PathClean(t) {
          ClimbShows(PathClean(t));
          assert false;
        }
      }
    }
  }

  lemma {:induction false} SplitRender(rooted: bool, stack: seq<string>)
    requires Resolved(rooted, stack)
    ensures forall p :: p in Split(Render(rooted, stack)) ==> p in stack || p == "" || p == "."
  {
    if stack != [] {
      SplitJoin(stack);
    }
    if rooted {
      SplitPart("", Join(stack));
      assert "" + "/" + Join(stack) == "/" + Join(stack);
      assert Split("") == [""];
    } else if stack == [] {
      SplitPart(".", "");
    }
  }

  lemma {:induction false} ResolveWithoutClimb(rooted: bool, parts: seq<string>)
    requires ".." !in parts
    ensures ".." !in Resolve(rooted, parts)
  {
    if parts != [] {
      ResolveWithoutClimb(rooted, parts[..|parts| - 1]);
    }
  }

  // ----- path.Dir -----

  /** Everything up to the last slash. */
  function Parent(s: string): string {
    if '/' !in s then "" else [s[0]] + Parent(s[1..])
  }

  function PathDir(s: string): string {
    PathClean(Parent(s))
  }

  lemma {:induction false} SlashSplits(s: string)
    requires '/' in s
    ensures |Split(s)| >= 2
  {
    if s[0] != '/' {
      SlashSplits(s[1..]);
    }
  }

  lemma PrependFront(c: char, q: seq<string>)
    requires |q| > 0 && (c == '/' || |q| >= 2)
    ensures Prepend(c, q[..|q| - 1] + [""]) == Prepend(c, q)[..|Prepend(c, q)| - 1] + [""]
  {
  }

  lemma {:induction false} SplitParent(s: string)
    ensures Split(Parent(s)) == Split(s)[..|Split(s)| - 1] + [""]
    ensures Rooted(Parent(s)) == Rooted(s)
  {
    if '/' !in s {
      SplitPart(s, "");
    } else {
      SplitParent(s[1..]);
      assert Parent(s)[1..] == Parent(s[1..]);
      if s[0] != '/' {
        SlashSplits(s[1..]);
      }
      PrependFront(s[0], Split(s[1..]));
    }
  }

  lemma DirOf(s: string)
    ensures var r, parts := Rooted(s), Split(s);
            PathDir(s) == Render(r, Resolve(r, parts[..|parts| - 1]))
  {
    SplitParent(s);
    var parts := Split(s);
    var up := parts[..|parts| - 1];
    assert (up + [""])[..|up|] == up;
  }

  /** What extract joins from a destination and an entry's name: a rendering of a path without a climb. */
  lemma JoinedPath(dest: string, name: string) returns (rooted: bool, stack: seq<string>)
    requires Clean(dest).Some? && Clean(name).Some?
    ensures Resolved(rooted, stack) && ".." !in stack
    ensures PathJoin(Clean(dest).value, Clean(name).value) == Render(rooted, stack)
  {
    var d, n := Clean(dest).value, Clean(name).value;
    var rd, sd := CleanDoesNotClimb(dest);
    var rn, sn := CleanDoesNotClimb(name);
    SplitRender(rd, sd);
    SplitRender(rn, sn);
    SplitAcross(d, n);
    var joined := d + "/" + n;
    rooted, stack := Rooted(joined), Resolve(Rooted(joined), Split(joined));
    assert ".." !in Split(joined);
    SplitHasNoSlash(joined);
    ResolveIsResolved(rooted, Split(joined));
    ResolveWithoutClimb(rooted, Split(joined));
  }

  /**
    * No destination joined with an entry's name, and no parent folder of one, has a `..` component: nothing is ever
    * opened or made above the root.
    */
  lemma JoinedPathDoesNotClimb(dest: string, name: string)
    requires Clean(dest).Some? && Clean(name).Some?
    ensures var p := PathJoin(Clean(dest).value, Clean(name).value);
            ".." !in Split(p) && ".." !in Split(PathDir(p))
  {
    var rooted, stack := JoinedPath(dest, name);
    SplitRender(rooted, stack);
    DirOfRendered(rooted, stack);
    FrontResolved(rooted, stack);
    SplitRender(Rooted(Render(rooted, stack)), Front(stack));
  }

  function Front(stack: seq<string>): seq<string> {
    if stack == [] then [] else stack[..|stack| - 1]
  }

  lemma FrontResolved(rooted: bool, stack: seq<string>)
    requires Resolved(rooted, stack) && ".." !in stack
    ensures Resolved(rooted, Front(stack)) && Resolved(true, Front(stack)) && "" !in Front(stack) &&
            "." !in Front(stack)
  {
    assert forall p :: p in Front(stack) ==> p in stack;
  }

  lemma DirOfRendered(rooted: bool, stack: seq<string>)
    requires Resolved(rooted, stack) && ".." !in stack
    ensures PathDir(Render(rooted, stack)) == Render(Rooted(Render(rooted, stack)), Front(stack))
  {
    var p := Render(rooted, stack);
    var parts := Split(p);
    DirOf(p);
    SplitRender(rooted, stack);
    assert ".." !in parts;
    ResolveIsVisible(Rooted(p), parts[..|parts| - 1]);
    SplitRendered(rooted, stack);
    LastIsVisible(rooted, stack, parts);
  }

  /** Making the parent folder of a joined path walks all its components but the last. */
  lemma DirIsParent(dest: string, name: string)
    requires Clean(dest).Some? && Clean(name).Some?
    ensures var p := PathJoin(Clean(dest).value, Clean(name).value);
            Walked(PathDir(p)) == Front(Walked(p))
  {
    var rooted, stack := JoinedPath(dest, name);
    WalkedRender(rooted, stack);
    DirOfRendered(rooted, stack);
    FrontResolved(rooted, stack);
    WalkedRender(Rooted(Render(rooted, stack)), Front(stack));
  }

  lemma {:induction false} ResolveIsVisible(rooted: bool, parts: seq<string>)
    requires ".." !in parts
    ensures Resolve(rooted, parts) == Visible(parts)
  {
    if parts != [] {
      ResolveIsVisible(rooted, parts[..|parts| - 1]);
      assert parts[|parts| - 1] in parts;
    }
  }

  lemma {:induction false} VisibleParts(parts: seq<string>)
    requires "" !in parts && "." !in parts
    ensures Visible(parts) == parts && Visible([""] + parts) == parts
  {
    if parts == [] {
      assert Visible([""]) == Visible([""][..0]) == [];
      assert [""] + parts == [""];
    } else {
      var p, last := parts[..|parts| - 1], parts[|parts| - 1];
      VisibleParts(p);
      assert last in parts && p + [last] == parts;
      assert ([""] + parts)[..|parts|] == [""] + p;
    }
  }

  lemma SplitRendered(rooted: bool, stack: seq<string>)
    requires Resolved(rooted, stack)
    ensures Split(Render(rooted, stack)) ==
              (if rooted then [""] else []) + (if stack != [] then stack else if rooted then [""] else ["."])
  {
    if stack != [] {
      SplitJoin(stack);
    }
    if rooted {
      SplitPart("", Join(stack));
      assert "" + "/" + Join(stack) == "/" + Join(stack);
    } else if stack == [] {
      SplitPart(".", "");
    }
  }

  lemma RenderedIsVisible(rooted: bool, stack: seq<string>, parts: seq<string>)
    requires "" !in stack && "." !in stack
    requires parts == (if rooted then [""] else []) + (if stack != [] then stack else if rooted then [""] else ["."])
    ensures Visible(parts) == stack
  {
    VisibleParts(stack);
    if stack != [] {
      assert [] + stack == stack;
    } else if rooted {
      assert parts[..1] == [""] && parts[1] == "";
      assert Visible([""]) == Visible([""][..0]) == [];
    } else {
      assert parts == ["."] && parts[..0] == [];
    }
  }

  lemma WalkedRender(rooted: bool, stack: seq<string>)
    requires Resolved(rooted, stack)
    ensures Walked(Render(rooted, stack)) == stack
  {
    SplitRendered(rooted, stack);
    RenderedIsVisible(rooted, stack, Split(Render(rooted, stack)));
  }

  lemma LastIsVisible(rooted: bool, stack: seq<string>, parts: seq<string>)
    requires Resolved(rooted, stack) && ".." !in stack
    requires parts == (if rooted then [""] else []) + (if stack != [] then stack else if rooted then [""] else ["."])
    ensures Visible(Front(parts)) == Front(stack)
  {
    if stack == [] {
      assert Front(parts) == if rooted then [""] else [];
      assert Visible([""]) == Visible([""][..0]) == [];
    } else {
      FrontResolved(rooted, stack);
      VisibleParts(Front(stack));
      FrontAcross(if rooted then [""] else [], stack);
      assert [] + Front(stack) == Front(stack);
    }
  }

  lemma FrontAcross(a: seq<string>, b: seq<string>)
    requires b != []
    ensures Front(a + b) == a + Front(b)
  {
  }

  // ----- Plain paths -----

  /** A name that a directory entry can have. */
  predicate IsName(s: string) {
    s != "" && s != "." && s != ".." && '/' !in s && '\0' !in s
  }

  /** The name of an entry below the root of an archive; the root itself is `.`. */
  function PathOf(names: seq<string>): string {
    if names == [] then "." else Join(names)
  }

  ghost predicate AreNames(names: seq<string>) {
    forall p :: p in names ==> IsName(p)
  }

  lemma {:induction false} ResolveNames(rooted: bool, names: seq<string>)
    requires AreNames(names)
    ensures Resolve(rooted, names) == names
  {
    if names != [] {
      var p := names[..|names| - 1];
      ResolveNames(rooted, p);
      assert names[|names| - 1] in names;
      assert p + [names[|names| - 1]] == names;
    }
  }

  lemma {:induction false} ResolveAcross(rooted: bool, a: seq<string>, names: seq<string>)
    requires AreNames(names)
    ensures Resolve(rooted, a + names) == Resolve(rooted, a) + names
  {
    if names == [] {
      assert a + names == a;
    } else {
      var p := names[..|names| - 1];
      assert (a + names)[..|a + names| - 1] == a + p;
      ResolveAcross(rooted, a, p);
      assert names[|names| - 1] in names;
      assert Resolve(rooted, a) + p + [names[|names| - 1]] == Resolve(rooted, a) + names;
    }
  }

  lemma {:induction false} JoinNames(names: seq<string>)
    requires AreNames(names) && names != []
    ensures Join(names) != "" && !Rooted(Join(names)) && '\0' !in Join(names)
    ensures names[0] <= Join(names)
  {
    assert names[0] in names;
    if |names| > 1 {
      JoinNames(names[1..]);
    }
  }

  lemma SplitPathOf(names: seq<string>)
    requires AreNames(names)
    ensures Split(PathOf(names)) == if names == [] then ["."] else names
    ensures !Rooted(PathOf(names)) && PathOf(names) != "" && '\0' !in PathOf(names)
  {
    if names == [] {
      SplitPart(".", "");
    } else {
      SplitJoin(names);
      JoinNames(names);
    }
  }

  lemma ResolvePathOf(names: seq<string>)
    requires AreNames(names)
    ensures Resolve(false, Split(PathOf(names))) == names
  {
    SplitPathOf(names);
    if names != [] {
      ResolveNames(false, names);
    } else {
      assert Split(PathOf(names))[..0] == [];
    }
  }

  /** A plain path is already clean. */
  lemma CleanPathOf(names: seq<string>)
    requires AreNames(names)
    ensures Clean(PathOf(names)) == Some(PathOf(names))
  {
    var t := PathOf(names);
    SplitPathOf(names);
    ResolvePathOf(names);
    assert PathClean(t) == t;
    assert names != [] ==> names[0] in names;
    if t == ".." || "../" <= t {
      ClimbShows(t);
      assert false;
    }
  }

  lemma ClimbShows(t: string)
    requires t == ".." || "../" <= t
    ensures Split(t)[0] == ".."
  {
    if t == ".." {
      SplitPart("..", "");
    } else {
      SplitPart("..", t[3..]);
      assert t == ".." + "/" + t[3..];
    }
  }

  /** The components a path is walked by: those of mkdir and openat2, which skip empty parts and dots. */
  function Walked(s: string): seq<string> {
    Visible(Split(s))
  }

  function Visible(parts: seq<string>): seq<string> {
    if parts == [] then []
    else
      var p, last := Visible(parts[..|parts| - 1]), parts[|parts| - 1];
      if last == "" || last == "." then p else p + [last]
  }

  lemma {:induction false} VisibleNames(names: seq<string>)
    requires AreNames(names)
    ensures Visible(names) == names
  {
    if names != [] {
      VisibleNames(names[..|names| - 1]);
      assert names[|names| - 1] in names;
      assert names[..|names| - 1] + [names[|names| - 1]] == names;
    }
  }

  /** Joining plain paths appends their components. */
  lemma JoinPathsOf(dest: seq<string>, names: seq<string>)
    requires AreNames(dest) && AreNames(names)
    ensures PathJoin(PathOf(dest), PathOf(names)) == PathOf(dest + names)
    ensures Walked(PathOf(dest + names)) == dest + names
  {
    var joined := PathOf(dest) + "/" + PathOf(names);
    SplitPathOf(dest);
    SplitPathOf(names);
    SplitAcross(PathOf(dest), PathOf(names));
    assert Rooted(joined) == Rooted(PathOf(dest));
    ResolvePathOf(dest);
    if names == [] {
      var parts := Split(joined);
      assert parts[..|parts| - 1] == Split(PathOf(dest)) && parts[|parts| - 1] == ".";
      assert dest + names == dest;
    } else {
      ResolveAcross(false, Split(PathOf(dest)), names);
    }
    assert Resolve(false, Split(joined)) == dest + names;
    SplitPathOf(dest + names);
    VisibleNames(dest + names);
    if dest + names == [] {
      assert Visible(["."]) == Visible(["."][..0]) == [];
    }
  }
}
