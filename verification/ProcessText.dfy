/** The texts under /proc by which processes are identified, and what is read from them (internal/firecracker/vm.go). */
module ProcessText {
  import opened Basics

  predicate IsSpace(c: char) {
    c == ' ' || c == '\n' || c == '\t'
  }

  function Word(s: string): (w: string)
    ensures w <= s && (forall c :: c in w ==> !IsSpace(c)) && (|w| < |s| ==> IsSpace(s[|w|]))
  {
    if s == "" || IsSpace(s[0]) then "" else
      var w := [s[0]] + Word(s[1..]);
      w
  }

  /** strings.Fields */
  function Fields(s: string): seq<string> {
    if s == "" then []
    else if IsSpace(s[0]) then Fields(s[1..])
    else [Word(s)] + Fields(s[|Word(s)|..])
  }

  /** The last place before `n` where `") "` stands, or -1. */
  function LastClose(s: string, n: nat): (i: int)
    requires n <= |s|
    ensures i == -1 || 0 <= i <= n - 2
  {
    if n < 2 then -1
    else if s[n - 2] == ')' && s[n - 1] == ' ' then n - 2
    else LastClose(s, n - 1)
  }

  /** The start time in the text of /proc/PID/stat: the twentieth field after the command name. */
  function StartTicks(stat: string): Option<string> {
    var i := LastClose(stat, |stat|);
    if i < 0 then None
    else
      var p := Fields(stat[i + 2..]);
      if |p| < 20 then None else Some(p[19])
  }

  function Join(f: seq<string>): string {
    if f == [] then "" else if |f| == 1 then f[0] else f[0] + " " + Join(f[1..])
  }

  predicate Plain(word: string) {
    word != "" && forall c :: c in word ==> !IsSpace(c) && c != ')'
  }

  lemma {:induction false} WordOf(w: string, rest: string)
    requires forall c :: c in w ==> !IsSpace(c)
    requires rest != "" && IsSpace(rest[0])
    ensures Word(w + rest) == w
  {
    if w == "" {
      assert w + rest == rest;
    } else {
      assert (w + rest)[1..] == w[1..] + rest;
      WordOf(w[1..], rest);
    }
  }

  lemma {:induction false} FieldsOfJoin(f: seq<string>)
    requires forall w :: w in f ==> Plain(w)
    ensures Fields(Join(f) + "\n") == f
  {
    if f == [] {
      assert Join(f) + "\n" == "\n";
      assert Fields("\n"[1..]) == [];
    } else {
      var rest := if |f| == 1 then "\n" else " " + Join(f[1..]) + "\n";
      var text := f[0] + rest;
      assert Join(f) + "\n" == text;
      assert Plain(f[0]);
      WordOf(f[0], rest);
      assert text[|f[0]|..] == rest;
      assert text[0] == f[0][0] && !IsSpace(text[0]);
      FieldsOfJoin(f[1..]);
      if |f| == 1 {
        assert Fields(rest) == Fields(rest[1..]) == [];
      } else {
        assert rest[1..] == Join(f[1..]) + "\n";
      }
      assert f == [f[0]] + f[1..];
    }
  }

  lemma {:induction false} JoinPlain(f: seq<string>)
    requires forall w :: w in f ==> Plain(w)
    ensures ')' !in Join(f)
  {
    if |f| > 1 {
      JoinPlain(f[1..]);
      assert Plain(f[0]);
    } else if |f| == 1 {
      assert Plain(f[0]);
    }
  }

  lemma {:induction false} LastCloseAt(s: string, k: nat, n: nat)
    requires k + 2 <= n <= |s| && s[k] == ')' && s[k + 1] == ' '
    requires forall i :: k < i < n ==> s[i] != ')'
    ensures LastClose(s, n) == k
  {
    if n > k + 2 {
      LastCloseAt(s, k, n - 1);
    }
  }

  lemma TicksAfter(head: string, tail: string)
    requires ')' !in tail
    ensures StartTicks(head + ") " + tail) == if |Fields(tail)| < 20 then None else Some(Fields(tail)[19])
  {
    var stat := head + ") " + tail;
    assert stat[|head|] == ')' && stat[|head| + 1] == ' ';
    assert stat[|head| + 2..] == tail;
    assert forall i :: |head| + 2 <= i < |stat| ==> stat[i] == tail[i - |head| - 2];
    LastCloseAt(stat, |head|, |stat|);
  }

  /** Whatever the command name is, spaces and parentheses included, the start time is read from the right field. */
  lemma StartTicksOfStat(pid: string, comm: string, f: seq<string>)
    requires |f| >= 20 && forall w :: w in f ==> Plain(w)
    ensures StartTicks(pid + " (" + comm + ") " + (Join(f) + "\n")) == Some(f[19])
  {
    JoinPlain(f);
    FieldsOfJoin(f);
    TicksAfter(pid + " (" + comm, Join(f) + "\n");
  }

  // ----- Recorded identities -----

  predicate HasSuffix(s: string, suffix: string) {
    |suffix| <= |s| && s[|s| - |suffix|..] == suffix
  }

  /** A record made before boot IDs were stored holds the ticks alone. */
  predicate Matches(current: string, recorded: string) {
    current == recorded || (':' !in recorded && HasSuffix(current, ":" + recorded))
  }

  function Identity(boot: string, ticks: string): string {
    boot + ":" + ticks
  }

  /** A full identity matches only the same boot and the same ticks. */
  lemma FullIdentityMatches(boot: string, ticks: string, boot': string, ticks': string)
    requires ':' !in boot && ':' !in boot'
    ensures Matches(Identity(boot, ticks), Identity(boot', ticks')) <==> boot == boot' && ticks == ticks'
  {
    var a, b := Identity(boot, ticks), Identity(boot', ticks');
    assert b[|boot'|] == ':';
    if a == b {
      assert a[|boot|] == ':' && b[|boot|] == ':';
      assert forall i :: 0 <= i < |boot| ==> a[i] != ':';
      assert forall i :: 0 <= i < |boot'| ==> b[i] != ':';
      assert |boot| == |boot'|;
      assert boot == a[..|boot|] && boot' == b[..|boot'|];
      assert ticks == a[|boot| + 1..] && ticks' == b[|boot'| + 1..];
    }
  }

  /** A legacy identity matches exactly the same ticks, on any boot. */
  lemma LegacyIdentityMatches(boot: string, ticks: string, recorded: string)
    requires ':' !in boot && ':' !in ticks && ':' !in recorded
    ensures Matches(Identity(boot, ticks), recorded) <==> recorded == ticks
  {
    var a, suffix := Identity(boot, ticks), ":" + recorded;
    assert a[|boot|] == ':';
    if HasSuffix(a, suffix) {
      var k := |a| - |suffix|;
      assert a[k] == a[k..][0] == ':';
      assert forall i :: 0 <= i < |a| && i != |boot| ==> a[i] != ':';
      assert k == |boot|;
      assert recorded == a[k..][1..] == ticks;
    }
    if recorded == ticks {
      assert a[|a| - |suffix|..] == suffix;
    }
  }

  // ----- Control groups -----

  /** strings.Split at newlines. */
  function Lines(s: string): (r: seq<string>)
    ensures |r| > 0
  {
    if s == "" then [""]
    else if s[0] == '\n' then [""] + Lines(s[1..])
    else
      var rest := Lines(s[1..]);
      [[s[0]] + rest[0]] + rest[1..]
  }

  /** What follows the second colon, if there are two: the third part of strings.SplitN(line, ":", 3). */
  function ThirdPart(line: string, colons: nat): Option<string> {
    if line == "" then None
    else if line[0] != ':' then ThirdPart(line[1..], colons)
    else if colons == 0 then None
    else if colons == 1 then Some(line[1..])
    else ThirdPart(line[1..], colons - 1)
  }

  function Group(id: string): string {
    "/niflhel/" + id
  }

  predicate ListsGroup(text: string, id: string) {
    exists i :: 0 <= i < |Lines(text)| && ThirdPart(Lines(text)[i], 2) == Some(Group(id))
  }

  /** A line of /proc/PID/cgroup: a hierarchy, its controllers and the process's group in it. */
  datatype Membership = Membership(hierarchy: string, controllers: string, path: string)

  predicate IsMembership(m: Membership) {
    && ':' !in m.hierarchy && ':' !in m.controllers
    && '\n' !in m.hierarchy && '\n' !in m.controllers && '\n' !in m.path
  }

  function LineOf(m: Membership): string {
    m.hierarchy + ":" + (m.controllers + ":" + m.path)
  }

  /** The text the kernel shows for a process. */
  function TextOf(ms: seq<Membership>): string {
    if ms == [] then "" else LineOf(ms[0]) + "\n" + TextOf(ms[1..])
  }

  lemma {:induction false} LinesAfter(s: string, rest: string)
    requires '\n' !in s
    ensures Lines(s + "\n" + rest) == [s] + Lines(rest)
  {
    var text := s + "\n" + rest;
    if s == "" {
      assert text[1..] == rest;
    } else {
      assert text[1..] == s[1..] + "\n" + rest;
      LinesAfter(s[1..], rest);
      assert [s[0]] + s[1..] == s;
    }
  }

  lemma {:induction false} LinesOfText(ms: seq<Membership>)
    requires forall m :: m in ms ==> IsMembership(m)
    ensures Lines(TextOf(ms)) == seq(|ms|, i requires 0 <= i < |ms| => LineOf(ms[i])) + [""]
  {
    if ms != [] {
      assert IsMembership(ms[0]);
      LinesAfter(LineOf(ms[0]), TextOf(ms[1..]));
      LinesOfText(ms[1..]);
    }
  }

  lemma {:induction false} PartAfter(s: string, rest: string, colons: nat)
    requires ':' !in s && colons > 0
    ensures ThirdPart(s + ":" + rest, colons) == if colons == 1 then Some(rest) else ThirdPart(rest, colons - 1)
  {
    var line := s + ":" + rest;
    if s == "" {
      assert line[1..] == rest;
    } else {
      assert line[1..] == s[1..] + ":" + rest;
      PartAfter(s[1..], rest, colons);
    }
  }

  lemma PathOfLine(m: Membership)
    requires IsMembership(m)
    ensures ThirdPart(LineOf(m), 2) == Some(m.path)
  {
    PartAfter(m.hierarchy, m.controllers + ":" + m.path, 2);
    PartAfter(m.controllers, m.path, 1);
  }

  /** A process counts as the sandbox's exactly when its group in some hierarchy is the sandbox's own. */
  lemma GroupIsExact(ms: seq<Membership>, id: string)
    requires forall m :: m in ms ==> IsMembership(m)
    ensures ListsGroup(TextOf(ms), id) <==> exists m :: m in ms && m.path == Group(id)
  {
    LinesOfText(ms);
    var lines := Lines(TextOf(ms));
    assert ThirdPart("", 2).None?;
    forall i | 0 <= i < |ms|
      ensures lines[i] == LineOf(ms[i]) && ThirdPart(lines[i], 2) == Some(ms[i].path)
    {
      assert ms[i] in ms;
      PathOfLine(ms[i]);
    }
    if exists m :: m in ms && m.path == Group(id) {
      var i :| 0 <= i < |ms| && ms[i].path == Group(id);
      assert ThirdPart(lines[i], 2) == Some(Group(id));
    }
    if ListsGroup(TextOf(ms), id) {
      var i :| 0 <= i < |lines| && ThirdPart(lines[i], 2) == Some(Group(id));
      assert i < |ms|;
      assert ms[i] in ms;
    }
  }

  /** The text for a process that is in one group of the unified hierarchy. */
  lemma UnifiedGroup(path: string, id: string)
    requires '\n' !in path
    ensures ListsGroup("0::" + path + "\n", id) <==> path == Group(id)
  {
    var m := Membership("0", "", path);
    assert [m][1..] == [];
    assert TextOf([m]) == LineOf(m) + "\n" + "" == "0::" + path + "\n";
    GroupIsExact([m], id);
    assert m in [m];
  }
}
