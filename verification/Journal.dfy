/** The bounded, rotating, cursor-read journal (internal/journal/journal.go). */
module Journal {
  import opened Basics
  import opened JournalFrames

  /** The bytes that a run of frames carries. */
  function Concat(s: seq<Frame>): string {
    if s == [] then "" else Concat(s[..|s| - 1]) + s[|s| - 1].data
  }

  function MaxSequence(s: seq<Frame>): nat {
    if s == [] then 0
    else
      var m, last := MaxSequence(s[..|s| - 1]), s[|s| - 1].sequence;
      if last > m then last else m
  }

  lemma {:induction false} MaxOfSuffix(h: seq<Frame>, k: nat)
    requires IsHistory(h) && k < |h|
    ensures MaxSequence(h[k..]) == |h|
  {
    var s := h[k..];
    assert s[..|s| - 1] == h[..|h| - 1][k..];
    if |s| > 1 {
      MaxOfSuffix(h[..|h| - 1], k);
    }
  }

  lemma {:induction false} RetainOfSuffix(h: seq<Frame>, k: nat) returns (m: nat)
    requires k <= |h|
    ensures k <= m <= |h| && Retain(h[k..]) == h[m..] && (k < |h| ==> m < |h|)
    ensures Size(h[m..]) <= LIMIT || |h[m..]| <= 1
  {
    var j := RetainIsLongest(h[k..]);
    m := k + j;
    assert h[k..][j..] == h[m..];
  }

  /** The two files together hold the end of the history, and the last frame is in the current one. */
  ghost predicate OnDisk(older: seq<Frame>, current: seq<Frame>, h: seq<Frame>, k: nat) {
    k <= |h| && older + current == h[k..] && (h != [] ==> current != [])
  }

  lemma DiskGrows(older: seq<Frame>, current: seq<Frame>, h: seq<Frame>, k: nat, f: Frame)
    requires k <= |h| && older + current == h[k..]
    ensures OnDisk(older, current + [f], h + [f], k)
  {
    assert older + (current + [f]) == (older + current) + [f];
  }

  lemma DiskRotates(older: seq<Frame>, current: seq<Frame>, h: seq<Frame>, k: nat)
    requires OnDisk(older, current, h, k)
    ensures |h| >= |current| && current + [] == h[|h| - |current|..]
  {
    assert |older + current| == |h| - k;
    assert current == (older + current)[|older|..];
  }

  /** The length of a file with a line for each frame. */
  function FileSize(s: seq<Frame>, lineSize: Frame -> nat): nat {
    if s == [] then 0 else FileSize(s[..|s| - 1], lineSize) + lineSize(s[|s| - 1])
  }

  /**
    * A file is rotated exactly when it has grown past the limit: what was given up made room for more than the limit,
    * and all but the last line of the current file is within it.
    */
  ghost predicate Rotated(older: seq<Frame>, current: seq<Frame>, k: nat, lineSize: Frame -> nat) {
    && (k == 0 || FileSize(older, lineSize) > LIMIT)
    && (current == [] || FileSize(current[..|current| - 1], lineSize) <= LIMIT)
  }

  lemma RotatedGrows(older: seq<Frame>, current: seq<Frame>, k: nat, lineSize: Frame -> nat, f: Frame)
    requires k == 0 || FileSize(older, lineSize) > LIMIT
    requires FileSize(current, lineSize) <= LIMIT
    ensures Rotated(older, current + [f], k, lineSize)
  {
    var grown := current + [f];
    assert grown[..|grown| - 1] == current;
  }

  /** What is retained of a history: an end of it, that fits or is one frame, and is not empty unless the history is. */
  ghost predicate Kept(h: seq<Frame>, m: nat, frames: seq<Frame>, bytes: nat, seqno: nat) {
    && IsHistory(h) && seqno == |h|
    && m <= |h| && frames == h[m..] && (h != [] ==> m < |h|)
    && bytes == Size(frames) && (bytes <= LIMIT || |frames| <= 1)
  }

  lemma KeptGrows(h: seq<Frame>, m: nat, frames: seq<Frame>, bytes: nat, f: Frame) returns (n: nat)
    requires Kept(h, m, frames, bytes, |h|) && f.sequence == |h| + 1 && f.data != ""
    ensures n >= m && Kept(h + [f], n, Retain(frames + [f]), Size(Retain(frames + [f])), |h| + 1)
  {
    assert h[m..] + [f] == (h + [f])[m..];
    n := RetainOfSuffix(h + [f], m);
  }

  /** Files that hold the end of a history restore what is retained of it, and its numbering. */
  lemma Restored(older: seq<Frame>, current: seq<Frame>, h: seq<Frame>, k: nat) returns (m: nat)
    ensures IsHistory(h) && OnDisk(older, current, h, k) ==>
              && m >= k
              && Kept(h, m, Retain(older + current), Size(Retain(older + current)), MaxSequence(older + current))
  {
    m := 0;
    if IsHistory(h) && OnDisk(older, current, h, k) {
      m := RetainOfSuffix(h, k);
      if h != [] {
        assert |older + current| > 0;
        MaxOfSuffix(h, k);
      }
    }
  }

  /** Frames written by one call: the same kind, never empty, and of full length except for the last. */
  ghost predicate Written(s: seq<Frame>, kind: string) {
    forall i :: 0 <= i < |s| ==> s[i].kind == kind && 0 < |s[i].data| <= CHUNK && (i < |s| - 1 ==> |s[i].data| == CHUNK)
  }

  ghost predicate AllFull(s: seq<Frame>) {
    forall i :: 0 <= i < |s| ==> |s[i].data| == CHUNK
  }

  /** A block is cut into frames up to a rest. */
  ghost predicate Cut(s: seq<Frame>, kind: string, rest: string, b: string) {
    Written(s, kind) && Concat(s) + rest == b && (rest == "" || AllFull(s))
  }

  /** The next frame of a block: the rest of it, or its first 32 KiB. */
  function Piece(rest: string): string {
    rest[..if |rest| > CHUNK then CHUNK else |rest|]
  }

  lemma CutGrows(s: seq<Frame>, kind: string, f: Frame, rest: string, b: string)
    requires Cut(s, kind, rest, b) && rest != "" && f.kind == kind && f.data == Piece(rest)
    ensures f.data != "" && f.data <= rest && Cut(s + [f], kind, rest[|f.data|..], b)
  {
    assert (s + [f])[..|s|] == s;
    assert rest == f.data + rest[|f.data|..];
  }

  class Journal {
    const lineSize: Frame -> nat  // the length of a frame's line in the file
    var frames: seq<Frame>
    var bytes: nat
    var seqno: nat
    var older: seq<Frame>         // the rotated file
    var current: seq<Frame>       // the file being appended to
    ghost var history: seq<Frame> // every frame ever written
    ghost var start: nat          // the first frame still retained
    ghost var filed: nat          // the first frame still in a file
    ghost var intact: bool        // every file operation so far succeeded

    ghost predicate InMemory()
      reads this
    {
      Kept(history, start, frames, bytes, seqno)
    }

    ghost predicate Valid()
      reads this
    {
      InMemory() && (intact ==> OnDisk(older, current, history, filed))
    }

    ghost predicate RotatedWhenFull()
      reads this
    {
      intact ==> Rotated(older, current, filed, lineSize)
    }

    /** Appends a frame and evicts from the front until the rest fits. */
    method Append(f: Frame)
      requires bytes == Size(frames)
      modifies this`frames, this`bytes
      ensures frames == Retain(old(frames) + [f]) && bytes == Size(frames)
    {
      SizeAppend(frames, f);
      frames := frames + [f];
      bytes := bytes + |f.data| + OVERHEAD;
      while bytes > LIMIT && |frames| > 1
        invariant bytes == Size(frames)
        invariant Retain(frames) == Retain(old(frames) + [f])
        decreases |frames|
      {
        bytes := bytes - (|frames[0].data| + OVERHEAD);
        frames := frames[1..];
      }
    }

    /** Takes up the frames of the files in a journal that has none. */
    method Load(all: seq<Frame>)
      requires frames == [] && bytes == 0 && seqno == 0
      modifies this`frames, this`bytes, this`seqno
      ensures frames == Retain(all) && bytes == Size(frames) && seqno == MaxSequence(all)
    {
      for i := 0 to |all|
        invariant frames == Retain(all[..i]) && bytes == Size(frames) && seqno == MaxSequence(all[..i])
      {
        assert all[..i + 1] == all[..i] + [all[i]] && all[..i + 1][..i] == all[..i];
        RetainStepwise(all[..i], all[i]);
        Append(all[i]);
        if all[i].sequence > seqno {
          seqno := all[i].sequence;
        }
      }
      assert all[..|all|] == all;
    }

    /** Reads the rotated file and then the current one, whatever they hold. */
    constructor FromFiles(
      older: seq<Frame>, current: seq<Frame>, lineSize: Frame -> nat, ghost h: seq<Frame>, ghost k: nat, ghost m: nat
    )
      ensures frames == Retain(older + current) && bytes == Size(frames) && seqno == MaxSequence(older + current)
      ensures this.older == older && this.current == current && this.lineSize == lineSize
      ensures history == h && filed == k && start == m && intact
    {
      this.lineSize := lineSize;
      this.older, this.current := older, current;
      frames, bytes, seqno := [], 0, 0;
      history, filed, start, intact := h, k, m, true;
      new;
      Load(older + current);
    }

    /** Numbers a frame and keeps it in memory. */
    method Keep(kind: string, data: string) returns (f: Frame)
      requires InMemory() && data != ""
      modifies this`seqno, this`frames, this`bytes, this`history, this`start
      ensures InMemory() && f == Frame(kind, data, old(seqno) + 1)
      ensures history == old(history) + [f] && start >= old(start)
    {
      f := Frame(kind, data, seqno + 1);
      ghost var m := KeptGrows(history, start, frames, bytes, f);
      seqno := seqno + 1;
      Append(f);
      history, start := history + [f], m;
    }

    /** Puts the latest frame in the file, which is first rotated if it has grown past the limit. */
    method Store(f: Frame, ghost h: seq<Frame>)
      requires intact ==> OnDisk(older, current, h, filed)
      modifies this`older, this`current, this`filed
      ensures intact ==> OnDisk(older, current, h + [f], filed)
      ensures old(RotatedWhenFull()) ==> RotatedWhenFull()
    {
      if FileSize(current, lineSize) > LIMIT {
        if intact {
          DiskRotates(older, current, h, filed);
          filed := |h| - |current|;
        }
        older := current;
        current := [];
      }
      if intact {
        DiskGrows(older, current, h, filed, f);
        if old(RotatedWhenFull()) {
          RotatedGrows(older, current, filed, lineSize, f);
        }
      }
      current := current + [f];
    }

    /** One frame: kept in memory, then stored, unless a file operation fails. */
    method Put(kind: string, data: string, fileOk: bool) returns (f: Frame)
      requires Valid() && data != ""
      modifies this
      ensures Valid() && intact == (old(intact) && fileOk)
      ensures f == Frame(kind, data, old(seqno) + 1)
      ensures history == old(history) + [f] && start >= old(start)
      ensures old(RotatedWhenFull()) ==> RotatedWhenFull()
    {
      ghost var h := history;
      f := Keep(kind, data);
      if fileOk {
        Store(f, h);
      } else {
        intact := false;
      }
    }

    /**
      * Writes a block in frames of at most 32 KiB. The file operations of the first `good` frames succeed; the first
      * that fails ends the write.
      */
    method Write(kind: string, b: string, good: nat) returns (ok: bool, ghost added: seq<Frame>)
      requires Valid()
      modifies this
      ensures Valid() && intact == (old(intact) && ok)
      ensures history == old(history) + added && start >= old(start)
      ensures Written(added, kind) && Concat(added) <= b
      ensures if |added| <= good then ok && Concat(added) == b else !ok && |added| == good + 1
      ensures old(RotatedWhenFull()) ==> RotatedWhenFull()
    {
      ghost var tidy := RotatedWhenFull();
      var rest := b;
      var done := 0;
      ok, added := true, [];
      while rest != "" && ok
        invariant Valid() && intact == (old(intact) && ok)
        invariant history == old(history) + added && start >= old(start)
        invariant Cut(added, kind, rest, b) && (tidy ==> RotatedWhenFull())
        invariant done == |added| && if ok then done <= good else done == good + 1
        decreases |rest|
      {
        ok := done < good;
        var f := Put(kind, Piece(rest), ok);
        CutGrows(added, kind, f, rest, b);
        added := added + [f];
        rest := rest[|f.data|..];
        done := done + 1;
      }
    }

    method Read(after: nat) returns (out: seq<Frame>)
      ensures IsRead(frames, after, out)
    {
      out := ReadFrames(frames, after);
    }
  }

  /** Files that hold the end of a history restore the numbering and a valid journal. */
  method Open(older: seq<Frame>, current: seq<Frame>, lineSize: Frame -> nat, ghost h: seq<Frame>, ghost k: nat)
    returns (j: Journal)
    ensures fresh(j) && j.frames == Retain(older + current) && j.seqno == MaxSequence(older + current)
    ensures j.older == older && j.current == current && j.lineSize == lineSize
    ensures j.intact && j.history == h && j.filed == k
    ensures IsHistory(h) && OnDisk(older, current, h, k) ==> j.Valid() && j.start >= k
  {
    ghost var m := Restored(older, current, h, k);
    j := new Journal.FromFiles(older, current, lineSize, h, k, m);
  }

  /** Closing and opening again continues the same history: no number is lost or used twice. */
  method Reopen(j: Journal) returns (k: Journal)
    requires j.Valid() && j.intact
    ensures fresh(k) && k.Valid() && k.intact
    ensures k.history == j.history && k.seqno == j.seqno && k.frames == Retain(j.older + j.current)
    ensures j.RotatedWhenFull() ==> k.RotatedWhenFull()
  {
    k := Open(j.older, j.current, j.lineSize, j.history, j.filed);
  }
}
