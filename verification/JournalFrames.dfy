/** Frames, what a bounded journal retains of them, and what one read returns (internal/journal/journal.go). */
module JournalFrames {
  import opened Basics

  const LIMIT: nat := 8 * MIB      // retained bytes, and the size at which the file is rotated
  const OVERHEAD: nat := 128       // counted per frame
  const CHUNK: nat := 32 * KIB     // most bytes in one frame
  const PAGE: nat := 256 * KIB     // a read stops once it holds this much
  const U64: nat := 0x1_0000_0000_0000_0000

  /** A marker for rotated frames carries no data; a written frame always carries some. */
  datatype Frame = Frame(kind: string, data: string, sequence: nat)

  function GapMarker(last: nat): Frame {
    Frame("gap", "", last)
  }

  function DataSize(s: seq<Frame>): nat {
    if s == [] then 0 else DataSize(s[..|s| - 1]) + |s[|s| - 1].data|
  }

  function Size(s: seq<Frame>): nat {
    if s == [] then 0 else |s[0].data| + OVERHEAD + Size(s[1..])
  }

  lemma {:induction false} SizeAppend(s: seq<Frame>, f: Frame)
    ensures Size(s + [f]) == Size(s) + |f.data| + OVERHEAD
  {
    if s == [] {
      assert s + [f] == [f];
    } else {
      assert (s + [f])[1..] == s[1..] + [f];
      SizeAppend(s[1..], f);
    }
  }

  /** Frames in the order of their numbers, as a journal writes them. */
  ghost predicate Ascending(s: seq<Frame>) {
    forall i, j :: 0 <= i < j < |s| ==> s[i].sequence < s[j].sequence
  }

  /** The whole history of a journal: numbered from one, and every frame carries data. */
  ghost predicate IsHistory(h: seq<Frame>) {
    forall i :: 0 <= i < |h| ==> h[i].sequence == i + 1 && h[i].data != ""
  }

  // ----- Retention -----

  /** Drops from the front until the rest fits, but never the last frame. */
  function Retain(s: seq<Frame>): seq<Frame> {
    if |s| <= 1 || Size(s) <= LIMIT then s else Retain(s[1..])
  }

  /** The retained frames are the longest suffix that fits, or the last frame alone. */
  lemma {:induction false} RetainIsLongest(s: seq<Frame>) returns (k: nat)
    ensures k <= |s| && Retain(s) == s[k..]
    ensures s != [] ==> k < |s|
    ensures Size(s[k..]) <= LIMIT || |s[k..]| <= 1
    ensures forall j :: 0 <= j < k ==> Size(s[j..]) > LIMIT
  {
    if |s| <= 1 || Size(s) <= LIMIT {
      k := 0;
      assert s[0..] == s;
    } else {
      var m := RetainIsLongest(s[1..]);
      k := m + 1;
      assert s[1..][m..] == s[k..];
      forall j | 0 <= j < k
        ensures Size(s[j..]) > LIMIT
      {
        if j == 0 {
          assert s[0..] == s;
        } else {
          assert s[1..][j - 1..] == s[j..];
        }
      }
    }
  }

  /** Evicting after every frame retains the same as evicting once at the end. */
  lemma {:induction false} RetainStepwise(s: seq<Frame>, f: Frame)
    ensures Retain(Retain(s) + [f]) == Retain(s + [f])
  {
    if |s| > 1 && Size(s) > LIMIT {
      SizeAppend(s, f);
      assert (s + [f])[1..] == s[1..] + [f];
      RetainStepwise(s[1..], f);
    }
  }

  // ----- Reading -----

  /** Cursors are 64-bit numbers, so the successor of the largest is zero. */
  function Successor(after: nat): nat {
    if after + 1 == U64 then 0 else after + 1
  }

  predicate SkipsFrames(frames: seq<Frame>, after: nat) {
    |frames| > 0 && Successor(after) < frames[0].sequence
  }

  function Gap(frames: seq<Frame>, after: nat): seq<Frame> {
    if SkipsFrames(frames, after) && frames[0].sequence > 0 then [GapMarker(frames[0].sequence - 1)] else []
  }

  /** The frames past the cursor. */
  function Past(frames: seq<Frame>, after: nat): seq<Frame> {
    if frames == [] then []
    else
      var n := |frames| - 1;
      Past(frames[..n], after) + if frames[n].sequence > after then [frames[n]] else []
  }

  /** A page holds the first `n` frames, the last of which fills it if there are more. */
  ghost predicate IsPage(rest: seq<Frame>, n: nat) {
    && n <= |rest|
    && (n > 0 ==> DataSize(rest[..n - 1]) < PAGE)
    && (n < |rest| ==> DataSize(rest[..n]) >= PAGE)
  }

  ghost predicate IsRead(frames: seq<Frame>, after: nat, out: seq<Frame>) {
    exists n: nat :: IsPage(Past(frames, after), n) && out == Gap(frames, after) + Past(frames, after)[..n]
  }

  lemma {:induction false} PastPrefix(frames: seq<Frame>, after: nat, k: nat)
    requires k <= |frames|
    ensures Past(frames[..k], after) <= Past(frames, after)
    decreases |frames|
  {
    if k < |frames| {
      var p := frames[..|frames| - 1];
      assert p[..k] == frames[..k];
      PastPrefix(p, after, k);
    } else {
      assert frames[..k] == frames;
    }
  }

  lemma PastNext(frames: seq<Frame>, after: nat, k: nat)
    requires k < |frames|
    ensures Past(frames[..k + 1], after) ==
              Past(frames[..k], after) + if frames[k].sequence > after then [frames[k]] else []
  {
    assert frames[..k + 1][..k] == frames[..k];
  }

  lemma PageGrows(gap: seq<Frame>, page: seq<Frame>, f: Frame)
    ensures gap + page + [f] == gap + (page + [f]) && DataSize(page + [f]) == DataSize(page) + |f.data|
  {
    assert (page + [f])[..|page|] == page;
  }

  lemma FullPage(rest: seq<Frame>, before: seq<Frame>, f: Frame)
    requires before + [f] <= rest && DataSize(before) < PAGE <= DataSize(before) + |f.data|
    ensures IsPage(rest, |before| + 1) && rest[..|before| + 1] == before + [f]
  {
    assert rest[..|before| + 1] == before + [f] && rest[..|before|] == before;
    assert (before + [f])[..|before|] == before;
  }

  lemma WholePage(rest: seq<Frame>)
    requires DataSize(rest) < PAGE
    ensures IsPage(rest, |rest|) && rest[..|rest|] == rest
  {
    assert rest[..|rest|] == rest;
  }

  method ReadFrames(frames: seq<Frame>, after: nat) returns (out: seq<Frame>)
    ensures IsRead(frames, after, out)
  {
    out := [];
    if |frames| > 0 && Successor(after) < frames[0].sequence {
      out := [GapMarker(frames[0].sequence - 1)];
    }
    ghost var gap := out;
    assert gap == Gap(frames, after);
    ghost var page := [];
    var size := 0;
    for k := 0 to |frames|
      invariant page == Past(frames[..k], after) && out == gap + page
      invariant size == DataSize(page) < PAGE
    {
      PastNext(frames, after, k);
      if frames[k].sequence > after {
        ghost var before := page;
        PageGrows(gap, page, frames[k]);
        page := page + [frames[k]];
        out := out + [frames[k]];
        size := size + |frames[k].data|;
        if size >= PAGE {
          PastPrefix(frames, after, k + 1);
          FullPage(Past(frames, after), before, frames[k]);
          return;
        }
      }
    }
    assert frames[..|frames|] == frames;
    WholePage(page);
  }

  // ----- Frames in order -----

  /** Where the frames past the cursor begin, if the frames are in order. */
  ghost function PageStart(frames: seq<Frame>, after: nat): (i: nat)
    ensures i <= |frames|
  {
    PastIsShorter(frames, after);
    |frames| - |Past(frames, after)|
  }

  lemma {:induction false} PastIsShorter(frames: seq<Frame>, after: nat)
    ensures |Past(frames, after)| <= |frames|
  {
    if frames != [] {
      PastIsShorter(frames[..|frames| - 1], after);
    }
  }

  /** The frames past the cursor are those from `i` on. */
  ghost predicate Divides(frames: seq<Frame>, after: nat, i: nat) {
    && i <= |frames|
    && (forall k :: 0 <= k < i ==> frames[k].sequence <= after)
    && (forall k :: i <= k < |frames| ==> frames[k].sequence > after)
  }

  lemma {:induction false} PastFrom(frames: seq<Frame>, after: nat, i: nat)
    requires Divides(frames, after, i)
    ensures Past(frames, after) == frames[i..]
  {
    if frames != [] {
      var n := |frames| - 1;
      if i <= n {
        PastFrom(frames[..n], after, i);
        assert frames[i..] == frames[..n][i..] + [frames[n]];
      } else {
        PastFrom(frames[..n], after, n);
        assert frames[..n][n..] == [] == frames[i..];
      }
    }
  }

  lemma {:induction false} AscendingDivides(frames: seq<Frame>, after: nat) returns (i: nat)
    requires Ascending(frames)
    ensures Divides(frames, after, i)
  {
    if frames == [] || frames[|frames| - 1].sequence <= after {
      i := |frames|;
      assert forall k :: 0 <= k < |frames| ==> frames[k].sequence <= frames[|frames| - 1].sequence;
    } else {
      var n := |frames| - 1;
      i := AscendingDivides(frames[..n], after);
      assert forall k :: 0 <= k < n ==> frames[k] == frames[..n][k];
    }
  }

  /** Of frames in order, those past the cursor are the last. */
  lemma PastIsTail(frames: seq<Frame>, after: nat)
    requires Ascending(frames)
    ensures Divides(frames, after, PageStart(frames, after)) &&
            Past(frames, after) == frames[PageStart(frames, after)..]
  {
    var i := AscendingDivides(frames, after);
    PastFrom(frames, after, i);
    assert PageStart(frames, after) == i;
  }
}
