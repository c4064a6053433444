/** A reader that follows a journal by cursor while it is being written to and evicted from. */
module JournalReaders {
  import opened Basics
  import opened JournalFrames

  /** A journal as readers see it: the frames before `start` have been evicted. */
  datatype Log = Log(history: seq<Frame>, start: nat)

  /** 64-bit numbering has not run out. */
  ghost predicate IsLog(l: Log) {
    && IsHistory(l.history) && |l.history| + 1 < U64
    && l.start <= |l.history| && (l.history != [] ==> l.start < |l.history|)
  }

  ghost function Retained(l: Log): seq<Frame>
    requires l.start <= |l.history|
  {
    l.history[l.start..]
  }

  /** `origin` is where the reader began; `got` is everything it has been given. */
  datatype Reader = Reader(origin: nat, cursor: nat, got: seq<Frame>)

  function Advance(r: Reader, out: seq<Frame>): Reader {
    r.(got := r.got + out, cursor := if out == [] then r.cursor else out[|out| - 1].sequence)
  }

  datatype World = World(log: Log, reader: Reader)

  /** Any write, with any eviction; or one read, which moves the cursor to the last frame returned. */
  ghost predicate Next(w: World, w': World) {
    || (w'.reader == w.reader && IsLog(w'.log) && w.log.history <= w'.log.history && w.log.start <= w'.log.start)
    || (w'.log == w.log && IsLog(w.log) && exists out ::
          IsRead(Retained(w.log), w.reader.cursor, out) && w'.reader == Advance(w.reader, out))
  }

  ghost predicate IsRun(run: seq<World>) {
    && |run| > 0
    && IsLog(run[0].log)
    && run[0].reader.got == [] && run[0].reader.cursor == run[0].reader.origin < U64 - 1
    && forall i :: 0 <= i < |run| - 1 ==> IsLog(run[i].log) && Next(run[i], run[i + 1])
  }

  // ----- Pages -----

  lemma PageIsNotEmpty(rest: seq<Frame>, n: nat)
    requires IsPage(rest, n) && rest != []
    ensures n > 0
  {
    assert rest[..0] == [];
  }

  lemma TailSlice(frames: seq<Frame>, first: nat, n: nat)
    requires first + n <= |frames|
    ensures frames[first..][..n] == frames[first..first + n]
  {
  }

  /** Of frames in order, a read returns a run that starts right after the cursor, and makes progress. */
  lemma ReadOfAscending(frames: seq<Frame>, after: nat, out: seq<Frame>) returns (end: nat)
    requires Ascending(frames) && IsRead(frames, after, out)
    ensures var first := PageStart(frames, after);
            && Divides(frames, after, first) && first <= end <= |frames| && (first < |frames| ==> first < end)
            && out == Gap(frames, after) + frames[first..end]
  {
    var n: nat :| IsPage(Past(frames, after), n) && out == Gap(frames, after) + Past(frames, after)[..n];
    PastIsTail(frames, after);
    var first := PageStart(frames, after);
    end := first + n;
    TailSlice(frames, first, n);
    if first < |frames| {
      PageIsNotEmpty(Past(frames, after), n);
    }
  }

  /** What a reader has been given once it has read from `first` up to `end`, behind a marker if there was a gap. */
  function Pages(gap: seq<Frame>, frames: seq<Frame>, first: nat, end: nat): seq<Frame>
    requires first <= end <= |frames|
  {
    if first == |frames| then [] else gap + frames[first..end]
  }

  lemma PagesGrow(gap: seq<Frame>, frames: seq<Frame>, first: nat, was: nat, end: nat)
    requires first < was <= end <= |frames|
    ensures Pages(gap, frames, first, was) + frames[was..end] == Pages(gap, frames, first, end)
  {
    assert frames[first..was] + frames[was..end] == frames[first..end];
  }

  ghost predicate EndsAt(out: seq<Frame>, frames: seq<Frame>, end: nat) {
    0 < end <= |frames| && out != [] && out[|out| - 1] == frames[end - 1]
  }

  lemma SliceEnds(gap: seq<Frame>, frames: seq<Frame>, i: nat, j: nat)
    requires i < j <= |frames|
    ensures EndsAt(gap + frames[i..j], frames, j)
  {
  }

  lemma PagesOf(gap: seq<Frame>, frames: seq<Frame>, i: nat, end: nat, out: seq<Frame>)
    requires i <= end <= |frames| && (i < |frames| ==> i < end) && out == gap + frames[i..end] &&
             (i == |frames| ==> gap == [])
    ensures out == Pages(gap, frames, i, end) && (i < |frames| ==> EndsAt(out, frames, end))
  {
    if i < |frames| {
      SliceEnds(gap, frames, i, end);
    }
  }

  lemma NoGapAtEnd(frames: seq<Frame>, after: nat)
    requires after < U64 - 1 && Divides(frames, after, |frames|)
    ensures Gap(frames, after) == []
  {
    assert |frames| > 0 ==> frames[0].sequence <= after;
  }

  lemma FirstPage(frames: seq<Frame>, after: nat, out: seq<Frame>) returns (end: nat)
    requires Ascending(frames) && IsRead(frames, after, out) && after < U64 - 1
    ensures Divides(frames, after, PageStart(frames, after))
    ensures PageStart(frames, after) <= end <= |frames| &&
            out == Pages(Gap(frames, after), frames, PageStart(frames, after), end)
    ensures PageStart(frames, after) < |frames| ==> PageStart(frames, after) < end && EndsAt(out, frames, end)
  {
    end := ReadOfAscending(frames, after, out);
    if PageStart(frames, after) == |frames| {
      NoGapAtEnd(frames, after);
    }
    PagesOf(Gap(frames, after), frames, PageStart(frames, after), end, out);
  }

  // ----- The invariant -----

  function Last(origin: nat, got: seq<Frame>): nat {
    if got == [] then origin else got[|got| - 1].sequence
  }

  /** Each frame is the next one of the history, or marks a gap that reaches further. */
  ghost predicate Follows(h: seq<Frame>, before: nat, f: Frame) {
    || (before < |h| && f == h[before])
    || (before < f.sequence <= |h| && f == GapMarker(f.sequence))
  }

  ghost predicate Chain(h: seq<Frame>, origin: nat, got: seq<Frame>) {
    if got == [] then true
    else
      var p := got[..|got| - 1];
      Chain(h, origin, p) && Follows(h, Last(origin, p), got[|got| - 1])
  }

  lemma ChainAppend(h: seq<Frame>, origin: nat, got: seq<Frame>, f: Frame)
    requires Chain(h, origin, got) && Follows(h, Last(origin, got), f)
    ensures Chain(h, origin, got + [f]) && Last(origin, got + [f]) == f.sequence
  {
    assert (got + [f])[..|got|] == got;
  }

  lemma ChainOne(h: seq<Frame>, origin: nat, got: seq<Frame>, b: nat)
    requires IsHistory(h) && Chain(h, origin, got) && Last(origin, got) + 1 == b <= |h|
    ensures Chain(h, origin, got + [h[b - 1]]) && Last(origin, got + [h[b - 1]]) == b
  {
    ChainAppend(h, origin, got, h[b - 1]);
  }

  lemma SliceGrows(got: seq<Frame>, h: seq<Frame>, a: nat, b: nat)
    requires a < b <= |h|
    ensures got + h[a..b] == (got + h[a..b - 1]) + [h[b - 1]]
  {
  }

  /** A run of the history that starts right after the chain extends it. */
  lemma {:induction false} ChainRun(h: seq<Frame>, origin: nat, got: seq<Frame>, a: nat, b: nat)
    requires IsHistory(h) && Chain(h, origin, got) && Last(origin, got) == a <= b <= |h|
    ensures Chain(h, origin, got + h[a..b]) && Last(origin, got + h[a..b]) == b
    decreases b
  {
    if a == b {
      assert got + h[a..b] == got;
    } else {
      ChainRun(h, origin, got, a, b - 1);
      ChainOne(h, origin, got + h[a..b - 1], b);
      SliceGrows(got, h, a, b);
    }
  }

  lemma {:induction false} ChainBounded(h: seq<Frame>, origin: nat, got: seq<Frame>)
    requires IsHistory(h) && Chain(h, origin, got)
    ensures origin <= Last(origin, got) && (got != [] ==> Last(origin, got) <= |h|)
  {
    if got != [] {
      ChainBounded(h, origin, got[..|got| - 1]);
    }
  }

  lemma RetainedAscends(l: Log)
    requires IsLog(l)
    ensures Ascending(Retained(l)) && forall k :: 0 <= k < |Retained(l)| ==> Retained(l)[k].sequence == l.start + k + 1
  {
  }

  lemma RetainedStart(l: Log, after: nat, i: nat)
    requires IsLog(l) && after < U64 - 1 && Divides(Retained(l), after, i)
    ensures var frames := Retained(l);
            && (i < |frames| ==>
                  after < |l.history| && l.start + i == if SkipsFrames(frames, after) then l.start else after)
            && (i < |frames| && SkipsFrames(frames, after) ==>
                  l.start > after && Gap(frames, after) == [GapMarker(l.start)])
  {
    RetainedAscends(l);
    var frames := Retained(l);
    assert i < |frames| ==> frames[i].sequence == l.start + i + 1;
    assert i > 0 ==> frames[i - 1].sequence == l.start + i;
  }

  lemma SliceOfSlice(h: seq<Frame>, start: nat, i: nat, j: nat)
    requires start <= |h| && i <= j <= |h| - start
    ensures h[start..][i..j] == h[start + i..start + j]
  {
  }

  /** A marker of the gap up to `a`, if there is one, and the run of the history from there to `b`. */
  function GapAndRun(h: seq<Frame>, after: nat, a: nat, b: nat): seq<Frame>
    requires a <= b <= |h|
  {
    (if a > after then [GapMarker(a)] else []) + h[a..b]
  }

  lemma PageIsRun(l: Log, after: nat, i: nat, end: nat)
    requires IsLog(l) && after < U64 - 1 && i < end <= |Retained(l)| && Divides(Retained(l), after, i)
    ensures after <= l.start + i &&
            Gap(Retained(l), after) + Retained(l)[i..end] == GapAndRun(l.history, after, l.start + i, l.start + end)
  {
    RetainedStart(l, after, i);
    SliceOfSlice(l.history, l.start, i, end);
  }

  /**
    * What one read returns, in terms of the history: nothing, or perhaps a gap marker and then a run that starts right
    * after it.
    */
  lemma ReadIsRun(l: Log, after: nat, out: seq<Frame>) returns (a: nat, b: nat)
    requires IsLog(l) && after < U64 - 1 && IsRead(Retained(l), after, out)
    ensures a <= b <= |l.history| && (out == [] || (after <= a && out == GapAndRun(l.history, after, a, b)))
    ensures out != [] ==> a < b && (a == after || a == l.start)
  {
    RetainedAscends(l);
    var frames := Retained(l);
    var end := FirstPage(frames, after, out);
    var i := PageStart(frames, after);
    if i == |frames| {
      a, b := 0, 0;
    } else {
      a, b := l.start + i, l.start + end;
      PageIsRun(l, after, i, end);
    }
  }

  /** A gap marker stands only for what has been evicted: of what is retained, a read skips nothing. */
  lemma RetainedIsDelivered(l: Log, after: nat, out: seq<Frame>, number: nat)
    requires IsLog(l) && after < U64 - 1 && IsRead(Retained(l), after, out)
    requires out != [] && after < number <= out[|out| - 1].sequence && number > l.start
    ensures number <= |l.history| && l.history[number - 1] in out
  {
    var a, b := ReadIsRun(l, after, out);
    var run := l.history[a..b];
    assert out[|out| - 1] == run[|run| - 1] == l.history[b - 1];
    assert run[number - 1 - a] == l.history[number - 1];
    assert run[number - 1 - a] in run;
  }

  lemma Regroup(got: seq<Frame>, gap: seq<Frame>, rest: seq<Frame>)
    ensures got + (gap + rest) == (got + gap) + rest
  {
  }

  lemma RunContinues(h: seq<Frame>, origin: nat, got: seq<Frame>, a: nat, b: nat)
    requires IsHistory(h) && Chain(h, origin, got) && Last(origin, got) <= a <= b <= |h|
    ensures Chain(h, origin, got + GapAndRun(h, Last(origin, got), a, b))
  {
    var gap := if a > Last(origin, got) then [GapMarker(a)] else [];
    if a > Last(origin, got) {
      ChainAppend(h, origin, got, GapMarker(a));
    } else {
      assert got + gap == got;
    }
    ChainRun(h, origin, got + gap, a, b);
    Regroup(got, gap, h[a..b]);
  }

  lemma ReadContinues(l: Log, origin: nat, got: seq<Frame>, out: seq<Frame>)
    requires IsLog(l) && Chain(l.history, origin, got) && origin < U64 - 1
    requires IsRead(Retained(l), Last(origin, got), out)
    ensures Chain(l.history, origin, got + out)
  {
    var after := Last(origin, got);
    ChainBounded(l.history, origin, got);
    var a, b := ReadIsRun(l, after, out);
    if out == [] {
      assert got + out == got;
    } else {
      RunContinues(l.history, origin, got, a, b);
    }
  }

  lemma {:induction false} HistoryGrows(h: seq<Frame>, h': seq<Frame>, origin: nat, got: seq<Frame>)
    requires Chain(h, origin, got) && h <= h'
    ensures Chain(h', origin, got)
  {
    if got != [] {
      HistoryGrows(h, h', origin, got[..|got| - 1]);
    }
  }

  ghost predicate Good(w: World) {
    && IsLog(w.log) && Chain(w.log.history, w.reader.origin, w.reader.got)
    && w.reader.cursor == Last(w.reader.origin, w.reader.got) && w.reader.origin < U64 - 1
  }

  lemma NextGood(w: World, w': World)
    requires Good(w) && Next(w, w')
    ensures Good(w')
  {
    var r := w.reader;
    if w'.reader == r && IsLog(w'.log) && w.log.history <= w'.log.history {
      HistoryGrows(w.log.history, w'.log.history, r.origin, r.got);
    } else {
      var out :| IsRead(Retained(w.log), r.cursor, out) && w'.reader == Advance(r, out);
      ReadContinues(w.log, r.origin, r.got, out);
    }
  }

  lemma {:induction false} RunGood(run: seq<World>, n: nat)
    requires IsRun(run) && n < |run|
    ensures Good(run[n])
  {
    if n > 0 {
      RunGood(run, n - 1);
      NextGood(run[n - 1], run[n]);
    }
  }

  // ----- What readers are promised -----

  ghost predicate Increasing(origin: nat, got: seq<Frame>) {
    && (forall i :: 0 <= i < |got| ==> origin < got[i].sequence <= Last(origin, got))
    && (forall i, j :: 0 <= i < j < |got| ==> got[i].sequence < got[j].sequence)
  }

  lemma {:induction false} ChainIncreases(h: seq<Frame>, origin: nat, got: seq<Frame>)
    requires IsHistory(h) && Chain(h, origin, got)
    ensures Increasing(origin, got)
  {
    if got != [] {
      var p := got[..|got| - 1];
      ChainIncreases(h, origin, p);
      ChainBounded(h, origin, p);
      assert forall i :: 0 <= i < |p| ==> got[i] == p[i];
    }
  }

  /** Over everything a reader is ever given, sequence numbers strictly increase, up to its cursor. */
  lemma DeliveredIncreases(run: seq<World>, n: nat)
    requires IsRun(run) && n < |run|
    ensures Increasing(run[n].reader.origin, run[n].reader.got)
    ensures run[n].reader.cursor == Last(run[n].reader.origin, run[n].reader.got)
  {
    RunGood(run, n);
    ChainIncreases(run[n].log.history, run[n].reader.origin, run[n].reader.got);
  }

  /** The frame at `i` is the numbered one as it was written, or a gap marker that covers the number. */
  ghost predicate Accounts(h: seq<Frame>, origin: nat, got: seq<Frame>, i: nat, number: nat)
    requires i < |got| && 1 <= number <= |h|
  {
    || got[i] == h[number - 1]
    || (got[i] == GapMarker(got[i].sequence) && Last(origin, got[..i]) < number <= got[i].sequence)
  }

  lemma {:induction false} ChainAccounts(h: seq<Frame>, origin: nat, got: seq<Frame>, number: nat) returns (i: nat)
    requires IsHistory(h) && Chain(h, origin, got) && origin < number <= Last(origin, got)
    ensures number <= |h| && i < |got| && Accounts(h, origin, got, i, number)
  {
    ChainBounded(h, origin, got);
    var p := got[..|got| - 1];
    if number <= Last(origin, p) {
      i := ChainAccounts(h, origin, p, number);
      assert got[..i] == p[..i] && got[i] == p[i];
    } else {
      i := |got| - 1;
    }
  }

  /** Nothing is lost silently: every number between where a reader began and its cursor is accounted for. */
  lemma NothingLostSilently(run: seq<World>, n: nat, number: nat) returns (i: nat)
    requires IsRun(run) && n < |run|
    requires run[n].reader.origin < number <= run[n].reader.cursor
    ensures number <= |run[n].log.history| && i < |run[n].reader.got|
    ensures Accounts(run[n].log.history, run[n].reader.origin, run[n].reader.got, i, number)
  {
    RunGood(run, n);
    i := ChainAccounts(run[n].log.history, run[n].reader.origin, run[n].reader.got, number);
  }

  lemma {:induction false} ChainAsWritten(h: seq<Frame>, origin: nat, got: seq<Frame>, i: nat)
    requires IsHistory(h) && Chain(h, origin, got) && i < |got| && got[i].data != ""
    ensures 1 <= got[i].sequence <= |h| && got[i] == h[got[i].sequence - 1]
  {
    if i < |got| - 1 {
      ChainAsWritten(h, origin, got[..|got| - 1], i);
    }
  }

  /** A frame that carries data is given exactly as it was written under its number. */
  lemma DeliveredAsWritten(run: seq<World>, n: nat, i: nat)
    requires IsRun(run) && n < |run| && i < |run[n].reader.got|
    requires run[n].reader.got[i].data != ""
    ensures 1 <= run[n].reader.got[i].sequence <= |run[n].log.history|
    ensures run[n].reader.got[i] == run[n].log.history[run[n].reader.got[i].sequence - 1]
  {
    RunGood(run, n);
    ChainAsWritten(run[n].log.history, run[n].reader.origin, run[n].reader.got, i);
  }

  // ----- Reading to the end -----

  lemma {:induction false} PastIsSome(frames: seq<Frame>, after: nat, f: Frame)
    ensures f in Past(frames, after) <==> f in frames && f.sequence > after
  {
    if frames != [] {
      var n := |frames| - 1;
      PastIsSome(frames[..n], after, f);
      assert frames == frames[..n] + [frames[n]];
    }
  }

  /** A later cursor has no more frames past it, and fewer if it passes one. */
  lemma {:induction false} PastShrinks(frames: seq<Frame>, after: nat, later: nat)
    requires after <= later
    ensures |Past(frames, later)| <= |Past(frames, after)|
    ensures (exists f :: f in frames && after < f.sequence <= later) ==> |Past(frames, later)| < |Past(frames, after)|
  {
    if frames != [] {
      var n := |frames| - 1;
      PastShrinks(frames[..n], after, later);
      assert frames == frames[..n] + [frames[n]];
    }
  }

  /**
    * The cursor that has no successor: after it, every read of frames with positive numbers answers with the marker of
    * the very first gap, and a reader starts over.
    */
  ghost predicate StartsOver(frames: seq<Frame>) {
    frames != [] && frames[0].sequence > 0 && exists f :: f in frames && f.sequence == U64 - 1
  }

  /** For frames from any files, the reading loop never ends if they hold the last number there is. */
  lemma NeverEnds(frames: seq<Frame>, cursor: nat, out: seq<Frame>)
    requires StartsOver(frames) && cursor < U64 && IsRead(frames, cursor, out)
    ensures out != []
  {
    var f :| f in frames && f.sequence == U64 - 1;
    PastIsSome(frames, cursor, f);
    var n: nat :| IsPage(Past(frames, cursor), n) && out == Gap(frames, cursor) + Past(frames, cursor)[..n];
    assert Past(frames, cursor)[..0] == [] && DataSize([]) == 0;
  }

  /** A cursor with a successor, or after which no gap is seen. */
  ghost predicate Continues(frames: seq<Frame>, cursor: nat) {
    cursor < U64 - 1 || (cursor < U64 && (frames == [] || frames[0].sequence == 0))
  }

  /** A page that is not empty ends with a frame past the cursor. */
  lemma PageMoves(frames: seq<Frame>, cursor: nat, out: seq<Frame>)
    requires IsRead(frames, cursor, out) && out != [] && cursor < U64
    requires (forall f :: f in frames ==> f.sequence < U64) && !StartsOver(frames)
    requires Continues(frames, cursor)
    ensures var last := out[|out| - 1].sequence;
            last > cursor && Continues(frames, last) && |Past(frames, last)| < |Past(frames, cursor)|
  {
    var rest := Past(frames, cursor);
    var n: nat :| IsPage(rest, n) && out == Gap(frames, cursor) + rest[..n];
    if rest == [] && frames != [] {
      PastIsSome(frames, cursor, frames[0]);
    }
    assert rest[..0] == [] && DataSize([]) == 0;
    assert n > 0;
    var last := out[|out| - 1];
    assert last == rest[n - 1];
    PastIsSome(frames, cursor, last);
    PastShrinks(frames, cursor, last.sequence);
  }

  /**
    * The loop of a reader that follows a journal nobody writes to any more, whatever its files held. It ends, with
    * nothing past the last number sent; NeverEnds is the only exception. If the frames are in order, it has sent each
    * retained frame past the cursor exactly once, behind a gap marker if frames were evicted.
    */
  method ReadAll(frames: seq<Frame>, after: nat) returns (sent: seq<Frame>)
    requires after < U64 - 1 && (forall f :: f in frames ==> f.sequence < U64) && !StartsOver(frames)
    ensures Past(frames, Last(after, sent)) == []
    ensures Ascending(frames) ==> sent == Pages(Gap(frames, after), frames, PageStart(frames, after), |frames|)
  {
    sent := [];
    var cursor := after;
    var out := ReadFrames(frames, cursor);
    ghost var gap, first, end: nat := Gap(frames, after), PageStart(frames, after), |frames|;
    end := ReadingBegins(frames, after, out);
    while out != []
      invariant cursor == Last(after, sent) && Continues(frames, cursor) && IsRead(frames, cursor, out)
      invariant InOrder(gap, frames, first, end, sent, out)
      decreases |Past(frames, cursor)|
    {
      PageMoves(frames, cursor, out);
      ghost var page, was := out, sent;
      sent := sent + out;
      cursor := out[|out| - 1].sequence;
      out := ReadFrames(frames, cursor);
      end := ReadingOn(gap, frames, first, end, was, page, out);
    }
    EmptyRead(frames, cursor);
    assert sent + [] == sent;
  }

  ghost predicate InOrder(gap: seq<Frame>, frames: seq<Frame>, first: nat, end: nat, sent: seq<Frame>,
      out: seq<Frame>) {
    Ascending(frames) ==> Reading(gap, frames, first, end, sent, out)
  }

  lemma ReadingBegins(frames: seq<Frame>, after: nat, out: seq<Frame>) returns (end: nat)
    requires IsRead(frames, after, out) && after < U64 - 1
    ensures InOrder(Gap(frames, after), frames, PageStart(frames, after), end, [], out)
  {
    end := 0;
    if Ascending(frames) {
      end := FirstPage(frames, after, out);
      assert [] + out == out;
    }
  }

  /** The next page to be sent, `out`, ends at `end`. */
  ghost predicate Reading(gap: seq<Frame>, frames: seq<Frame>, first: nat, end: nat, sent: seq<Frame>,
      out: seq<Frame>) {
    && first <= end <= |frames| && sent + out == Pages(gap, frames, first, end)
    && (out != [] ==> first < end && EndsAt(out, frames, end)) && (out == [] ==> end == |frames|)
  }

  lemma EmptyRead(frames: seq<Frame>, cursor: nat)
    requires IsRead(frames, cursor, [])
    ensures Past(frames, cursor) == []
  {
    var rest := Past(frames, cursor);
    var n: nat :| IsPage(rest, n) && [] == Gap(frames, cursor) + rest[..n];
    assert rest[..0] == [] && DataSize([]) == 0;
  }

  lemma AscendingCursor(frames: seq<Frame>, was: nat)
    requires Ascending(frames) && 0 < was <= |frames|
    ensures Divides(frames, frames[was - 1].sequence, was)
  {
  }

  lemma DividesOnce(frames: seq<Frame>, after: nat, i: nat, j: nat)
    requires Divides(frames, after, i) && Divides(frames, after, j)
    ensures i == j
  {
    assert i < |frames| && j < |frames| ==> frames[i].sequence > after && frames[j].sequence > after;
    assert i > 0 ==> frames[i - 1].sequence <= after;
    assert j > 0 ==> frames[j - 1].sequence <= after;
  }

  lemma NoGapAfter(frames: seq<Frame>, was: nat)
    requires Ascending(frames) && (forall f :: f in frames ==> f.sequence < U64) && !StartsOver(frames)
    requires 0 < was <= |frames|
    ensures Gap(frames, frames[was - 1].sequence) == []
  {
    assert frames[was - 1] in frames;
    assert was > 1 ==> frames[0].sequence < frames[was - 1].sequence;
  }

  lemma NextPage(frames: seq<Frame>, was: nat, out: seq<Frame>) returns (end: nat)
    requires Ascending(frames) && (forall f :: f in frames ==> f.sequence < U64) && !StartsOver(frames)
    requires 0 < was <= |frames| && IsRead(frames, frames[was - 1].sequence, out)
    ensures was <= end <= |frames| && out == frames[was..end]
    ensures was < |frames| ==> was < end && EndsAt(out, frames, end)
  {
    var cursor := frames[was - 1].sequence;
    end := ReadOfAscending(frames, cursor, out);
    AscendingCursor(frames, was);
    DividesOnce(frames, cursor, was, PageStart(frames, cursor));
    NoGapAfter(frames, was);
    PagesOf([], frames, was, end, out);
  }

  lemma ReadingOn(gap: seq<Frame>, frames: seq<Frame>, first: nat, was: nat, sent: seq<Frame>, page: seq<Frame>,
      out: seq<Frame>) returns (end: nat)
    requires (forall f :: f in frames ==> f.sequence < U64) && !StartsOver(frames)
    requires InOrder(gap, frames, first, was, sent, page) && page != [] &&
             IsRead(frames, page[|page| - 1].sequence, out)
    ensures InOrder(gap, frames, first, end, sent + page, out)
  {
    end := 0;
    if Ascending(frames) {
      end := NextPage(frames, was, out);
      PagesGrow(gap, frames, first, was, end);
    }
  }

  /**
    * Read never answers with a number at or before the cursor, except for the one cursor that has no successor: asked
    * for what follows 2^64-1, it sends the gap marker of an eviction long past.
    */
  lemma ReadMovesForward(frames: seq<Frame>, after: nat, out: seq<Frame>)
    requires after < U64 && (forall f :: f in frames ==> f.sequence < U64) && IsRead(frames, after, out)
    ensures (forall f :: f in out ==> f.sequence > after) <==>
              after != U64 - 1 || frames == [] || frames[0].sequence == 0
  {
    var rest := Past(frames, after);
    var n: nat :| IsPage(rest, n) && out == Gap(frames, after) + rest[..n];
    forall f | f in rest
      ensures f in frames && f.sequence > after
    {
      PastIsSome(frames, after, f);
    }
    if frames != [] && after == U64 - 1 && frames[0].sequence > 0 {
      assert frames[0] in frames;
      assert out[0] == GapMarker(frames[0].sequence - 1);
      assert out[0] in out;
    }
  }
}
