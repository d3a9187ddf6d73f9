/** Chunking by time: a window of about four minutes, cut at a pause, with an overlap. */
module TimeChunks {
  import opened Options
  import opened Transcripts
  import opened Speech
  import opened WordSplit

  const TARGET_CHUNK_SECONDS := 240.0
  const OVERLAP_SECONDS := 30.0

  function Max(a: int, b: int): int { if a >= b then a else b }

  function Min(a: int, b: int): int { if a <= b then a else b }

  // ---------------------------------------------------------------- pauses

  /** The pause before segment `i`; 0 when it is not timed on both sides. */
  function Gap(segments: seq<Segment>, i: nat): real
    requires 0 < i < |segments|
  {
    if segments[i].start.Some? && segments[i - 1].end.Some?
    then segments[i].start.value - segments[i - 1].end.value else 0.0
  }

  function Reach(start: nat, target: nat): nat
    requires start <= target
  {
    Max(1, (target - start) / 4)
  }

  function Low(start: nat, target: nat): (lo: nat)
    requires start <= target
    ensures start < lo <= target + 1
  {
    Max(start + 1, target - Reach(start, target))
  }

  function High(segments: seq<Segment>, start: nat, target: nat): (hi: nat)
    requires start <= target < |segments|
    ensures target <= hi < |segments|
  {
    Min(|segments| - 1, target + Reach(start, target))
  }

  /** The largest pause among the segments from `lo` on before `n`, the first of them if
      there are several, and `target` if none is positive. */
  function Largest(segments: seq<Segment>, target: nat, lo: nat, n: nat): (r: (nat, real))
    requires 0 < lo && n <= |segments|
    ensures r.1 >= 0.0
  {
    if n <= lo then (target, 0.0)
    else
      var best := Largest(segments, target, lo, n - 1);
      if Gap(segments, n - 1) > best.1 then (n - 1, Gap(segments, n - 1)) else best
  }

  function Boundary(segments: seq<Segment>, start: nat, target: nat): nat
    requires start <= target < |segments|
  {
    Largest(segments, target, Low(start, target), High(segments, start, target) + 1).0
  }

  lemma {:induction false} LargestIsFirst(segments: seq<Segment>, target: nat, lo: nat, n: nat)
    requires 0 < lo && n <= |segments|
    ensures var (b, g) := Largest(segments, target, lo, n);
            && (forall i :: lo <= i < n ==> Gap(segments, i) <= g)
            && (g > 0.0 ==> lo <= b < n && g == Gap(segments, b) && forall i :: lo <= i < b ==> Gap(segments, i) < g)
            && (g == 0.0 ==> b == target)
  {
    if n > lo {
      LargestIsFirst(segments, target, lo, n - 1);
    }
  }

  /** The cut is the first of the largest pauses in the window, and the target itself when
      the window has no pause.  (No minimum length of a pause is applied.) */
  lemma BoundaryIsFirstLargestPause(segments: seq<Segment>, start: nat, target: nat)
    requires start <= target < |segments|
    ensures var b, lo, hi := Boundary(segments, start, target), Low(start, target), High(segments, start, target);
            && start <= b < |segments|
            && (b == start ==> target == start)
            && ((forall i :: lo <= i <= hi ==> Gap(segments, i) <= 0.0) ==> b == target)
            && ((exists i :: lo <= i <= hi && Gap(segments, i) > 0.0) ==>
                 && lo <= b <= hi
                 && (forall i :: lo <= i <= hi ==> Gap(segments, i) <= Gap(segments, b))
                 && (forall i :: lo <= i < b ==> Gap(segments, i) < Gap(segments, b)))
  {
    LargestIsFirst(segments, target, Low(start, target), High(segments, start, target) + 1);
  }

  method FindPauseBoundary(segments: seq<Segment>, startIdx: nat, targetIdx: nat) returns (bestIdx: nat)
    requires startIdx <= targetIdx < |segments|
    ensures bestIdx == Boundary(segments, startIdx, targetIdx)
  {
    var searchRange := Max(1, (targetIdx - startIdx) / 4);
    var lo := Max(startIdx + 1, targetIdx - searchRange);
    var hi := Min(|segments| - 1, targetIdx + searchRange);
    bestIdx := targetIdx;
    var bestGap := 0.0;
    var i := lo;
    while i <= hi
      invariant lo <= i <= Max(lo, hi + 1)
      invariant (bestIdx, bestGap) == Largest(segments, targetIdx, lo, i)
    {
      var st, pt := segments[i].start, segments[i - 1].end;
      if st.Some? && pt.Some? {
        var gap := st.value - pt.value;
        if gap > bestGap {
          bestGap := gap;
          bestIdx := i;
        }
      }
      i := i + 1;
    }
  }

  // ---------------------------------------------------------------- one chunk

  /** The first segment at or past the target time, or the last segment. */
  function Target(segments: seq<Segment>, end: real, i: nat): (t: nat)
    requires i < |segments|
    ensures i <= t < |segments|
    decreases |segments| - i
  {
    if OrElse(segments[i].start, OrElse(segments[i].end, 0.0)) >= end || i == |segments| - 1 then i
    else Target(segments, end, i + 1)
  }

  function TargetOf(segments: seq<Segment>, start: nat): (t: nat)
    requires start < |segments|
    ensures start <= t < |segments|
  {
    Target(segments, OrElse(segments[start].start, 0.0) + TARGET_CHUNK_SECONDS, start)
  }

  /** Where the chunk that begins at `start` ends; never empty. */
  function Split(segments: seq<Segment>, start: nat): (e: nat)
    requires start < |segments|
    ensures start < e <= |segments|
    ensures e < |segments| <==> TargetOf(segments, start) < |segments| - 1
  {
    var target := TargetOf(segments, start);
    if target >= |segments| - 1 then |segments|
    else
      BoundaryIsFirstLargestPause(segments, start, target);
      Max(Boundary(segments, start, target), start + 1)
  }

  function StartOf(segments: seq<Segment>, i: nat): real
    requires i < |segments|
  {
    OrElse(segments[i].start, 0.0)
  }

  /** Back up over the segments before `split` that start within the overlap, `next` being
      reached already, but never to `start`. */
  function BackUp(segments: seq<Segment>, start: nat, split: nat, next: nat): (r: nat)
    requires start < next <= split < |segments|
    ensures start < r <= next
    decreases next
  {
    if next - 1 <= start || StartOf(segments, next - 1) <= StartOf(segments, split) - OVERLAP_SECONDS then next
    else BackUp(segments, start, split, next - 1)
  }

  /** The chunks from `start` on, as index ranges. */
  function Spans(segments: seq<Segment>, start: nat): seq<Span>
    requires start <= |segments|
    decreases |segments| - start
  {
    if start == |segments| then []
    else
      var e := Split(segments, start);
      if e == |segments| then [Span(start, e)]
      else [Span(start, e)] + Spans(segments, BackUp(segments, start, e, e))
  }

  method FindTarget(segments: seq<Segment>, start: nat) returns (targetIdx: nat)
    requires start < |segments|
    ensures targetIdx == TargetOf(segments, start)
  {
    var targetEndTime := OrElse(segments[start].start, 0.0) + TARGET_CHUNK_SECONDS;
    var i := start;
    targetIdx := start;
    while i < |segments|
      invariant start <= i <= |segments|
      invariant i < |segments| ==> Target(segments, targetEndTime, i) == TargetOf(segments, start)
      invariant i == |segments| ==> targetIdx == TargetOf(segments, start)
    {
      targetIdx := i;
      var segTime := OrElse(segments[i].start, OrElse(segments[i].end, 0.0));
      if segTime >= targetEndTime {
        break;
      }
      i := i + 1;
    }
  }

  method FindOverlap(segments: seq<Segment>, start: nat, splitIdx: nat) returns (next: nat)
    requires start < splitIdx < |segments|
    ensures next == BackUp(segments, start, splitIdx, splitIdx)
  {
    var overlapStart := OrElse(segments[splitIdx].start, 0.0) - OVERLAP_SECONDS;
    next := splitIdx;
    var j := splitIdx - 1;
    while j > start
      invariant start <= j < splitIdx && next == j + 1
      invariant BackUp(segments, start, splitIdx, next) == BackUp(segments, start, splitIdx, splitIdx)
    {
      if OrElse(segments[j].start, 0.0) <= overlapStart {
        break;
      }
      next := j;
      j := j - 1;
    }
  }

  lemma FirstSpan(segments: seq<Segment>, start: nat)
    requires start < |segments|
    ensures var e, s := Split(segments, start), Spans(segments, start);
            && s != [] && s[0] == Span(start, e)
            && s[1..] == (if e == |segments| then [] else Spans(segments, BackUp(segments, start, e, e)))
  {
  }

  lemma SpanStep(segments: seq<Segment>, start: nat, spans: seq<Span>)
    requires start < |segments| && Split(segments, start) < |segments|
    ensures var e := Split(segments, start);
            spans + [Span(start, e)] + Spans(segments, BackUp(segments, start, e, e)) == spans + Spans(segments, start)
  {
    var e := Split(segments, start);
    var rest := Spans(segments, BackUp(segments, start, e, e));
    assert spans + [Span(start, e)] + rest == spans + ([Span(start, e)] + rest);
  }

  /** The chunks of these index ranges, numbered in order. */
  ghost predicate ChunksOf(chunks: seq<Chunk>, segments: seq<Segment>, episode: Episode, spans: seq<Span>) {
    && |chunks| == |spans|
    && forall k :: 0 <= k < |spans| ==> IsChunk(chunks[k], segments, episode, k, spans[k])
  }

  predicate IsChunk(c: Chunk, segments: seq<Segment>, episode: Episode, k: nat, a: Span) {
    a.start < a.end <= |segments| && c == ChunkOf(segments[a.start..a.end], episode, k)
  }

  lemma OneMoreChunk(
    chunks: seq<Chunk>, segments: seq<Segment>, episode: Episode, spans: seq<Span>, c: Chunk, a: Span)
    requires ChunksOf(chunks, segments, episode, spans) && IsChunk(c, segments, episode, |chunks|, a)
    ensures ChunksOf(chunks + [c], segments, episode, spans + [a])
  {
  }

  method ChunkByTime(segments: seq<Segment>, episode: Episode) returns (chunks: seq<Chunk>)
    ensures ChunksOf(chunks, segments, episode, Spans(segments, 0))
  {
    chunks := [];
    ghost var spans := [];
    var start := 0;
    while start < |segments|
      invariant start <= |segments|
      invariant spans + Spans(segments, start) == Spans(segments, 0)
      invariant ChunksOf(chunks, segments, episode, spans)
    {
      var targetIdx := FindTarget(segments, start);
      if targetIdx >= |segments| - 1 {
        assert segments[start..] == segments[start..|segments|];
        var chunk := MakeChunk(segments[start..], episode, |chunks|);
        OneMoreChunk(chunks, segments, episode, spans, chunk, Span(start, |segments|));
        chunks := chunks + [chunk];
        spans := spans + [Span(start, |segments|)];
        break;
      }
      var splitIdx := FindPauseBoundary(segments, start, targetIdx);
      if splitIdx <= start {
        splitIdx := start + 1;
      }
      assert splitIdx == Split(segments, start);
      var chunk := MakeChunk(segments[start..splitIdx], episode, |chunks|);
      OneMoreChunk(chunks, segments, episode, spans, chunk, Span(start, splitIdx));
      chunks := chunks + [chunk];
      var next := FindOverlap(segments, start, splitIdx);
      SpanStep(segments, start, spans);
      spans := spans + [Span(start, splitIdx)];
      start := next;
    }
    assert spans == Spans(segments, 0);
  }

  // ---------------------------------------------------------------- coverage

  /** Starts strictly increase and leave no gap. */
  ghost predicate Chained(spans: seq<Span>, n: nat) {
    && (forall k :: 0 <= k < |spans| ==> spans[k].start < spans[k].end <= n)
    && (forall k :: 0 <= k < |spans| - 1 ==> spans[k].start < spans[k + 1].start <= spans[k].end)
  }

  lemma ChainCons(a: Span, rest: seq<Span>, n: nat)
    requires rest != [] && Chained(rest, n) && a.start < rest[0].start <= a.end <= n
    ensures Chained([a] + rest, n)
  {
    var s := [a] + rest;
    forall k | 0 <= k < |s| - 1 ensures s[k].start < s[k + 1].start <= s[k].end {
      if k > 0 {
        assert s[k] == rest[k - 1] && s[k + 1] == rest[k - 1 + 1];
      }
    }
  }

  /** Whatever the times are, and however many are missing: chunks are not empty, starts
      strictly increase, each next chunk begins inside or right after the one before, the
      first begins at 0 and the last ends at the end. */
  lemma {:induction false} SpansChain(segments: seq<Segment>, start: nat)
    requires start < |segments|
    ensures var s := Spans(segments, start);
            && s != [] && Chained(s, |segments|) && s[0].start == start && s[|s| - 1].end == |segments|
    decreases |segments| - start
  {
    var e := Split(segments, start);
    if e < |segments| {
      var next := BackUp(segments, start, e, e);
      SpansChain(segments, next);
      ChainCons(Span(start, e), Spans(segments, next), |segments|);
    }
  }

  /** So every segment is in a chunk, although the end of a chunk may lie before the end of
      the one before it. */
  lemma {:induction false} ChainCovers(spans: seq<Span>, n: nat, k: nat, i: nat) returns (at: nat)
    requires k < |spans| && Chained(spans, n) && spans[k].start <= i < n && spans[|spans| - 1].end == n
    ensures k <= at < |spans| && spans[at].start <= i < spans[at].end
    decreases |spans| - k
  {
    if i < spans[k].end {
      at := k;
    } else {
      at := ChainCovers(spans, n, k + 1, i);
    }
  }

  lemma EverySegmentIsInAChunk(segments: seq<Segment>, i: nat)
    requires i < |segments|
    ensures exists k :: 0 <= k < |Spans(segments, 0)|
              && Spans(segments, 0)[k].start <= i < Spans(segments, 0)[k].end
  {
    SpansChain(segments, 0);
    var at := ChainCovers(Spans(segments, 0), |segments|, 0, i);
  }

  /** Five segments, some without times and not in order. */
  function Disordered(): (s: seq<Segment>)
    ensures |s| == 5
  {
    [Segment("a", Some(1000.0), None, None), Segment("b", Some(0.0), None, None),
     Segment("c", Some(300.0), None, None), Segment("d", None, Some(1300.0), None),
     Segment("e", None, None, None)]
  }

  lemma FirstCut()
    ensures Split(Disordered(), 0) == 3 && BackUp(Disordered(), 0, 3, 3) == 1
  {
    var s := Disordered();
    assert Target(s, 1240.0, 3) == 3 && Target(s, 1240.0, 2) == 3;
    assert TargetOf(s, 0) == 3;
    LargestIsFirst(s, 3, 2, 5);
    assert BackUp(s, 0, 3, 1) == 1 && BackUp(s, 0, 3, 2) == 1;
  }

  lemma SecondCut()
    ensures Split(Disordered(), 1) == 2
  {
    var s := Disordered();
    assert Target(s, 240.0, 2) == 2;
    assert TargetOf(s, 1) == 2;
    LargestIsFirst(s, 2, 2, 4);
  }

  /** With such times a chunk can lie wholly inside the one before it. */
  lemma EndsCanMoveBack()
    ensures exists segments: seq<Segment> :: |Spans(segments, 0)| > 1
              && Spans(segments, 0)[1].end < Spans(segments, 0)[0].end
  {
    FirstCut();
    SecondCut();
    FirstSpan(Disordered(), 0);
    FirstSpan(Disordered(), 1);
    assert Spans(Disordered(), 0)[1..] == Spans(Disordered(), 1);
    assert Spans(Disordered(), 0)[1] == Spans(Disordered(), 0)[1..][0] == Span(1, 2);
  }

  /** No speech is lost: the words of every segment stand together in the text of some chunk. */
  lemma EverySegmentIsTold(chunks: seq<Chunk>, segments: seq<Segment>, episode: Episode, i: nat)
    returns (k: nat, before: seq<string>, after: seq<string>)
    requires ChunksOf(chunks, segments, episode, Spans(segments, 0)) && i < |segments|
    ensures k < |chunks| && Words(chunks[k].text) == before + Words(segments[i].text) + after
  {
    SpansChain(segments, 0);
    k := ChainCovers(Spans(segments, 0), |segments|, 0, i);
    before, after := ToldIn(chunks[k], segments, episode, k, Spans(segments, 0)[k], i);
  }

  lemma PartTold(part: seq<Segment>, episode: Episode, k: nat, j: nat)
    returns (before: seq<string>, after: seq<string>)
    requires j < |part|
    ensures Words(ChunkOf(part, episode, k).text) == before + Words(part[j].text) + after
  {
    ChunkWords(part, episode, k);
    before, after := SegmentWords(part, j);
  }

  lemma ToldIn(c: Chunk, segments: seq<Segment>, episode: Episode, k: nat, a: Span, i: nat)
    returns (before: seq<string>, after: seq<string>)
    requires IsChunk(c, segments, episode, k, a) && a.start <= i < a.end
    ensures Words(c.text) == before + Words(segments[i].text) + after
  {
    var part := segments[a.start..a.end];
    assert part[i - a.start] == segments[i];
    assert c == ChunkOf(part, episode, k);
    before, after := PartTold(part, episode, k, i - a.start);
  }

  // ---------------------------------------------------------------- overlap

  /** Segment `i` starts less than thirty seconds before segment `split`. */
  predicate Within(segments: seq<Segment>, split: nat, i: nat)
    requires i < |segments| && split < |segments|
  {
    StartOf(segments, i) > StartOf(segments, split) - 30.0
  }

  lemma {:induction false} BackUpIsMaximal(segments: seq<Segment>, start: nat, split: nat, next: nat)
    requires start < next <= split < |segments|
    requires forall i :: next <= i < split ==> Within(segments, split, i)
    ensures var r := BackUp(segments, start, split, next);
            && (forall i :: r <= i < split ==> Within(segments, split, i))
            && (r - 1 == start || !Within(segments, split, r - 1))
    decreases next
  {
    if next - 1 > start && Within(segments, split, next - 1) {
      BackUpIsMaximal(segments, start, split, next - 1);
    }
  }

  /** What the chunk that begins at `next` repeats of chunk `a` is the longest run of
      segments before the cut that start within the overlap, short of the first of `a`. */
  ghost predicate Repeats(segments: seq<Segment>, a: Span, next: nat) {
    && a.start < next <= a.end < |segments|
    && (forall i :: next <= i < a.end ==> Within(segments, a.end, i))
    && (next - 1 == a.start || !Within(segments, a.end, next - 1))
  }

  lemma FirstRepeats(segments: seq<Segment>, start: nat)
    requires start < |segments| && Split(segments, start) < |segments|
    ensures var e := Split(segments, start);
            Repeats(segments, Span(start, e), BackUp(segments, start, e, e))
  {
    BackUpIsMaximal(segments, start, Split(segments, start), Split(segments, start));
  }

  /** The chunks after the first are those from where the first backs up to. */
  lemma LaterSpans(segments: seq<Segment>, start: nat)
    requires start < |segments| && 1 < |Spans(segments, start)|
    ensures var e := Split(segments, start);
            && e < |segments| && Spans(segments, start)[1..] == Spans(segments, BackUp(segments, start, e, e))
            && Spans(segments, start)[0] == Span(start, e)
            && Spans(segments, start)[1].start == BackUp(segments, start, e, e)
  {
    FirstSpan(segments, start);
    assert Spans(segments, start)[1] == Spans(segments, start)[1..][0];
    var e := Split(segments, start);
    if e < |segments| {
      FirstSpan(segments, BackUp(segments, start, e, e));
    }
  }

  lemma {:induction false} OverlapIsMaximal(segments: seq<Segment>, start: nat, k: nat)
    requires start < |segments| && k + 1 < |Spans(segments, start)|
    ensures Repeats(segments, Spans(segments, start)[k], Spans(segments, start)[k + 1].start)
    decreases k
  {
    LaterSpans(segments, start);
    if k == 0 {
      FirstRepeats(segments, start);
    } else {
      var e := Split(segments, start);
      OverlapIsMaximal(segments, BackUp(segments, start, e, e), k - 1);
      assert Spans(segments, start)[1..][k - 1] == Spans(segments, start)[k];
      assert Spans(segments, start)[1..][k] == Spans(segments, start)[k + 1];
    }
  }

  // ---------------------------------------------------------------- where a chunk ends

  /** When a segment begins, or ends if that is not known. */
  function TimeOf(segments: seq<Segment>, i: nat): real
    requires i < |segments|
  {
    OrElse(segments[i].start, OrElse(segments[i].end, 0.0))
  }

  /** Segment `t` is the first from `a` on that is four minutes or more after segment `a`. */
  ghost predicate FourMinutesOn(segments: seq<Segment>, a: nat, t: nat) {
    && a <= t < |segments| && TimeOf(segments, t) >= StartOf(segments, a) + 240.0
    && forall i :: a <= i < t ==> TimeOf(segments, i) < StartOf(segments, a) + 240.0
  }

  lemma {:induction false} TargetIsFirst(segments: seq<Segment>, end: real, i: nat)
    requires i < |segments|
    ensures var t := Target(segments, end, i);
            && (forall j :: i <= j < t ==> TimeOf(segments, j) < end)
            && (TimeOf(segments, t) >= end || t == |segments| - 1)
    decreases |segments| - i
  {
    if TimeOf(segments, i) < end && i < |segments| - 1 {
      TargetIsFirst(segments, end, i + 1);
    }
  }

  /** A chunk that begins at segment `a` takes the rest unless some segment but the last is
      four minutes on.  Otherwise it is cut within a quarter of the way to the first such
      segment, or within one segment of it, and no pause in that window is longer than the one
      at the cut. */
  ghost predicate EndsWell(segments: seq<Segment>, a: nat, e: nat) {
    && a < e <= |segments|
    && ((forall t :: a <= t < |segments| - 1 ==> TimeOf(segments, t) < StartOf(segments, a) + 240.0) ==>
          e == |segments|)
    && forall t: nat :: FourMinutesOn(segments, a, t) && t < |segments| - 1 ==>
         var reach := if t - a >= 4 then (t - a) / 4 else 1;
         && e < |segments|
         && t - reach <= e <= t + reach
         && forall i :: a < i < |segments| && t - reach <= i <= t + reach ==>
              Gap(segments, i) <= Gap(segments, e) || Gap(segments, i) <= 0.0
  }

  lemma CutAtPause(segments: seq<Segment>, a: nat, t: nat)
    requires a <= t < |segments| - 1
    ensures var reach, e := if t - a >= 4 then (t - a) / 4 else 1, Max(Boundary(segments, a, t), a + 1);
            && a < e < |segments| && t - reach <= e <= t + reach
            && forall i :: a < i < |segments| && t - reach <= i <= t + reach ==>
                 Gap(segments, i) <= Gap(segments, e) || Gap(segments, i) <= 0.0
  {
    BoundaryIsFirstLargestPause(segments, a, t);
    LargestIsFirst(segments, t, Low(a, t), High(segments, a, t) + 1);
  }

  lemma SplitEndsWell(segments: seq<Segment>, a: nat)
    requires a < |segments|
    ensures EndsWell(segments, a, Split(segments, a))
  {
    TargetIsFirst(segments, StartOf(segments, a) + 240.0, a);
    var target := TargetOf(segments, a);
    if target < |segments| - 1 {
      CutAtPause(segments, a, target);
    }
    forall t: nat | FourMinutesOn(segments, a, t) && t < |segments| - 1 ensures t == target {
      FirstIsUnique(segments, a, t, target);
    }
  }

  lemma FirstIsUnique(segments: seq<Segment>, a: nat, t: nat, target: nat)
    requires FourMinutesOn(segments, a, t) && t < |segments| - 1 && a <= target < |segments|
    requires forall j :: a <= j < target ==> TimeOf(segments, j) < StartOf(segments, a) + 240.0
    requires TimeOf(segments, target) >= StartOf(segments, a) + 240.0 || target == |segments| - 1
    ensures t == target
  {
  }

  lemma {:induction false} SpanEndsAtSplit(segments: seq<Segment>, start: nat, k: nat)
    requires start < |segments| && k < |Spans(segments, start)|
    ensures var a := Spans(segments, start)[k]; a.start < |segments| && a.end == Split(segments, a.start)
    decreases |segments| - start
  {
    FirstSpan(segments, start);
    if k > 0 {
      var e := Split(segments, start);
      SpanEndsAtSplit(segments, BackUp(segments, start, e, e), k - 1);
    }
  }

  /** Every chunk ends so. */
  lemma ChunksEndWell(segments: seq<Segment>, k: nat)
    requires k < |Spans(segments, 0)|
    ensures EndsWell(segments, Spans(segments, 0)[k].start, Spans(segments, 0)[k].end)
  {
    SpanEndsAtSplit(segments, 0, k);
    SplitEndsWell(segments, Spans(segments, 0)[k].start);
  }
}
