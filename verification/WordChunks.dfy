/** Chunking by words, for transcripts without times. */
module WordChunks {
  import opened Options
  import opened Transcripts
  import opened WordSplit

  const TARGET_CHUNK_WORDS := 800
  const OVERLAP_WORDS := 100
  const STRIDE := TARGET_CHUNK_WORDS - OVERLAP_WORDS

  // ---------------------------------------------------------------- pieces

  /** The word ranges of the chunks from word `w` on. */
  function Pieces(n: nat, w: nat): (p: seq<Span>)
    requires w < n
    ensures p != [] && forall k :: 0 <= k < |p| ==> p[k].start < p[k].end <= n
    decreases n - w
  {
    if w + TARGET_CHUNK_WORDS >= n then [Span(w, n)]
    else [Span(w, w + TARGET_CHUNK_WORDS)] + Pieces(n, w + STRIDE)
  }

  function WordChunk(episode: Episode, index: nat, words: seq<string>): Chunk {
    Chunk(ChunkId(episode.guid, index), episode.guid, Join(words), episode.title, episode.date,
          None, None, episode.number, None, None)
  }

  ghost predicate WordChunksOf(chunks: seq<Chunk>, words: seq<string>, episode: Episode, pieces: seq<Span>) {
    && |chunks| == |pieces|
    && forall k :: 0 <= k < |pieces| ==> IsChunk(chunks[k], words, episode, k, pieces[k])
  }

  predicate IsChunk(c: Chunk, words: seq<string>, episode: Episode, k: nat, a: Span) {
    a.start < a.end <= |words| && c == WordChunk(episode, k, words[a.start..a.end])
  }

  lemma OneMoreChunk(
    chunks: seq<Chunk>, words: seq<string>, episode: Episode, pieces: seq<Span>, c: Chunk, a: Span)
    requires WordChunksOf(chunks, words, episode, pieces) && IsChunk(c, words, episode, |chunks|, a)
    ensures WordChunksOf(chunks + [c], words, episode, pieces + [a])
  {
  }

  /** What is left to cut after these pieces starts at word `start`. */
  ghost predicate Remaining(n: nat, start: nat, pieces: seq<Span>) {
    start < n && pieces + Pieces(n, start) == Pieces(n, 0)
  }

  lemma PieceStep(n: nat, start: nat, pieces: seq<Span>)
    requires Remaining(n, start, pieces) && start + TARGET_CHUNK_WORDS < n
    ensures Remaining(n, start + STRIDE, pieces + [Span(start, start + TARGET_CHUNK_WORDS)])
  {
    var a, rest := Span(start, start + TARGET_CHUNK_WORDS), Pieces(n, start + STRIDE);
    assert pieces + [a] + rest == pieces + ([a] + rest);
  }

  lemma LastPiece(n: nat, start: nat, pieces: seq<Span>)
    requires Remaining(n, start, pieces) && n <= start + TARGET_CHUNK_WORDS
    ensures pieces + [Span(start, n)] == Pieces(n, 0)
  {
  }

  /** The chunks so far, with the words from `start` on still to be cut. */
  ghost predicate CutSoFar(chunks: seq<Chunk>, words: seq<string>, episode: Episode, start: nat) {
    exists pieces :: Remaining(|words|, start, pieces) && WordChunksOf(chunks, words, episode, pieces)
  }

  lemma NextCut(chunks: seq<Chunk>, words: seq<string>, episode: Episode, start: nat, c: Chunk)
    requires CutSoFar(chunks, words, episode, start) && start + TARGET_CHUNK_WORDS < |words|
    requires IsChunk(c, words, episode, |chunks|, Span(start, start + TARGET_CHUNK_WORDS))
    ensures CutSoFar(chunks + [c], words, episode, start + STRIDE)
  {
    var pieces :| Remaining(|words|, start, pieces) && WordChunksOf(chunks, words, episode, pieces);
    PieceStep(|words|, start, pieces);
    OneMoreChunk(chunks, words, episode, pieces, c, Span(start, start + TARGET_CHUNK_WORDS));
  }

  lemma LastCut(chunks: seq<Chunk>, words: seq<string>, episode: Episode, start: nat, c: Chunk)
    requires CutSoFar(chunks, words, episode, start) && |words| <= start + TARGET_CHUNK_WORDS
    requires IsChunk(c, words, episode, |chunks|, Span(start, |words|))
    ensures WordChunksOf(chunks + [c], words, episode, Pieces(|words|, 0))
  {
    var pieces :| Remaining(|words|, start, pieces) && WordChunksOf(chunks, words, episode, pieces);
    LastPiece(|words|, start, pieces);
    OneMoreChunk(chunks, words, episode, pieces, c, Span(start, |words|));
  }

  method CollectWords(segments: seq<Segment>) returns (words: seq<string>)
    ensures words == AllWords(segments)
  {
    words := [];
    for i := 0 to |segments|
      invariant words == AllWords(segments[..i])
    {
      assert segments[..i + 1][..i] == segments[..i];
      words := words + Words(segments[i].text);
    }
    assert segments[..|segments|] == segments;
  }

  method CutWords(words: seq<string>, episode: Episode) returns (chunks: seq<Chunk>)
    requires words != []
    ensures WordChunksOf(chunks, words, episode, Pieces(|words|, 0))
  {
    chunks := [];
    var start := 0;
    assert Remaining(|words|, 0, []) && WordChunksOf(chunks, words, episode, []);
    while start < |words|
      invariant start < |words| && CutSoFar(chunks, words, episode, start)
      decreases |words| - start
    {
      var end := if start + TARGET_CHUNK_WORDS <= |words| then start + TARGET_CHUNK_WORDS else |words|;
      var chunk := WordChunk(episode, |chunks|, words[start..end]);
      ghost var before := chunks;
      chunks := chunks + [chunk];
      if end >= |words| {
        LastCut(before, words, episode, start, chunk);
        break;
      }
      NextCut(before, words, episode, start, chunk);
      start := end - OVERLAP_WORDS;
    }
  }

  /** The chunks of a transcript without times. */
  ghost predicate ChunkedByWords(chunks: seq<Chunk>, segments: seq<Segment>, episode: Episode) {
    var words := AllWords(segments);
    if words == [] then chunks == [] else WordChunksOf(chunks, words, episode, Pieces(|words|, 0))
  }

  method ChunkByWords(segments: seq<Segment>, episode: Episode) returns (chunks: seq<Chunk>)
    ensures ChunkedByWords(chunks, segments, episode)
  {
    var words := CollectWords(segments);
    if words == [] {
      return [];
    }
    chunks := CutWords(words, episode);
  }

  // ---------------------------------------------------------------- nothing lost

  /** The number of chunks of `m` remaining words: 1 + ceil((m - 800) / 700) beyond 800. */
  function Count(m: nat): nat {
    if m <= 800 then 1 else 1 + (m - 800 + 699) / 700
  }

  lemma CountStep(m: nat)
    requires m > TARGET_CHUNK_WORDS
    ensures Count(m) == 1 + Count(m - STRIDE)
  {
  }

  lemma {:induction false} PieceCount(n: nat, w: nat)
    requires w < n
    ensures |Pieces(n, w)| == Count(n - w)
    decreases n - w
  {
    if w + TARGET_CHUNK_WORDS < n {
      PieceCount(n, w + STRIDE);
      CountStep(n - w);
    }
  }

  /** All chunks but the last have 800 words, and a last chunk after the first has more than
      the 100 it repeats. */
  lemma {:induction false} PieceSizes(n: nat, w: nat)
    requires w + OVERLAP_WORDS < n
    ensures var p := Pieces(n, w);
            && (forall k :: 0 <= k < |p| - 1 ==> p[k].end - p[k].start == TARGET_CHUNK_WORDS)
            && p[|p| - 1].end - p[|p| - 1].start > OVERLAP_WORDS
    decreases n - w
  {
    if w + TARGET_CHUNK_WORDS < n {
      PieceSizes(n, w + STRIDE);
      var p, q := Pieces(n, w), Pieces(n, w + STRIDE);
      assert forall k :: 0 < k < |p| ==> p[k] == q[k - 1];
    }
  }

  function Drop<T>(s: seq<T>, k: nat): seq<T> { if |s| <= k then [] else s[k..] }

  /** The parts of the chunks that are not repeats. */
  function Tails(parts: seq<seq<string>>): seq<string> {
    if parts == [] then [] else Drop(parts[0], 100) + Tails(parts[1..])
  }

  function Rejoined(parts: seq<seq<string>>): seq<string> {
    if parts == [] then [] else parts[0] + Tails(parts[1..])
  }

  lemma AllPieceSizes(n: nat)
    requires n > 0
    ensures var p := Pieces(n, 0);
            && |p| == Count(n)
            && (forall k :: 0 <= k < |p| - 1 ==> p[k].end - p[k].start == TARGET_CHUNK_WORDS)
            && (|p| > 1 ==> p[|p| - 1].end - p[|p| - 1].start > OVERLAP_WORDS)
  {
    PieceCount(n, 0);
    if n > OVERLAP_WORDS {
      PieceSizes(n, 0);
    } else {
      assert Pieces(n, 0) == [Span(0, n)];
    }
  }

  lemma CutStep(words: seq<string>, a: Span, rest: seq<Span>)
    requires a.start < a.end <= |words| && forall k :: 0 <= k < |rest| ==> rest[k].start < rest[k].end <= |words|
    ensures Cut(words, [a] + rest) == [words[a.start..a.end]] + Cut(words, rest)
  {
  }

  function Cut(words: seq<string>, pieces: seq<Span>): (parts: seq<seq<string>>)
    requires forall k :: 0 <= k < |pieces| ==> pieces[k].start < pieces[k].end <= |words|
    ensures |parts| == |pieces|
  {
    seq(|pieces|, k requires 0 <= k < |pieces| => words[pieces[k].start..pieces[k].end])
  }

  lemma {:induction false} TailsOfPieces(words: seq<string>, w: nat)
    requires w + OVERLAP_WORDS < |words|
    ensures Tails(Cut(words, Pieces(|words|, w))) == words[w + OVERLAP_WORDS..]
    decreases |words| - w
  {
    var n := |words|;
    if w + TARGET_CHUNK_WORDS >= n {
      assert Cut(words, [Span(w, n)]) == [words[w..n]];
      TailsStep(words[w..n], []);
      assert Drop(words[w..n], OVERLAP_WORDS) == words[w + OVERLAP_WORDS..];
    } else {
      var head, rest := words[w..w + TARGET_CHUNK_WORDS], Cut(words, Pieces(n, w + STRIDE));
      TailsOfPieces(words, w + STRIDE);
      CutStep(words, Span(w, w + TARGET_CHUNK_WORDS), Pieces(n, w + STRIDE));
      TailsStep(head, rest);
      assert Drop(head, OVERLAP_WORDS) == words[w + OVERLAP_WORDS..w + TARGET_CHUNK_WORDS];
      assert words[w + OVERLAP_WORDS..w + TARGET_CHUNK_WORDS] + words[w + TARGET_CHUNK_WORDS..]
             == words[w + OVERLAP_WORDS..];
    }
  }

  lemma TailsStep(head: seq<string>, rest: seq<seq<string>>)
    ensures Tails([head] + rest) == Drop(head, OVERLAP_WORDS) + Tails(rest)
    ensures Rejoined([head] + rest) == head + Tails(rest)
  {
    assert ([head] + rest)[1..] == rest;
  }

  lemma OnePiece(words: seq<string>)
    requires 0 < |words| <= TARGET_CHUNK_WORDS
    ensures Rejoined(Cut(words, Pieces(|words|, 0))) == words
  {
    assert words[0..|words|] == words;
    assert Cut(words, [Span(0, |words|)]) == [words];
    TailsStep(words, []);
    assert [words] + [] == [words];
  }

  lemma ManyPieces(words: seq<string>, rest: seq<seq<string>>)
    requires TARGET_CHUNK_WORDS < |words| && Tails(rest) == words[TARGET_CHUNK_WORDS..]
    ensures Rejoined([words[0..TARGET_CHUNK_WORDS]] + rest) == words
  {
    TailsStep(words[0..TARGET_CHUNK_WORDS], rest);
    assert words[0..TARGET_CHUNK_WORDS] + words[TARGET_CHUNK_WORDS..] == words;
  }

  lemma PiecesRejoin(words: seq<string>)
    requires words != []
    ensures Rejoined(Cut(words, Pieces(|words|, 0))) == words
  {
    if |words| <= TARGET_CHUNK_WORDS {
      OnePiece(words);
    } else {
      var rest := Pieces(|words|, STRIDE);
      TailsOfPieces(words, STRIDE);
      assert Pieces(|words|, 0) == [Span(0, TARGET_CHUNK_WORDS)] + rest;
      CutStep(words, Span(0, TARGET_CHUNK_WORDS), rest);
      ManyPieces(words, Cut(words, rest));
    }
  }

  /** What splitting the texts of the chunks gives. */
  function TextWords(chunks: seq<Chunk>): (parts: seq<seq<string>>)
    ensures |parts| == |chunks|
  {
    seq(|chunks|, k requires 0 <= k < |chunks| => Words(chunks[k].text))
  }

  lemma TextsAreCut(chunks: seq<Chunk>, words: seq<string>, episode: Episode, pieces: seq<Span>)
    requires AreWords(words)
    requires WordChunksOf(chunks, words, episode, pieces)
    ensures TextWords(chunks) == Cut(words, pieces)
  {
    forall k | 0 <= k < |pieces| ensures TextWords(chunks)[k] == Cut(words, pieces)[k] {
      assert IsChunk(chunks[k], words, episode, k, pieces[k]);
      WordsOfJoin(words[pieces[k].start..pieces[k].end]);
    }
  }

  lemma WordsRejoin(chunks: seq<Chunk>, words: seq<string>, episode: Episode)
    requires words != [] && AreWords(words)
    requires WordChunksOf(chunks, words, episode, Pieces(|words|, 0))
    ensures Rejoined(TextWords(chunks)) == words
  {
    TextsAreCut(chunks, words, episode, Pieces(|words|, 0));
    PiecesRejoin(words);
  }

  /** From the chunk texts alone: dropping the first 100 words of every chunk after the first
      and concatenating gives the words of the transcript, in order, each once. */
  lemma ChunksRejoin(chunks: seq<Chunk>, segments: seq<Segment>, episode: Episode)
    requires ChunkedByWords(chunks, segments, episode)
    ensures Rejoined(TextWords(chunks)) == AllWords(segments)
  {
    AllWordsAreWords(segments);
    if AllWords(segments) != [] {
      WordsRejoin(chunks, AllWords(segments), episode);
    }
  }

  lemma TextSizes(chunks: seq<Chunk>, words: seq<string>, p: seq<Span>)
    requires forall k :: 0 <= k < |p| ==> p[k].start < p[k].end <= |words|
    requires TextWords(chunks) == Cut(words, p)
    ensures |chunks| == |p|
    ensures forall k :: 0 <= k < |chunks| ==> |TextWords(chunks)[k]| == p[k].end - p[k].start
  {
    assert |TextWords(chunks)| == |chunks|;
  }

  lemma WordSizes(chunks: seq<Chunk>, words: seq<string>, episode: Episode)
    requires words != [] && AreWords(words)
    requires WordChunksOf(chunks, words, episode, Pieces(|words|, 0))
    ensures |chunks| == Count(|words|)
    ensures forall k :: 0 <= k < |chunks| - 1 ==> |TextWords(chunks)[k]| == 800
    ensures |chunks| > 1 ==> |TextWords(chunks)[|chunks| - 1]| > 100
  {
    var p := Pieces(|words|, 0);
    TextsAreCut(chunks, words, episode, p);
    TextSizes(chunks, words, p);
    AllPieceSizes(|words|);
  }

  /** A transcript of n words gives no chunk for n = 0, otherwise one chunk up to 800 words and
      1 + ceil((n - 800) / 700) beyond; all but the last have 800 words, and a last one after
      the first more than the 100 it repeats. */
  lemma ChunkSizes(chunks: seq<Chunk>, segments: seq<Segment>, episode: Episode)
    requires ChunkedByWords(chunks, segments, episode)
    ensures |chunks| == if AllWords(segments) == [] then 0 else Count(|AllWords(segments)|)
    ensures forall k :: 0 <= k < |chunks| - 1 ==> |TextWords(chunks)[k]| == 800
    ensures |chunks| > 1 ==> |TextWords(chunks)[|chunks| - 1]| > 100
  {
    AllWordsAreWords(segments);
    if AllWords(segments) != [] {
      WordSizes(chunks, AllWords(segments), episode);
    }
  }
}
