/** `chunk_transcript`: by time when any segment has a start time, otherwise by words. */
module Chunking {
  import opened Transcripts
  import TimeChunks
  import WordChunks
  import WordSplit

  predicate HasTiming(segments: seq<Segment>) {
    exists i :: 0 <= i < |segments| && segments[i].start.Some?
  }

  ghost predicate ChunkedAs(chunks: seq<Chunk>, segments: seq<Segment>, episode: Episode) {
    if segments == [] then chunks == []
    else if HasTiming(segments) then TimeChunks.ChunksOf(chunks, segments, episode, TimeChunks.Spans(segments, 0))
    else WordChunks.ChunkedByWords(chunks, segments, episode)
  }

  method ChunkTranscript(segments: seq<Segment>, episode: Episode) returns (chunks: seq<Chunk>)
    ensures ChunkedAs(chunks, segments, episode)
  {
    if segments == [] {
      return [];
    }
    if HasTiming(segments) {
      chunks := TimeChunks.ChunkByTime(segments, episode);
    } else {
      chunks := WordChunks.ChunkByWords(segments, episode);
    }
  }

  /** Chunks are numbered from 0 in order and carry their episode. */
  ghost predicate Numbered(chunks: seq<Chunk>, episode: Episode) {
    forall k :: 0 <= k < |chunks| ==>
      && chunks[k].chunkId == ChunkId(episode.guid, k)
      && chunks[k].guid == episode.guid && chunks[k].number == episode.number && chunks[k].date == episode.date
  }

  lemma ChunksAreNumbered(chunks: seq<Chunk>, segments: seq<Segment>, episode: Episode)
    requires ChunkedAs(chunks, segments, episode)
    ensures Numbered(chunks, episode)
  {
  }

  /** A transcript gives no chunk exactly when it has no segment with a time and no word. */
  lemma NoChunkExactlyWhenEmpty(chunks: seq<Chunk>, segments: seq<Segment>, episode: Episode)
    requires ChunkedAs(chunks, segments, episode)
    ensures chunks == [] <==> !HasTiming(segments) && WordSplit.AllWords(segments) == []
  {
    if HasTiming(segments) {
      TimeChunks.SpansChain(segments, 0);
    }
  }

  /** Without times the texts of the chunks give back the words of the transcript. */
  lemma UntimedChunksRejoin(chunks: seq<Chunk>, segments: seq<Segment>, episode: Episode)
    requires ChunkedAs(chunks, segments, episode) && !HasTiming(segments)
    ensures WordChunks.Rejoined(WordChunks.TextWords(chunks)) == WordSplit.AllWords(segments)
  {
    assert WordChunks.ChunkedByWords(chunks, segments, episode);
    WordChunks.ChunksRejoin(chunks, segments, episode);
  }

  /** Chunk ids are unique across episodes with different guids, and within one. */
  lemma ChunkIdsAreUnique(a: seq<Chunk>, e: Episode, i: nat, b: seq<Chunk>, f: Episode, j: nat)
    requires Numbered(a, e) && Numbered(b, f) && i < |a| && j < |b|
    ensures a[i].chunkId == b[j].chunkId <==> e.guid == f.guid && i == j
  {
    if a[i].chunkId == b[j].chunkId {
      ChunkIdInjective(e.guid, i, f.guid, j);
    }
  }
}
