/** Transcript segments, episodes, chunks, and the identifiers of chunks. */
module Transcripts {
  import opened Options
  import Decimal

  datatype Segment = Segment(text: string, start: Option<real>, end: Option<real>, speaker: Option<string>)

  /** `date` is the publication day, as text. */
  datatype Episode = Episode(guid: string, title: string, date: string, number: Option<int>)

  datatype Turn = Turn(speaker: string, start: real, end: real)

  datatype Chunk = Chunk(
    chunkId: string, guid: string, text: string, title: string, date: string,
    start: Option<real>, end: Option<real>, number: Option<int>,
    speakerText: Option<string>, turns: Option<seq<Turn>>)

  /** `x or y` on an optional time: absent and 0.0 give `y`. */
  function OrElse(x: Option<real>, y: real): real {
    if x.Some? && x.value != 0.0 then x.value else y
  }

  function Join(parts: seq<string>): string {
    if parts == [] then ""
    else if |parts| == 1 then parts[0]
    else parts[0] + " " + Join(parts[1..])
  }

  /** The index range of a chunk. */
  datatype Span = Span(start: nat, end: nat)

  function ChunkId(guid: string, index: nat): string { guid + "_" + Decimal.Padded(index) }

  lemma LastUnderscore(g: string, i: nat)
    ensures ChunkId(g, i)[|g|] == '_'
    ensures forall k :: |g| < k < |ChunkId(g, i)| ==> ChunkId(g, i)[k] != '_'
  {
    var s, p := ChunkId(g, i), Decimal.Padded(i);
    forall k | |g| < k < |s| ensures s[k] != '_' {
      assert s[k] == p[k - |g| - 1];
      assert Decimal.IsDigit(p[k - |g| - 1]);
    }
  }

  /** A chunk id determines its episode and its index, whatever the guid looks like. */
  lemma ChunkIdInjective(g: string, i: nat, h: string, j: nat)
    requires ChunkId(g, i) == ChunkId(h, j)
    ensures g == h && i == j
  {
    var s := ChunkId(g, i);
    LastUnderscore(g, i);
    LastUnderscore(h, j);
    assert |g| == |h|;
    assert s[..|g|] == g && s[..|h|] == h;
    assert s[|g| + 1..] == Decimal.Padded(i) && s[|h| + 1..] == Decimal.Padded(j);
  }
}
