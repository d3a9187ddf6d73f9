/** Incremental ingest: which episodes of the feed are new, and the next version of the corpus. */
module Ingest {
  import opened Options
  import opened Ordering
  import opened Frames
  import opened Artifact
  import opened Transcripts
  import opened Chunking
  import Decimal
  import Publishing
  import Retrieval

  // ---------------------------------------------------------------- version names

  function VersionName(n: nat): string { "v" + Decimal.Padded(n) }

  /** Absent when the number cannot be read. */
  function NextVersion(current: Option<string>): Option<string> {
    if current.None? || current.value == "" || current.value[0] != 'v' then Some(VersionName(1))
    else if current.value[1..] == "" || !Decimal.AllDigits(current.value[1..]) then None
    else Some(VersionName(Decimal.Value(current.value[1..]) + 1))
  }

  lemma {:induction false} VersionReads(n: nat)
    ensures var name := VersionName(n);
            && name[0] == 'v' && name[1..] != "" && Decimal.AllDigits(name[1..]) && Decimal.Value(name[1..]) == n
  {
    assert VersionName(n)[1..] == Decimal.Padded(n);
  }

  /** The successor of version n is version n + 1, and names of different versions differ,
      past four digits as well. */
  lemma {:induction false} NextVersionFollows(n: nat, m: nat)
    ensures NextVersion(Some(VersionName(n))) == Some(VersionName(n + 1))
    ensures VersionName(n) == VersionName(m) ==> n == m
  {
    VersionReads(n);
    VersionReads(m);
  }

  // ---------------------------------------------------------------- rows

  /** What transcribing, chunking and embedding an episode gives. */
  type Work = Episode -> (seq<Chunk>, seq<seq<Word>>)

  function NumberOf(number: Option<int>): int { if number.Some? then number.value else 0 }

  function MetaOf(c: Chunk): Meta {
    Meta(c.guid, NumberOf(c.number), c.date,
         if c.turns.Some? then set t | t in c.turns.value :: Retrieval.SpeakerFlag(t.speaker) else {})
  }

  predicate HasTurnBy(c: Chunk, name: string) {
    c.turns.Some? && exists i :: 0 <= i < |c.turns.value| && Retrieval.SameName(c.turns.value[i].speaker, name)
  }

  /** From chunking to search: the speaker filter finds a chunk exactly when one of its turns
      is by a speaker of that name, up to case. */
  lemma SpeakerFilterFindsTurns(c: Chunk, name: string)
    requires name != ""
    ensures Retrieval.Passes(MetaOf(c), Retrieval.Filter(None, None, None, Some(name)))
            <==> HasTurnBy(c, name)
  {
    if c.turns.Some? {
      var turns := c.turns.value;
      forall t | t in turns
        ensures Retrieval.SpeakerFlag(t.speaker) == Retrieval.SpeakerFlag(name)
                <==> Retrieval.SameName(t.speaker, name)
      {
        Retrieval.FlagsFold(t.speaker, name);
      }
      if i :| 0 <= i < |turns| && Retrieval.SameName(turns[i].speaker, name) {
        assert turns[i] in turns;
      }
    }
  }

  function RowOf(c: Chunk, embedding: seq<Word>): Row {
    Row(c.chunkId, Some(c.text), embedding, MetaOf(c))
  }

  function Paired(chunks: seq<Chunk>, embeddings: seq<seq<Word>>): nat {
    if |chunks| <= |embeddings| then |chunks| else |embeddings|
  }

  /** The rows of an episode; the longer of the two lists is cut. */
  function EpisodeRows(work: Work, e: Episode): Rows { ChunkRows(work(e).0, work(e).1) }

  function ChunkRows(chunks: seq<Chunk>, embeddings: seq<seq<Word>>): Rows {
    seq(Paired(chunks, embeddings), i requires 0 <= i < Paired(chunks, embeddings) => RowOf(chunks[i], embeddings[i]))
  }

  function AllRows(work: Work, episodes: seq<Episode>): Rows {
    if episodes == [] then []
    else AllRows(work, episodes[..|episodes| - 1]) + EpisodeRows(work, episodes[|episodes| - 1])
  }

  /** The rows of a corpus in memory. */
  function CorpusRows(c: Corpus): Rows
    requires |c.ids| == |c.docs| == |c.embeddings| == |c.metas|
  {
    seq(|c.ids|, i requires 0 <= i < |c.ids| => Row(c.ids[i], c.docs[i], c.embeddings[i], c.metas[i]))
  }

  /** Loading a corpus and taking its rows apart gives back the published rows, so an ingest
      run appends to exactly what was there. */
  lemma LoadedRowsSurvive(env: Env, c: Corpus, rows: Rows, dims: nat)
    requires Publishing.Serves(env, c, rows) && Uniform(Vectors(rows), dims)
    ensures |c.ids| == |c.docs| == |c.embeddings| == |c.metas| && CorpusRows(c) == rows
  {
    if rows != [] {
      UniformReshape(Vectors(rows), dims);
    }
    assert Decoded(rows) == Some(Vectors(rows));
    assert c.embeddings == Vectors(rows);
    forall i | 0 <= i < |rows| ensures CorpusRows(c)[i] == rows[i] {
    }
  }

  // ---------------------------------------------------------------- selection

  function Guids(rows: Rows): set<string> { set i | 0 <= i < |rows| :: rows[i].meta.guid }

  function MaxNumber(rows: Rows): int {
    if rows == [] then 0
    else
      var n, rest := rows[|rows| - 1].meta.number, rows[..|rows| - 1];
      if rest == [] || n > MaxNumber(rest) then n else MaxNumber(rest)
  }

  predicate IsNew(rows: Rows, backfill: bool, e: Episode) {
    && e.guid !in Guids(rows)
    && (backfill || (e.number.Some? && e.number.value != 0 && e.number.value > MaxNumber(rows)))
  }

  function Select(rows: Rows, backfill: bool, feed: seq<Episode>): (s: seq<Episode>)
    ensures forall e :: e in s <==> e in feed && IsNew(rows, backfill, e)
  {
    if feed == [] then []
    else
      var rest, last := Select(rows, backfill, feed[..|feed| - 1]), feed[|feed| - 1];
      if IsNew(rows, backfill, last) then rest + [last] else rest
  }

  function NumberKey(e: Episode): real { NumberOf(e.number) as real }

  /** The new episodes, by number. */
  function Pending(rows: Rows, backfill: bool, feed: seq<Episode>): seq<Episode> {
    SortBy(Select(rows, backfill, feed), NumberKey)
  }

  /** The version after the current one with the new rows behind the old; absent when there
      is nothing new. */
  function Ingest(version: nat, rows: Rows, feed: seq<Episode>, backfill: bool, work: Work): Option<(nat, Rows)> {
    if Select(rows, backfill, feed) == [] then None
    else Some((version + 1, rows + AllRows(work, Pending(rows, backfill, feed))))
  }

  method AppendRows(rows: Rows, chunks: seq<Chunk>, embeddings: seq<seq<Word>>) returns (all: Rows)
    ensures all == rows + ChunkRows(chunks, embeddings)
  {
    all := rows;
    for j := 0 to Paired(chunks, embeddings)
      invariant all == rows + ChunkRows(chunks, embeddings)[..j]
    {
      all := all + [RowOf(chunks[j], embeddings[j])];
    }
  }

  method IngestIncremental(version: nat, corpus: Corpus, feed: seq<Episode>, backfill: bool, work: Work)
    returns (published: Option<(nat, Rows)>)
    requires |corpus.ids| == |corpus.docs| == |corpus.embeddings| == |corpus.metas|
    ensures published == Ingest(version, CorpusRows(corpus), feed, backfill, work)
  {
    var rows := CorpusRows(corpus);
    var selected := Select(rows, backfill, feed);
    if selected == [] {
      return None;
    }
    rows := AppendEpisodes(rows, SortBy(selected, NumberKey), work);
    return Some((version + 1, rows));
  }

  method AppendEpisodes(rows: Rows, episodes: seq<Episode>, work: Work) returns (all: Rows)
    ensures all == rows + AllRows(work, episodes)
  {
    all := rows;
    for i := 0 to |episodes|
      invariant all == rows + AllRows(work, episodes[..i])
    {
      assert episodes[..i + 1][..i] == episodes[..i];
      var (chunks, embeddings) := work(episodes[i]);
      all := AppendRows(all, chunks, embeddings);
    }
    assert episodes[..|episodes|] == episodes;
  }

  // ---------------------------------------------------------------- one run

  /** The chunks of an episode are those of some transcript of it. */
  ghost predicate FromTranscript(chunks: seq<Chunk>, e: Episode) {
    exists segments :: ChunkedAs(chunks, segments, e)
  }

  ghost predicate WorkOk(work: Work) {
    forall e :: FromTranscript(work(e).0, e)
  }

  /** So they come out numbered from 0, under the guid of the episode. */
  lemma WorkIsNumbered(work: Work, e: Episode)
    requires WorkOk(work)
    ensures Numbered(work(e).0, e)
  {
    assert FromTranscript(work(e).0, e);
    var segments :| ChunkedAs(work(e).0, segments, e);
    ChunksAreNumbered(work(e).0, segments, e);
  }

  ghost predicate DistinctGuids(feed: seq<Episode>) {
    forall i, j :: 0 <= i < j < |feed| ==> feed[i].guid != feed[j].guid
  }

  /** A row carries an id of its own episode. */
  predicate OwnId(r: Row, k: nat) { r.chunkId == ChunkId(r.meta.guid, k) }

  ghost predicate HasOwnId(r: Row) { exists k: nat :: OwnId(r, k) }

  ghost predicate UniqueIds(rows: Rows) {
    && (forall i :: 0 <= i < |rows| ==> HasOwnId(rows[i]))
    && (forall i, j :: 0 <= i < j < |rows| ==> rows[i].chunkId != rows[j].chunkId)
  }

  lemma EpisodeRowsUnique(work: Work, e: Episode)
    requires WorkOk(work)
    ensures UniqueIds(EpisodeRows(work, e))
    ensures forall i :: 0 <= i < |EpisodeRows(work, e)| ==>
              EpisodeRows(work, e)[i].meta.guid == e.guid && EpisodeRows(work, e)[i].meta.number == NumberOf(e.number)
  {
    var rows := EpisodeRows(work, e);
    WorkIsNumbered(work, e);
    forall i | 0 <= i < |rows| ensures HasOwnId(rows[i]) && rows[i].chunkId == ChunkId(e.guid, i) {
      assert OwnId(rows[i], i);
    }
    forall i, j | 0 <= i < j < |rows| ensures rows[i].chunkId != rows[j].chunkId {
      if rows[i].chunkId == rows[j].chunkId {
        ChunkIdInjective(e.guid, i, e.guid, j);
      }
    }
  }

  /** A row carries its chunk: id, text, number, day and guid, with the vector of its place. */
  lemma RowsCarryTheChunks(work: Work, e: Episode, i: nat)
    requires WorkOk(work) && i < |EpisodeRows(work, e)|
    ensures var (chunks, vectors) := work(e);
            && |EpisodeRows(work, e)| == (if |chunks| <= |vectors| then |chunks| else |vectors|)
            && var row := EpisodeRows(work, e)[i];
               && row.text == Some(chunks[i].text) && row.embedding == vectors[i]
               && row.chunkId == chunks[i].chunkId == ChunkId(e.guid, i)
               && row.meta.guid == e.guid && row.meta.date == e.date && row.meta.number == NumberOf(e.number)
  {
    WorkIsNumbered(work, e);
  }

  predicate NumbersRise(rows: Rows) {
    forall i, j :: 0 <= i < j < |rows| ==> rows[i].meta.number <= rows[j].meta.number
  }

  lemma {:induction false} RowsByNumber(work: Work, s: seq<Episode>)
    requires WorkOk(work) && Sorted(s, NumberKey)
    ensures NumbersRise(AllRows(work, s))
    ensures forall i :: 0 <= i < |AllRows(work, s)| ==>
              s != [] && AllRows(work, s)[i].meta.number <= NumberOf(s[|s| - 1].number)
  {
    if s != [] {
      var t, e := s[..|s| - 1], s[|s| - 1];
      RowsByNumber(work, t);
      EpisodeRowsUnique(work, e);
      assert t != [] ==> NumberKey(s[|s| - 2]) <= NumberKey(e) && t[|t| - 1] == s[|s| - 2];
    }
  }

  /** What one run appends goes by episode number, whatever the order of the feed. */
  lemma NewRowsGoByNumber(work: Work, rows: Rows, feed: seq<Episode>, backfill: bool)
    requires WorkOk(work)
    ensures NumbersRise(AllRows(work, Pending(rows, backfill, feed)))
    ensures multiset(Pending(rows, backfill, feed)) == multiset(Select(rows, backfill, feed))
  {
    SortSorted(Select(rows, backfill, feed), NumberKey);
    RowsByNumber(work, Pending(rows, backfill, feed));
  }

  /** Rows of different episodes have different ids. */
  lemma UniqueTogether(a: Rows, b: Rows)
    requires UniqueIds(a) && UniqueIds(b) && Guids(a) !! Guids(b)
    ensures UniqueIds(a + b)
  {
    var s := a + b;
    forall i | 0 <= i < |s| ensures HasOwnId(s[i]) {
      assert i < |a| ==> s[i] == a[i];
      assert i >= |a| ==> s[i] == b[i - |a|];
    }
    forall i, j | 0 <= i < j < |s| ensures s[i].chunkId != s[j].chunkId {
      if i < |a| <= j {
        var x, y := a[i], b[j - |a|];
        assert x.meta.guid in Guids(a) && y.meta.guid in Guids(b);
        assert HasOwnId(x) && HasOwnId(y);
        var k: nat :| OwnId(x, k);
        var l: nat :| OwnId(y, l);
        if x.chunkId == y.chunkId {
          ChunkIdInjective(x.meta.guid, k, y.meta.guid, l);
        }
      }
    }
  }

  lemma GuidsConcat(a: Rows, b: Rows)
    ensures Guids(a + b) == Guids(a) + Guids(b)
  {
    forall g | g in Guids(a) + Guids(b) ensures g in Guids(a + b) {
      if g in Guids(a) {
        var i :| 0 <= i < |a| && a[i].meta.guid == g;
        assert (a + b)[i] == a[i];
      } else {
        var i :| 0 <= i < |b| && b[i].meta.guid == g;
        assert (a + b)[|a| + i] == b[i];
      }
    }
  }

  function EpisodeGuids(s: seq<Episode>): set<string> { set i | 0 <= i < |s| :: s[i].guid }

  lemma LastGuid(s: seq<Episode>)
    requires s != [] && DistinctGuids(s)
    ensures var t, e := s[..|s| - 1], s[|s| - 1];
            DistinctGuids(t) && e.guid !in EpisodeGuids(t) && EpisodeGuids(t) + {e.guid} <= EpisodeGuids(s)
  {
    var t := s[..|s| - 1];
    assert forall i :: 0 <= i < |t| ==> t[i] == s[i];
  }

  lemma OneMoreEpisode(a: Rows, b: Rows, guids: set<string>, guid: string)
    requires UniqueIds(a) && UniqueIds(b) && Guids(a) <= guids && Guids(b) <= {guid} && guid !in guids
    ensures UniqueIds(a + b) && Guids(a + b) <= guids + {guid}
  {
    UniqueTogether(a, b);
    GuidsConcat(a, b);
  }

  lemma {:induction false} AllRowsUnique(work: Work, s: seq<Episode>)
    requires WorkOk(work) && DistinctGuids(s)
    ensures UniqueIds(AllRows(work, s)) && Guids(AllRows(work, s)) <= EpisodeGuids(s)
  {
    if s != [] {
      var t, e := s[..|s| - 1], s[|s| - 1];
      LastGuid(s);
      AllRowsUnique(work, t);
      EpisodeRowsUnique(work, e);
      OneMoreEpisode(AllRows(work, t), EpisodeRows(work, e), EpisodeGuids(t), e.guid);
    }
  }

  lemma {:induction false} SelectDistinct(rows: Rows, backfill: bool, feed: seq<Episode>)
    requires DistinctGuids(feed)
    ensures DistinctGuids(Select(rows, backfill, feed))
  {
    if feed != [] {
      var t, e := feed[..|feed| - 1], feed[|feed| - 1];
      SelectDistinct(rows, backfill, t);
      var s := Select(rows, backfill, t);
      forall i | 0 <= i < |s| ensures s[i].guid != e.guid {
        assert s[i] in t;
      }
    }
  }

  lemma PendingDistinct(rows: Rows, backfill: bool, feed: seq<Episode>)
    requires DistinctGuids(feed)
    ensures DistinctGuids(Pending(rows, backfill, feed))
    ensures forall e :: e in Pending(rows, backfill, feed) <==> e in feed && IsNew(rows, backfill, e)
  {
    var s, p := Select(rows, backfill, feed), Pending(rows, backfill, feed);
    SelectDistinct(rows, backfill, feed);
    assert Distinct(s);
    PermutationDistinct(s, p);
    forall e ensures e in p <==> e in s {
      SameElements(s, p, e);
    }
    forall i, j | 0 <= i < j < |p| ensures p[i].guid != p[j].guid {
      assert p[i] in s && p[j] in s && p[i] != p[j];
    }
  }

  /** A publish keeps every row where it was, raises the version by one, and keeps chunk ids
      unique across the corpus. */
  lemma IngestKeepsIds(version: nat, rows: Rows, feed: seq<Episode>, backfill: bool, work: Work)
    requires WorkOk(work) && DistinctGuids(feed) && UniqueIds(rows)
    ensures var r := Ingest(version, rows, feed, backfill, work);
            r.Some? ==> r.value.0 == version + 1 && rows <= r.value.1 && UniqueIds(r.value.1)
  {
    var p := Pending(rows, backfill, feed);
    PendingDistinct(rows, backfill, feed);
    AllRowsUnique(work, p);
    forall g | g in EpisodeGuids(p) ensures g !in Guids(rows) {
      var i :| 0 <= i < |p| && p[i].guid == g;
      assert p[i] in p;
    }
    UniqueTogether(rows, AllRows(work, p));
  }

  // ---------------------------------------------------------------- any sequence of runs

  /** One run; a run may also fail before it publishes. */
  datatype Job = Job(feed: seq<Episode>, backfill: bool, work: Work, fails: bool)

  datatype State = State(version: nat, rows: Rows)

  function After(s: State, j: Job): State {
    var r := Ingest(s.version, s.rows, j.feed, j.backfill, j.work);
    if j.fails || r.None? then s else State(r.value.0, r.value.1)
  }

  function Versions(s: State, jobs: seq<Job>): (h: seq<State>)
    ensures |h| == |jobs| + 1 && h[0] == s
    decreases |jobs|
  {
    if jobs == [] then [s] else [s] + Versions(After(s, jobs[0]), jobs[1..])
  }

  ghost predicate JobsOk(jobs: seq<Job>) {
    forall i :: 0 <= i < |jobs| ==> WorkOk(jobs[i].work) && DistinctGuids(jobs[i].feed)
  }

  ghost predicate Grows(s: State, u: State) {
    s.rows <= u.rows && s.version <= u.version && (s.version == u.version ==> s == u)
  }

  lemma AfterGrows(s: State, j: Job)
    requires WorkOk(j.work) && DistinctGuids(j.feed) && UniqueIds(s.rows)
    ensures Grows(s, After(s, j)) && UniqueIds(After(s, j).rows) && After(s, j).version <= s.version + 1
  {
    IngestKeepsIds(s.version, s.rows, j.feed, j.backfill, j.work);
  }

  lemma {:induction false} VersionsGrow(s: State, jobs: seq<Job>, i: nat)
    requires JobsOk(jobs) && UniqueIds(s.rows) && i <= |jobs|
    ensures UniqueIds(Versions(s, jobs)[i].rows) && Grows(s, Versions(s, jobs)[i])
    ensures i < |jobs| ==> Versions(s, jobs)[i + 1] == After(Versions(s, jobs)[i], jobs[i])
    decreases |jobs|
  {
    if i > 0 {
      AfterGrows(s, jobs[0]);
      VersionsGrow(After(s, jobs[0]), jobs[1..], i - 1);
    }
  }

  lemma VersionsTail(s: State, jobs: seq<Job>)
    requires jobs != []
    ensures Versions(s, jobs) == [s] + Versions(After(s, jobs[0]), jobs[1..])
  {
  }

  lemma TailOfTail<T>(x: T, rest: seq<T>, i: nat)
    requires 0 < i <= |rest|
    ensures ([x] + rest)[i..] == rest[i - 1..] && ([x] + rest)[i] == rest[i - 1]
  {
  }

  lemma {:induction false} VersionsSplit(s: State, jobs: seq<Job>, i: nat)
    requires i <= |jobs|
    ensures Versions(Versions(s, jobs)[i], jobs[i..]) == Versions(s, jobs)[i..]
    decreases i
  {
    if i == 0 {
      assert jobs[0..] == jobs;
    } else {
      VersionsSplit(After(s, jobs[0]), jobs[1..], i - 1);
      VersionsTail(s, jobs);
      TailOfTail(s, Versions(After(s, jobs[0]), jobs[1..]), i);
      assert jobs[1..][i - 1..] == jobs[i..];
    }
  }

  /** Over any sequence of runs, of either mode and with any failures: rows are only ever
      appended, versions go up by one per publish and only then, equal versions mean equal
      rows, and chunk ids stay unique. */
  lemma RunsOnlyAppend(s: State, jobs: seq<Job>, i: nat, l: nat)
    requires JobsOk(jobs) && UniqueIds(s.rows) && i <= l <= |jobs|
    ensures var h := Versions(s, jobs);
            && UniqueIds(h[l].rows) && Grows(h[i], h[l])
            && (i < |jobs| ==> h[i + 1] == After(h[i], jobs[i]) && h[i + 1].version <= h[i].version + 1)
  {
    VersionsGrow(s, jobs, i);
    VersionsGrow(s, jobs, l);
    LaterGrows(s, jobs, i, l);
    if i < |jobs| {
      AfterGrows(Versions(s, jobs)[i], jobs[i]);
    }
  }

  lemma LaterGrows(s: State, jobs: seq<Job>, i: nat, l: nat)
    requires JobsOk(jobs) && i <= l <= |jobs| && UniqueIds(Versions(s, jobs)[i].rows)
    ensures Grows(Versions(s, jobs)[i], Versions(s, jobs)[l])
  {
    VersionsSplit(s, jobs, i);
    VersionsGrow(Versions(s, jobs)[i], jobs[i..], l - i);
  }

  // ---------------------------------------------------------------- running again

  lemma {:induction false} MaxIsMax(rows: Rows, i: nat)
    requires i < |rows|
    ensures rows[i].meta.number <= MaxNumber(rows)
  {
    if i < |rows| - 1 {
      MaxIsMax(rows[..|rows| - 1], i);
    }
  }

  lemma {:induction false} MaxIsHeld(rows: Rows) returns (i: nat)
    requires rows != []
    ensures i < |rows| && rows[i].meta.number == MaxNumber(rows)
  {
    var rest := rows[..|rows| - 1];
    if rest == [] || rows[|rows| - 1].meta.number > MaxNumber(rest) {
      i := |rows| - 1;
    } else {
      i := MaxIsHeld(rest);
    }
  }

  lemma {:induction false} MaxOfBoth(a: Rows, b: Rows)
    ensures MaxNumber(a + b)
            == if b == [] || (a != [] && MaxNumber(a) >= MaxNumber(b)) then MaxNumber(a) else MaxNumber(b)
  {
    if b == [] {
      assert a + b == a;
    } else {
      var t := b[..|b| - 1];
      assert (a + b)[..|a + b| - 1] == a + t;
      MaxOfBoth(a, t);
    }
  }

  /** No row of the corpus is from this episode or reaches its number. */
  predicate Unreached(rows: Rows, e: Episode) {
    && (rows == [] ==> NumberOf(e.number) > 0)
    && e.number.Some? && e.number.value != 0
    && forall i :: 0 <= i < |rows| ==> rows[i].meta.number < e.number.value
  }

  /** A run takes from the feed, in number, exactly the episodes whose guid no row has, and
      of those, going newest-forward, the ones numbered above every row. */
  lemma TakesExactlyTheNew(rows: Rows, feed: seq<Episode>, backfill: bool, e: Episode)
    ensures multiset(Pending(rows, backfill, feed))[e]
            == if (exists i :: 0 <= i < |rows| && rows[i].meta.guid == e.guid) then 0
               else if backfill || Unreached(rows, e) then multiset(feed)[e] else 0
  {
    SortSorted(Select(rows, backfill, feed), NumberKey);
    SelectCounts(rows, backfill, feed, e);
    forall i | 0 <= i < |rows| ensures rows[i].meta.number <= MaxNumber(rows) && rows[i].meta.guid in Guids(rows) {
      MaxIsMax(rows, i);
    }
    if rows != [] {
      var i := MaxIsHeld(rows);
    }
  }

  lemma {:induction false} SelectCounts(rows: Rows, backfill: bool, feed: seq<Episode>, e: Episode)
    ensures multiset(Select(rows, backfill, feed))[e] == if IsNew(rows, backfill, e) then multiset(feed)[e] else 0
  {
    if feed != [] {
      SelectCounts(rows, backfill, feed[..|feed| - 1], e);
      assert feed == feed[..|feed| - 1] + [feed[|feed| - 1]];
    }
  }

  predicate Produces(work: Work, e: Episode) { EpisodeRows(work, e) != [] }

  lemma {:induction false} RowFrom(work: Work, s: seq<Episode>, i: nat) returns (e: Episode)
    requires WorkOk(work) && i < |AllRows(work, s)|
    ensures e in s && Produces(work, e)
    ensures AllRows(work, s)[i].meta.guid == e.guid && AllRows(work, s)[i].meta.number == NumberOf(e.number)
  {
    var t, last := s[..|s| - 1], s[|s| - 1];
    if i < |AllRows(work, t)| {
      e := RowFrom(work, t, i);
    } else {
      e := last;
      EpisodeRowsUnique(work, last);
    }
  }

  lemma {:induction false} RowOfProducer(work: Work, s: seq<Episode>, e: Episode) returns (i: nat)
    requires WorkOk(work) && e in s && Produces(work, e)
    ensures i < |AllRows(work, s)| && AllRows(work, s)[i].meta.guid == e.guid
    ensures AllRows(work, s)[i].meta.number == NumberOf(e.number)
  {
    var t, last := s[..|s| - 1], s[|s| - 1];
    if e == last {
      i := |AllRows(work, t)|;
      EpisodeRowsUnique(work, e);
    } else {
      i := RowOfProducer(work, t, e);
    }
  }

  /** Some episode of at least this number produced a row. */
  ghost predicate Reached(work: Work, s: seq<Episode>, e: Episode) {
    exists f :: f in s && Produces(work, f) && NumberOf(f.number) >= NumberOf(e.number)
  }

  /** The highest number among the added rows is that of an episode that produced one. */
  lemma AddedMax(work: Work, p: seq<Episode>) returns (f: Episode)
    requires WorkOk(work) && AllRows(work, p) != []
    ensures f in p && Produces(work, f) && NumberOf(f.number) == MaxNumber(AllRows(work, p))
  {
    var m := MaxIsHeld(AllRows(work, p));
    f := RowFrom(work, p, m);
  }

  lemma ReachedIsOld(rows: Rows, work: Work, p: seq<Episode>, e: Episode)
    requires WorkOk(work) && Reached(work, p, e)
    ensures !IsNew(rows + AllRows(work, p), false, e)
  {
    var f: Episode :| f in p && Produces(work, f) && NumberOf(f.number) >= NumberOf(e.number);
    var i := RowOfProducer(work, p, f);
    MaxIsMax(AllRows(work, p), i);
    MaxOfBoth(rows, AllRows(work, p));
  }

  lemma NotReachedGuid(work: Work, p: seq<Episode>, e: Episode)
    requires WorkOk(work) && !Reached(work, p, e)
    requires forall f :: f in p && f.guid == e.guid ==> f == e
    ensures e.guid !in Guids(AllRows(work, p))
  {
    var added := AllRows(work, p);
    forall i | 0 <= i < |added| ensures added[i].meta.guid != e.guid {
      var f := RowFrom(work, p, i);
      assert NumberOf(f.number) < NumberOf(e.number);
    }
  }

  lemma NotReachedIsNew(rows: Rows, work: Work, p: seq<Episode>, e: Episode)
    requires WorkOk(work) && IsNew(rows, false, e) && !Reached(work, p, e)
    requires forall f :: f in p && f.guid == e.guid ==> f == e
    ensures IsNew(rows + AllRows(work, p), false, e)
  {
    GuidsConcat(rows, AllRows(work, p));
    NotReachedGuid(work, p, e);
    MaxOfBoth(rows, AllRows(work, p));
    if AllRows(work, p) != [] {
      var f := AddedMax(work, p);
      assert NumberOf(f.number) < NumberOf(e.number);
    }
  }

  /** What the new corpus still lacks of an episode that was pending. */
  lemma StillNew(rows: Rows, feed: seq<Episode>, work: Work, e: Episode)
    requires WorkOk(work) && DistinctGuids(feed)
    requires e in feed && IsNew(rows, false, e)
    ensures var p := Pending(rows, false, feed);
            IsNew(rows + AllRows(work, p), false, e) <==> !Reached(work, p, e)
  {
    var p := Pending(rows, false, feed);
    PendingDistinct(rows, false, feed);
    if Reached(work, p, e) {
      ReachedIsOld(rows, work, p, e);
    } else {
      NotReachedIsNew(rows, work, p, e);
    }
  }

  /** Running newest-forward again on the same feed changes nothing exactly when every new
      episode's number was reached by one that produced a chunk; in particular when the
      highest-numbered one did.  (Otherwise a further version is published, even when no
      episode produced anything.) */
  lemma RerunIsANoOpExactlyWhen(version: nat, rows: Rows, feed: seq<Episode>, work: Work)
    requires WorkOk(work) && DistinctGuids(feed)
    requires Ingest(version, rows, feed, false, work).Some?
    ensures var r, p := Ingest(version, rows, feed, false, work).value, Pending(rows, false, feed);
            Ingest(r.0, r.1, feed, false, work).None? <==> forall e :: e in p ==> Reached(work, p, e)
  {
    var p := Pending(rows, false, feed);
    var all := rows + AllRows(work, p);
    PendingDistinct(rows, false, feed);
    forall e | e in p ensures IsNew(all, false, e) <==> !Reached(work, p, e) {
      StillNew(rows, feed, work, e);
    }
    forall e | e in feed && IsNew(all, false, e) ensures e in p {
      OnlyOldOnes(rows, feed, work, e);
    }
    if Select(all, false, feed) == [] {
      forall e | e in p ensures Reached(work, p, e) {
        assert e !in Select(all, false, feed);
      }
    } else {
      var e := Select(all, false, feed)[0];
      assert e in Select(all, false, feed);
    }
  }

  /** What is new afterwards was new before. */
  lemma OnlyOldOnes(rows: Rows, feed: seq<Episode>, work: Work, e: Episode)
    requires WorkOk(work) && DistinctGuids(feed)
    requires IsNew(rows + AllRows(work, Pending(rows, false, feed)), false, e)
    ensures IsNew(rows, false, e)
  {
    var p := Pending(rows, false, feed);
    GuidsConcat(rows, AllRows(work, p));
    MaxOfBoth(rows, AllRows(work, p));
    if rows == [] && AllRows(work, p) != [] {
      PendingDistinct(rows, false, feed);
      var f := AddedMax(work, p);
      assert IsNew(rows, false, f);
    }
  }
}
