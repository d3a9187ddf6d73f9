/** Who speaks in a chunk: the labelled text and the list of turns. */
module Speech {
  import opened Options
  import opened Transcripts
  import opened WordSplit

  /** A speaker is absent, or present with a name that may be empty. */
  predicate Named(s: Segment) { s.speaker.Some? && s.speaker.value != "" }

  predicate AnyNamed(segments: seq<Segment>) {
    exists i :: 0 <= i < |segments| && Named(segments[i])
  }

  // ---------------------------------------------------------------- labelled text

  /** The last name given before segment `i`. */
  function InForce(segments: seq<Segment>, i: nat): Option<string>
    requires i <= |segments|
  {
    if i == 0 then None
    else if Named(segments[i - 1]) then segments[i - 1].speaker
    else InForce(segments, i - 1)
  }

  /** A segment is labelled when it names a speaker other than the one in force. */
  predicate Labelled(segments: seq<Segment>, i: nat)
    requires i < |segments|
  {
    Named(segments[i]) && segments[i].speaker != InForce(segments, i)
  }

  function Part(segments: seq<Segment>, i: nat): string
    requires i < |segments|
  {
    if Labelled(segments, i) then "[" + segments[i].speaker.value + "] " + segments[i].text else segments[i].text
  }

  function SpeakerText(segments: seq<Segment>): Option<string> {
    if !AnyNamed(segments) then None
    else Some(Join(seq(|segments|, i requires 0 <= i < |segments| => Part(segments, i))))
  }

  method BuildSpeakerText(segments: seq<Segment>) returns (text: Option<string>)
    ensures text == SpeakerText(segments)
  {
    if !AnyNamed(segments) {
      return None;
    }
    var parts: seq<string>, current: Option<string> := [], None;
    for i := 0 to |segments|
      invariant parts == seq(i, j requires 0 <= j < i => Part(segments, j))
      invariant current == InForce(segments, i)
    {
      var s := segments[i];
      if Named(s) && s.speaker != current {
        parts := parts + ["[" + s.speaker.value + "] " + s.text];
        current := s.speaker;
      } else {
        parts := parts + [s.text];
      }
    }
    return Some(Join(parts));
  }

  /** The last label at or before a named segment names its speaker; so two labels in a row
      name different speakers, and an unnamed segment reads as the speaker before it. */
  lemma {:induction false} LabelsAttribute(segments: seq<Segment>, i: nat) returns (j: nat)
    requires i < |segments| && InForce(segments, i + 1).Some?
    ensures j <= i && Labelled(segments, j) && segments[j].speaker == InForce(segments, i + 1)
    ensures forall k :: j < k <= i ==> !Labelled(segments, k)
    ensures Named(segments[i]) ==> segments[j].speaker == segments[i].speaker
  {
    if Labelled(segments, i) {
      j := i;
    } else {
      j := LabelsAttribute(segments, i - 1);
    }
  }

  /** The segment names a speaker other than the last one named before it, if any. */
  ghost predicate Changes(segments: seq<Segment>, i: nat)
    requires i < |segments|
  {
    && Named(segments[i])
    && forall j :: 0 <= j < i && Named(segments[j]) && (forall k :: j < k < i ==> !Named(segments[k])) ==>
         segments[j].speaker != segments[i].speaker
  }

  lemma {:induction false} InForceIsLastNamed(segments: seq<Segment>, i: nat) returns (j: int)
    requires i <= |segments|
    ensures -1 <= j < i && forall k :: j < k < i ==> !Named(segments[k])
    ensures if j < 0 then InForce(segments, i).None?
            else Named(segments[j]) && InForce(segments, i) == segments[j].speaker
  {
    if i == 0 {
      j := -1;
    } else if Named(segments[i - 1]) {
      j := i - 1;
    } else {
      j := InForceIsLastNamed(segments, i - 1);
    }
  }

  /** The labelled text is the texts joined, with the name in brackets before exactly those
      whose speaker changes; there is none when no segment names a speaker. */
  lemma LabelledText(segments: seq<Segment>) returns (parts: seq<string>)
    ensures SpeakerText(segments) == if AnyNamed(segments) then Some(Join(parts)) else None
    ensures |parts| == |segments|
    ensures forall i :: 0 <= i < |parts| ==>
              parts[i] == if Changes(segments, i) then "[" + segments[i].speaker.value + "] " + segments[i].text
                          else segments[i].text
  {
    parts := seq(|segments|, i requires 0 <= i < |segments| => Part(segments, i));
    forall i | 0 <= i < |segments| ensures Labelled(segments, i) <==> Changes(segments, i) {
      LabelledWhenChanged(segments, i);
    }
  }

  lemma LabelledWhenChanged(segments: seq<Segment>, i: nat)
    requires i < |segments|
    ensures Labelled(segments, i) <==> Changes(segments, i)
  {
    var j := InForceIsLastNamed(segments, i);
    if Labelled(segments, i) {
      forall l | 0 <= l < i && Named(segments[l]) && (forall k :: l < k < i ==> !Named(segments[k]))
        ensures segments[l].speaker != segments[i].speaker
      {
        assert l == j;
      }
    }
  }

  // ---------------------------------------------------------------- turns

  /** The first segment of the run of equal speakers that segment `i` is in. */
  function RunStart(segments: seq<Segment>, i: nat): (a: nat)
    requires i < |segments|
    ensures a <= i && segments[a].speaker == segments[i].speaker
  {
    if i == 0 || segments[i].speaker != segments[i - 1].speaker then i else RunStart(segments, i - 1)
  }

  /** The turn of a run: none without a speaker or without a start time. */
  function TurnAt(segments: seq<Segment>, a: nat, end: Option<real>): seq<Turn>
    requires a < |segments|
  {
    if segments[a].speaker.Some? && segments[a].start.Some?
    then [Turn(segments[a].speaker.value, segments[a].start.value, OrElse(end, segments[a].start.value))] else []
  }

  /** The turns of the runs that are over within the first `i` segments. */
  function Closed(segments: seq<Segment>, i: nat): seq<Turn>
    requires i <= |segments|
  {
    if i <= 1 then []
    else if segments[i - 1].speaker == segments[i - 2].speaker then Closed(segments, i - 1)
    else Closed(segments, i - 1) + TurnAt(segments, RunStart(segments, i - 2), segments[i - 1].start)
  }

  function AllTurns(segments: seq<Segment>): seq<Turn>
    requires segments != []
  {
    var last := |segments| - 1;
    Closed(segments, |segments|) + TurnAt(segments, RunStart(segments, last), segments[last].end)
  }

  function SpeakerTurns(segments: seq<Segment>): Option<seq<Turn>> {
    if !AnyNamed(segments) || AllTurns(segments) == [] then None else Some(AllTurns(segments))
  }

  method BuildSpeakerTurns(segments: seq<Segment>) returns (turns: Option<seq<Turn>>)
    ensures turns == SpeakerTurns(segments)
  {
    if !AnyNamed(segments) {
      return None;
    }
    var list: seq<Turn>, current: Option<string>, turnStart: Option<real> := [], None, None;
    for i := 0 to |segments|
      invariant list == Closed(segments, i)
      invariant i == 0 ==> current.None?
      invariant i > 0 ==> current == segments[i - 1].speaker
      invariant i > 0 && current.Some? ==> turnStart == segments[RunStart(segments, i - 1)].start
    {
      var s := segments[i];
      if s.speaker != current {
        if current.Some? && turnStart.Some? {
          list := list + [Turn(current.value, turnStart.value, OrElse(s.start, turnStart.value))];
        }
        current := s.speaker;
        turnStart := s.start;
      }
    }
    if current.Some? && turnStart.Some? {
      var end := segments[|segments| - 1].end;
      list := list + [Turn(current.value, turnStart.value, OrElse(end, turnStart.value))];
    }
    assert list == AllTurns(segments);
    return if list == [] then None else Some(list);
  }

  /** Turns that follow each other without a gap, between different speakers. */
  ghost predicate Abut(t: seq<Turn>) {
    forall k :: 0 <= k < |t| - 1 ==> t[k].end == t[k + 1].start && t[k].speaker != t[k + 1].speaker
  }

  ghost predicate FullyTimed(segments: seq<Segment>) {
    forall i :: 0 <= i < |segments| ==>
      segments[i].speaker.Some? && segments[i].start.Some? && segments[i].start.value != 0.0
  }

  lemma {:induction false} ClosedAbut(segments: seq<Segment>, i: nat)
    requires FullyTimed(segments) && 0 < i <= |segments|
    ensures var t, a := Closed(segments, i), RunStart(segments, i - 1);
            && Abut(t)
            && (t == [] ==> a == 0)
            && (t != [] ==> t[0].start == segments[0].start.value && t[|t| - 1].end == segments[a].start.value
                            && t[|t| - 1].speaker != segments[a].speaker.value)
  {
    if i > 1 {
      ClosedAbut(segments, i - 1);
      assert segments[i - 1].speaker.Some? && segments[i - 2].speaker.Some?;
    }
  }

  /** The turns follow each other from the first start to the last end. */
  ghost predicate Tile(t: seq<Turn>, segments: seq<Segment>) {
    && segments != [] && t != [] && Abut(t)
    && segments[0].start == Some(t[0].start)
    && segments[|segments| - 1].speaker == Some(t[|t| - 1].speaker)
    && t[|t| - 1].end == OrElse(segments[|segments| - 1].end, t[|t| - 1].start)
  }

  /** When every segment has a speaker and a start time other than 0, the turns tile the
      chunk from its first start to its last end. */
  lemma TurnsTile(segments: seq<Segment>)
    requires FullyTimed(segments) && AnyNamed(segments)
    ensures SpeakerTurns(segments).Some? && Tile(SpeakerTurns(segments).value, segments)
  {
    ClosedAbut(segments, |segments|);
  }

  /** A run of equal speakers begins here. */
  predicate Begins(segments: seq<Segment>, i: nat) {
    i < |segments| && (i == 0 || segments[i].speaker != segments[i - 1].speaker)
  }

  /** So does a turn: the run has a speaker and a start time. */
  predicate Opens(segments: seq<Segment>, i: nat) {
    Begins(segments, i) && segments[i].speaker.Some? && segments[i].start.Some?
  }

  /** The turn of the run from `a` up to `b`: it ends where the next run starts, the last one
      with the last segment, and without that time where it started. */
  ghost predicate TurnOf(segments: seq<Segment>, a: nat, b: nat, t: Turn) {
    && Opens(segments, a) && a < b <= |segments|
    && (b < |segments| ==> Begins(segments, b)) && (forall i :: a < i < b ==> !Begins(segments, i))
    && var end := if b < |segments| then segments[b].start else segments[|segments| - 1].end;
       t == Turn(segments[a].speaker.value, segments[a].start.value, OrElse(end, segments[a].start.value))
  }

  ghost predicate TurnFrom(segments: seq<Segment>, a: nat, t: Turn) { exists b: nat :: TurnOf(segments, a, b, t) }

  /** These turns are those of the runs that open at `at`, in order. */
  ghost predicate TurnsAt(segments: seq<Segment>, at: seq<nat>, turns: seq<Turn>) {
    && |at| == |turns| && (forall k, l :: 0 <= k < l < |at| ==> at[k] < at[l])
    && forall k :: 0 <= k < |at| ==> TurnFrom(segments, at[k], turns[k])
  }

  lemma {:induction false} RunStartBegins(segments: seq<Segment>, i: nat)
    requires i < |segments|
    ensures Begins(segments, RunStart(segments, i))
    ensures forall j :: RunStart(segments, i) < j <= i ==> !Begins(segments, j)
  {
    if i > 0 && segments[i].speaker == segments[i - 1].speaker {
      RunStartBegins(segments, i - 1);
    }
  }

  lemma OneMoreTurn(segments: seq<Segment>, at: seq<nat>, turns: seq<Turn>, a: nat, b: nat, end: Option<real>)
    returns (more: seq<nat>)
    requires TurnsAt(segments, at, turns) && forall k :: 0 <= k < |at| ==> at[k] < a
    requires Begins(segments, a) && a < b <= |segments| && (b < |segments| ==> Begins(segments, b))
    requires forall i :: a < i < b ==> !Begins(segments, i)
    requires end == if b < |segments| then segments[b].start else segments[|segments| - 1].end
    ensures TurnsAt(segments, more, turns + TurnAt(segments, a, end))
    ensures forall i: nat :: i in more <==> i in at || (i == a && Opens(segments, a))
  {
    if Opens(segments, a) {
      more := at + [a];
      var all := turns + TurnAt(segments, a, end);
      assert TurnOf(segments, a, b, all[|turns|]);
      forall k | 0 <= k < |more| ensures TurnFrom(segments, more[k], all[k]) {
      }
    } else {
      more := at;
      assert turns + TurnAt(segments, a, end) == turns;
    }
  }

  lemma {:induction false} ClosedPerRun(segments: seq<Segment>, i: nat) returns (at: seq<nat>)
    requires 0 < i <= |segments|
    ensures TurnsAt(segments, at, Closed(segments, i))
    ensures forall a: nat :: a in at <==> a < RunStart(segments, i - 1) && Opens(segments, a)
  {
    if i == 1 {
      at := [];
    } else {
      at := ClosedPerRun(segments, i - 1);
      if segments[i - 1].speaker != segments[i - 2].speaker {
        RunStartBegins(segments, i - 2);
        forall k | 0 <= k < |at| ensures at[k] < RunStart(segments, i - 2) {
          assert at[k] in at;
        }
        at := OneMoreTurn(
          segments, at, Closed(segments, i - 1), RunStart(segments, i - 2), i - 1, segments[i - 1].start);
      }
    }
  }

  /** For any segments, timed or not: there is exactly one turn, in order, for each run of
      equal speakers that has a speaker and a start time. */
  lemma TurnsAreTheRuns(segments: seq<Segment>) returns (at: seq<nat>)
    requires segments != []
    ensures TurnsAt(segments, at, AllTurns(segments))
    ensures forall a: nat :: a in at <==> Opens(segments, a)
    ensures AnyNamed(segments) && at != [] ==> SpeakerTurns(segments) == Some(AllTurns(segments))
    ensures at == [] ==> SpeakerTurns(segments) == None
  {
    var n := |segments|;
    at := ClosedPerRun(segments, n);
    RunStartBegins(segments, n - 1);
    forall k | 0 <= k < |at| ensures at[k] < RunStart(segments, n - 1) {
      assert at[k] in at;
    }
    at := OneMoreTurn(segments, at, Closed(segments, n), RunStart(segments, n - 1), n, segments[n - 1].end);
  }

  // ---------------------------------------------------------------- chunks

  function ChunkOf(segments: seq<Segment>, episode: Episode, index: nat): Chunk
    requires segments != []
  {
    Chunk(ChunkId(episode.guid, index), episode.guid,
          Join(TextsOf(segments)),
          episode.title, episode.date, segments[0].start, segments[|segments| - 1].end, episode.number,
          SpeakerText(segments), SpeakerTurns(segments))
  }

  /** What a chunk promises about its segments: the words of its text are theirs, in order;
      it begins and ends with them; it is labelled, and has turns, only when one of them names
      a speaker, and it bears the id of its episode and index. */
  ghost predicate Tells(c: Chunk, segments: seq<Segment>, episode: Episode, index: nat)
    requires segments != []
  {
    && Words(c.text) == AllWords(segments)
    && c.start == segments[0].start && c.end == segments[|segments| - 1].end
    && c.chunkId == ChunkId(episode.guid, index) && c.guid == episode.guid
    && c.number == episode.number && c.title == episode.title && c.date == episode.date
    && (c.speakerText.Some? <==> AnyNamed(segments)) && (c.turns.Some? ==> AnyNamed(segments))
    && (FullyTimed(segments) && AnyNamed(segments) ==> c.turns.Some? && Tile(c.turns.value, segments))
  }

  lemma ChunkWords(segments: seq<Segment>, episode: Episode, index: nat)
    requires segments != []
    ensures Words(ChunkOf(segments, episode, index).text) == AllWords(segments)
  {
    WordsOfTexts(segments);
  }

  lemma ChunkTells(segments: seq<Segment>, episode: Episode, index: nat)
    requires segments != []
    ensures Tells(ChunkOf(segments, episode, index), segments, episode, index)
  {
    ChunkWords(segments, episode, index);
    if FullyTimed(segments) && AnyNamed(segments) {
      TurnsTile(segments);
    }
  }

  method MakeChunk(segments: seq<Segment>, episode: Episode, index: nat) returns (c: Chunk)
    requires segments != []
    ensures Tells(c, segments, episode, index)
    ensures c == ChunkOf(segments, episode, index)
  {
    ChunkTells(segments, episode, index);
    var text := BuildSpeakerText(segments);
    var turns := BuildSpeakerTurns(segments);
    c := Chunk(ChunkId(episode.guid, index), episode.guid, Join(TextsOf(segments)),
               episode.title, episode.date, segments[0].start, segments[|segments| - 1].end, episode.number,
               text, turns);
  }
}
