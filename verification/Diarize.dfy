/** Aligning transcript segments with speaker turns, and speaking time by label. */
module Diarize {
  import opened Options
  import opened Ordering
  import opened Transcripts

  datatype SpeakerSegment = SpeakerSegment(speaker: string, start: real, end: real)

  // ---------------------------------------------------------------- alignment

  function Overlap(start: real, end: real, s: SpeakerSegment): (o: real)
    ensures o >= 0.0
  {
    var from := if start >= s.start then start else s.start;
    var till := if end <= s.end then end else s.end;
    if till - from > 0.0 then till - from else 0.0
  }

  /** The stretch lies within the segment and within the turn. */
  predicate Shared(a: real, b: real, start: real, end: real, s: SpeakerSegment) {
    start <= a <= b <= end && s.start <= a && b <= s.end
  }

  /** The overlap is the length of the longest stretch that both share, and 0 if there is none. */
  lemma OverlapIsLongestShared(start: real, end: real, s: SpeakerSegment)
    ensures forall a, b :: Shared(a, b, start, end, s) ==> b - a <= Overlap(start, end, s)
    ensures Overlap(start, end, s) > 0.0 ==>
              exists a, b :: Shared(a, b, start, end, s) && b - a == Overlap(start, end, s)
  {
    var from := if start >= s.start then start else s.start;
    var till := if end <= s.end then end else s.end;
    if till - from > 0.0 {
      assert Shared(from, till, start, end, s);
    }
  }

  predicate Timed(t: Segment) { t.start.Some? && t.end.Some? }

  /** The first of the turns that overlap the segment most; none without times and none
      when no turn overlaps it. */
  function SpeakerOf(t: Segment, turns: seq<SpeakerSegment>): Option<string> {
    if Timed(t) then Best(t.start.value, t.end.value, turns).0 else None
  }

  function Best(start: real, end: real, turns: seq<SpeakerSegment>): (r: (Option<string>, real))
    ensures r.1 >= 0.0
  {
    if turns == [] then (None, 0.0)
    else
      var last := turns[|turns| - 1];
      var best := Best(start, end, turns[..|turns| - 1]);
      if Overlap(start, end, last) > best.1 then (Some(last.speaker), Overlap(start, end, last)) else best
  }

  method AlignSpeakers(transcript: seq<Segment>, turns: seq<SpeakerSegment>) returns (result: seq<Segment>)
    ensures |result| == |transcript|
    ensures forall i :: 0 <= i < |result| ==>
              result[i] == transcript[i].(speaker := SpeakerOf(transcript[i], turns))
  {
    result := [];
    for i := 0 to |transcript|
      invariant |result| == i
      invariant forall j :: 0 <= j < i ==> result[j] == transcript[j].(speaker := SpeakerOf(transcript[j], turns))
    {
      var t := transcript[i];
      var bestSpeaker, bestOverlap := None, 0.0;
      if Timed(t) {
        for k := 0 to |turns|
          invariant (bestSpeaker, bestOverlap) == Best(t.start.value, t.end.value, turns[..k])
        {
          assert turns[..k + 1][..k] == turns[..k];
          var overlap := Overlap(t.start.value, t.end.value, turns[k]);
          if overlap > bestOverlap {
            bestOverlap := overlap;
            bestSpeaker := Some(turns[k].speaker);
          }
        }
        assert turns[..|turns|] == turns;
      }
      result := result + [Segment(t.text, t.start, t.end, bestSpeaker)];
    }
  }

  /** Turn `k` overlaps at least as much as any other and more than every earlier one. */
  ghost predicate FirstLargest(start: real, end: real, turns: seq<SpeakerSegment>, k: nat) {
    && k < |turns| && Overlap(start, end, turns[k]) > 0.0
    && (forall j :: 0 <= j < |turns| ==> Overlap(start, end, turns[j]) <= Overlap(start, end, turns[k]))
    && (forall j :: 0 <= j < k ==> Overlap(start, end, turns[j]) < Overlap(start, end, turns[k]))
  }

  lemma {:induction false} BestIsFirstLargest(start: real, end: real, turns: seq<SpeakerSegment>)
    returns (k: nat)
    ensures var best := Best(start, end, turns);
            if forall j :: 0 <= j < |turns| ==> Overlap(start, end, turns[j]) == 0.0
            then best == (None, 0.0)
            else FirstLargest(start, end, turns, k) && best == (Some(turns[k].speaker), Overlap(start, end, turns[k]))
  {
    k := 0;
    if turns != [] {
      var n := |turns| - 1;
      var rest := turns[..n];
      k := BestIsFirstLargest(start, end, rest);
      assert forall j :: 0 <= j < n ==> rest[j] == turns[j];
      if Overlap(start, end, turns[n]) > Best(start, end, rest).1 {
        k := n;
      }
    }
  }

  /** A timed segment gets no label exactly when every overlap is zero, and otherwise the
      label of the first turn of largest overlap. */
  lemma AlignedToFirstLargest(t: Segment, turns: seq<SpeakerSegment>) returns (k: nat)
    requires Timed(t)
    ensures SpeakerOf(t, turns).None? <==>
            forall j :: 0 <= j < |turns| ==> Overlap(t.start.value, t.end.value, turns[j]) == 0.0
    ensures SpeakerOf(t, turns).Some? ==>
              FirstLargest(t.start.value, t.end.value, turns, k) && SpeakerOf(t, turns) == Some(turns[k].speaker)
  {
    k := BestIsFirstLargest(t.start.value, t.end.value, turns);
  }

  // ---------------------------------------------------------------- speaking time

  /** A dictionary: its keys in insertion order, and a value for each. */
  datatype Times = Times(keys: seq<string>, table: map<string, real>) {
    ghost predicate Valid() { Distinct(keys) && forall k :: k in keys <==> k in table }

    function Get(k: string): real { if k in table then table[k] else 0.0 }
  }

  function Duration(s: SpeakerSegment): real { s.end - s.start }

  function TotalOf(turns: seq<SpeakerSegment>, voice: string): real {
    if turns == [] then 0.0
    else
      TotalOf(turns[..|turns| - 1], voice)
      + if turns[|turns| - 1].speaker == voice then Duration(turns[|turns| - 1]) else 0.0
  }

  /** The labels, where each was first met. */
  function Labels(turns: seq<SpeakerSegment>): (ks: seq<string>)
    ensures Distinct(ks)
  {
    if turns == [] then []
    else
      var ks := Labels(turns[..|turns| - 1]);
      if turns[|turns| - 1].speaker in ks then ks else ks + [turns[|turns| - 1].speaker]
  }

  function TimesOf(turns: seq<SpeakerSegment>): (times: Times)
    ensures times.Valid()
  {
    Times(Labels(turns), map k | k in Labels(turns) :: TotalOf(turns, k))
  }

  lemma {:induction false} NoTime(turns: seq<SpeakerSegment>, voice: string)
    requires voice !in Labels(turns)
    ensures TotalOf(turns, voice) == 0.0
  {
    if turns != [] {
      NoTime(turns[..|turns| - 1], voice);
    }
  }

  function Spoken(times: Times, s: SpeakerSegment): Times {
    Times(if s.speaker in times.table then times.keys else times.keys + [s.speaker],
          times.table[s.speaker := times.Get(s.speaker) + (s.end - s.start)])
  }

  lemma OneMoreTurn(turns: seq<SpeakerSegment>, s: SpeakerSegment)
    ensures TimesOf(turns + [s]) == Spoken(TimesOf(turns), s)
  {
    assert (turns + [s])[..|turns|] == turns;
    if s.speaker !in Labels(turns) {
      NoTime(turns, s.speaker);
    }
    var was, now, told := TimesOf(turns), TimesOf(turns + [s]), Spoken(TimesOf(turns), s);
    assert now.keys == told.keys;
    assert now.table.Keys == told.table.Keys;
    forall k | k in now.table ensures now.table[k] == told.table[k] {
      assert now.table[k] == TotalOf(turns + [s], k);
    }
    assert now.table == told.table;
  }

  method SpeakingTimes(turns: seq<SpeakerSegment>) returns (times: Times)
    ensures times == TimesOf(turns)
  {
    times := Times([], map[]);
    for i := 0 to |turns|
      invariant times == TimesOf(turns[..i])
    {
      assert turns[..i + 1] == turns[..i] + [turns[i]];
      OneMoreTurn(turns[..i], turns[i]);
      times := Spoken(times, turns[i]);
    }
    assert turns[..|turns|] == turns;
  }

  function Sum(keys: seq<string>, f: string -> real): real {
    if keys == [] then 0.0 else Sum(keys[..|keys| - 1], f) + f(keys[|keys| - 1])
  }

  function Durations(turns: seq<SpeakerSegment>): real {
    if turns == [] then 0.0 else Durations(turns[..|turns| - 1]) + Duration(turns[|turns| - 1])
  }

  lemma {:induction false} LabelsHold(turns: seq<SpeakerSegment>, i: nat)
    requires i < |turns|
    ensures turns[i].speaker in Labels(turns)
  {
    if i < |turns| - 1 {
      LabelsHold(turns[..|turns| - 1], i);
    }
  }

  /** One label's total grows, the others stay. */
  lemma {:induction false} SumOneMore(keys: seq<string>, f: string -> real, g: string -> real, voice: string, d: real)
    requires Distinct(keys) && g(voice) == f(voice) + d && forall k :: k != voice ==> g(k) == f(k)
    ensures Sum(keys, g) == Sum(keys, f) + if voice in keys then d else 0.0
  {
    if keys != [] {
      var t, last := keys[..|keys| - 1], keys[|keys| - 1];
      assert keys == t + [last];
      SumOneMore(t, f, g, voice, d);
    }
  }

  function Total(turns: seq<SpeakerSegment>): string -> real { k => TotalOf(turns, k) }

  lemma {:induction false} SumOfTotals(turns: seq<SpeakerSegment>)
    ensures Sum(Labels(turns), Total(turns)) == Durations(turns)
  {
    if turns != [] {
      var t, last := turns[..|turns| - 1], turns[|turns| - 1];
      var ks := Labels(t);
      SumOfTotals(t);
      SumOneMore(ks, Total(t), Total(turns), last.speaker, Duration(last));
      if last.speaker !in ks {
        NoTime(t, last.speaker);
        assert (ks + [last.speaker])[..|ks|] == ks;
      }
    }
  }

  lemma {:induction false} SumSame(keys: seq<string>, f: string -> real, g: string -> real)
    requires forall k :: k in keys ==> f(k) == g(k)
    ensures Sum(keys, f) == Sum(keys, g)
  {
    if keys != [] {
      SumSame(keys[..|keys| - 1], f, g);
    }
  }

  function Seconds(times: Times): string -> real { k => times.Get(k) }

  /** Speaking time is conserved: the times of the labels sum to the durations of the turns,
      and each label's is the sum of its own. */
  lemma SpeakingTimeIsConserved(turns: seq<SpeakerSegment>)
    ensures var times := TimesOf(turns);
            && Sum(times.keys, Seconds(times)) == Durations(turns)
            && (forall k :: times.Get(k) == TotalOf(turns, k))
            && (forall i :: 0 <= i < |turns| ==> turns[i].speaker in times.keys)
  {
    var times := TimesOf(turns);
    SumOfTotals(turns);
    SumSame(times.keys, Seconds(times), Total(turns));
    forall k ensures times.Get(k) == TotalOf(turns, k) {
      if k !in times.keys {
        NoTime(turns, k);
      }
    }
    forall i | 0 <= i < |turns| ensures turns[i].speaker in times.keys {
      LabelsHold(turns, i);
    }
  }

  /** No turn ends before it starts. */
  predicate Forwards(turns: seq<SpeakerSegment>) {
    forall i :: 0 <= i < |turns| ==> turns[i].start <= turns[i].end
  }

  lemma {:induction false} TotalNonNegative(turns: seq<SpeakerSegment>, voice: string)
    requires Forwards(turns)
    ensures TotalOf(turns, voice) >= 0.0
  {
    if turns != [] {
      TotalNonNegative(turns[..|turns| - 1], voice);
    }
  }
}
