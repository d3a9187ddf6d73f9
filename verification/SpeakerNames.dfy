/** From diarization clusters to names: by speaking time, by voice, or generic. */
module SpeakerNames {
  import opened Options
  import opened Ordering
  import opened Transcripts
  import opened Diarize
  import Decimal
  import Vectors

  const SUBSTANTIVE_SPEAKER_SHARE := 0.15
  const VOICE_MATCH_MAX_DISTANCE := 0.5

  type Names = map<string, Option<string>>

  function Guest(n: nat): string { if n == 1 then "Guest" else "Guest " + Decimal.Digits(n) }

  lemma GuestsDiffer(n: nat, m: nat)
    requires Guest(n) == Guest(m)
    ensures n == m
  {
    if n != 1 && m != 1 {
      assert Guest(n)[6..] == Decimal.Digits(n) && Guest(m)[6..] == Decimal.Digits(m);
    }
  }

  // ---------------------------------------------------------------- by speaking time

  function Nonzero(x: real): real { if x == 0.0 then 1.0 else x }

  function TotalTime(times: Times): (t: real)
    ensures t != 0.0
  {
    Nonzero(Sum(times.keys, Seconds(times)))
  }

  function Loudest(times: Times): (ordered: seq<string>)
    ensures multiset(ordered) == multiset(times.keys)
  {
    SortDescending(times.keys, Seconds(times))
  }

  predicate Substantive(times: Times, voice: string) {
    times.Get(voice) / TotalTime(times) >= SUBSTANTIVE_SPEAKER_SHARE
  }

  /** The guests among the first `i` labels. */
  function Guests(times: Times, names: seq<string>, ordered: seq<string>, i: nat): nat
    requires i <= |ordered|
  {
    if i <= 1 then 0
    else
      Guests(times, names, ordered, i - 1)
      + if Substantive(times, ordered[i - 1]) && i - 1 >= |names| then 1 else 0
  }

  function NameAt(times: Times, names: seq<string>, ordered: seq<string>, i: nat): Option<string>
    requires i < |ordered|
  {
    if i == 0 then if names == [] then None else Some(names[0])
    else if !Substantive(times, ordered[i]) then None
    else if i < |names| then Some(names[i])
    else Some(Guest(Guests(times, names, ordered, i + 1)))
  }

  function FirstOnes(ordered: seq<string>, n: nat): set<string>
    requires n <= |ordered|
  {
    if n == 0 then {} else FirstOnes(ordered, n - 1) + {ordered[n - 1]}
  }

  ghost predicate NamedBy(nameMap: Names, times: Times, names: seq<string>, ordered: seq<string>, n: nat)
    requires n <= |ordered|
  {
    && nameMap.Keys == FirstOnes(ordered, n)
    && forall i :: 0 <= i < n ==> NameIs(nameMap, ordered[i], NameAt(times, names, ordered, i))
  }

  predicate NameIs(nameMap: Names, voice: string, name: Option<string>) {
    voice in nameMap && nameMap[voice] == name
  }

  lemma OneMoreName(
    nameMap: Names, times: Times, names: seq<string>, ordered: seq<string>, i: nat, name: Option<string>)
    requires i < |ordered| && Distinct(ordered) && NamedBy(nameMap, times, names, ordered, i)
    requires name == NameAt(times, names, ordered, i)
    ensures NamedBy(nameMap[ordered[i] := name], times, names, ordered, i + 1)
  {
  }

  method NameInOrder(times: Times, names: seq<string>, ordered: seq<string>) returns (nameMap: Names)
    requires Distinct(ordered)
    ensures NamedBy(nameMap, times, names, ordered, |ordered|)
  {
    var total := TotalTime(times);
    nameMap := map[];
    var guestCount := 0;
    for i := 0 to |ordered|
      invariant guestCount == Guests(times, names, ordered, i)
      invariant NamedBy(nameMap, times, names, ordered, i)
    {
      var share := times.Get(ordered[i]) / total;
      var name: Option<string> := None;
      if i == 0 {
        name := if names != [] then Some(names[0]) else None;
      } else if share >= SUBSTANTIVE_SPEAKER_SHARE {
        if i < |names| {
          name := Some(names[i]);
        } else {
          guestCount := guestCount + 1;
          name := Some(Guest(guestCount));
        }
      }
      OneMoreName(nameMap, times, names, ordered, i, name);
      nameMap := nameMap[ordered[i] := name];
    }
  }

  method AssignSubstantiveSpeakers(times: Times, names: seq<string>) returns (nameMap: Names)
    requires times.Valid()
    ensures NamedBy(nameMap, times, names, Loudest(times), |Loudest(times)|)
  {
    var ordered := Loudest(times);
    PermutationDistinct(times.keys, ordered);
    nameMap := NameInOrder(times, names, ordered);
  }

  // ------------------------------------------------- what the assignment guarantees

  ghost predicate NonNegative(times: Times) {
    times.Valid() && forall k :: k in times.keys ==> times.Get(k) >= 0.0
  }

  lemma TimesNonNegative(turns: seq<SpeakerSegment>)
    requires Forwards(turns)
    ensures NonNegative(TimesOf(turns))
  {
    SpeakingTimeIsConserved(turns);
    forall k | k in TimesOf(turns).keys ensures TimesOf(turns).Get(k) >= 0.0 {
      TotalNonNegative(turns, k);
    }
  }

  /** Which labels are substantive: a prefix of the order, by its length. */
  function Cutoff(times: Times, ordered: seq<string>): (m: nat)
    ensures m <= |ordered|
    ensures m < |ordered| ==> !Substantive(times, ordered[m])
    ensures forall i :: 0 <= i < m ==> Substantive(times, ordered[i])
  {
    if ordered == [] || !Substantive(times, ordered[0]) then 0
    else 1 + Cutoff(times, ordered[1..])
  }

  lemma {:induction false} SumNonNegative(keys: seq<string>, f: string -> real)
    requires forall k :: k in keys ==> f(k) >= 0.0
    ensures Sum(keys, f) >= 0.0
  {
    if keys != [] {
      SumNonNegative(keys[..|keys| - 1], f);
    }
  }

  lemma {:induction false} SumConcat(a: seq<string>, b: seq<string>, f: string -> real)
    ensures Sum(a + b, f) == Sum(a, f) + Sum(b, f)
  {
    if b == [] {
      assert a + b == a;
    } else {
      assert (a + b)[..|a + b| - 1] == a + b[..|b| - 1];
      SumConcat(a, b[..|b| - 1], f);
    }
  }

  lemma {:induction false} SumPermuted(a: seq<string>, b: seq<string>, f: string -> real)
    requires multiset(a) == multiset(b)
    ensures Sum(a, f) == Sum(b, f)
  {
    if a == [] {
      assert |multiset(b)| == |multiset(a)| == 0;
    } else {
      var t, x := a[..|a| - 1], a[|a| - 1];
      assert a == t + [x];
      SameElements(a, b, x);
      var l, r := Around(b, x);
      assert multiset(b) == multiset(l + r) + multiset{x};
      SameRest(t, l + r, x);
      SumPermuted(t, l + r, f);
      SumAround(l, x, r, f);
    }
  }

  lemma Around(b: seq<string>, x: string) returns (l: seq<string>, r: seq<string>)
    requires x in b
    ensures b == l + [x] + r
  {
    var i := Position(b, x);
    l, r := b[..i], b[i + 1..];
  }

  lemma SameRest(s: seq<string>, t: seq<string>, x: string)
    requires multiset(s) + multiset{x} == multiset(t) + multiset{x}
    ensures multiset(s) == multiset(t)
  {
    forall y ensures multiset(s)[y] == multiset(t)[y] {
      assert (multiset(s) + multiset{x})[y] == (multiset(t) + multiset{x})[y];
    }
  }

  lemma SumAround(l: seq<string>, x: string, r: seq<string>, f: string -> real)
    ensures Sum(l + [x] + r, f) == f(x) + Sum(l + r, f)
  {
    SumConcat(l + [x], r, f);
    SumLast(l, x, f);
    SumConcat(l, r, f);
  }

  lemma SumLast(l: seq<string>, x: string, f: string -> real)
    ensures Sum(l + [x], f) == Sum(l, f) + f(x)
  {
    assert (l + [x])[..|l + [x]| - 1] == l;
  }

  function Copies(n: nat, x: real): real { if n == 0 then 0.0 else Copies(n - 1, x) + x }

  lemma {:induction false} SumAtLeast(keys: seq<string>, f: string -> real, least: real)
    requires forall k :: k in keys ==> f(k) >= least
    ensures Sum(keys, f) >= Copies(|keys|, least)
  {
    if keys != [] {
      SumAtLeast(keys[..|keys| - 1], f, least);
    }
  }

  lemma ShareTimesTotal(time: real, total: real)
    requires total > 0.0
    ensures time / total >= SUBSTANTIVE_SPEAKER_SHARE <==> time >= SUBSTANTIVE_SPEAKER_SHARE * total
  {
    var x := time / total;
    assert x * total == time;
    if x >= SUBSTANTIVE_SPEAKER_SHARE {
      assert x * total >= SUBSTANTIVE_SPEAKER_SHARE * total;
    } else {
      assert x * total < SUBSTANTIVE_SPEAKER_SHARE * total;
    }
  }

  function Least(times: Times): real { 0.15 * TotalTime(times) }

  /** A label is substantive when it has 15 percent of the time, and a louder label then is
      too; without any time none is. */
  lemma SubstantiveMeans(times: Times, voice: string)
    requires NonNegative(times)
    ensures TotalTime(times) > 0.0
    ensures Substantive(times, voice) <==> times.Get(voice) >= Least(times)
  {
    SumNonNegative(times.keys, Seconds(times));
    ShareTimesTotal(times.Get(voice), TotalTime(times));
  }

  /** Some labels have no more time than all. */
  lemma PrefixSum(times: Times, ordered: seq<string>, m: nat)
    requires NonNegative(times) && multiset(ordered) == multiset(times.keys) && m <= |ordered|
    ensures Sum(ordered[..m], Seconds(times)) <= Sum(times.keys, Seconds(times))
  {
    var f, a, b := Seconds(times), ordered[..m], ordered[m..];
    assert ordered == a + b;
    forall k | k in b ensures f(k) >= 0.0 {
      SameElements(times.keys, ordered, k);
    }
    SumNonNegative(b, f);
    SumConcat(a, b, f);
    SumPermuted(times.keys, ordered, f);
  }

  /** In any order of the labels, no more than six can have 15 percent each. */
  lemma AtMostSix(times: Times, ordered: seq<string>)
    requires NonNegative(times) && multiset(ordered) == multiset(times.keys)
    ensures Cutoff(times, ordered) <= 6
  {
    var m := Cutoff(times, ordered);
    if m > 0 {
      SubstantiveSum(times, ordered);
      PrefixSum(times, ordered, m);
      SameElements(times.keys, ordered, ordered[0]);
      SomeTime(times, ordered[0]);
      SharesFit(m, TotalTime(times));
    }
  }

  lemma SubstantiveSum(times: Times, ordered: seq<string>)
    requires NonNegative(times)
    ensures var m := Cutoff(times, ordered);
            Sum(ordered[..m], Seconds(times)) >= Copies(m, Least(times))
  {
    var m := Cutoff(times, ordered);
    var a := ordered[..m];
    forall k | k in a ensures Seconds(times)(k) >= Least(times) {
      assert Substantive(times, k);
      SubstantiveMeans(times, k);
    }
    SumAtLeast(a, Seconds(times), Least(times));
  }

  /** With a substantive label the total is the real sum. */
  lemma SomeTime(times: Times, voice: string)
    requires NonNegative(times) && Substantive(times, voice) && voice in times.keys
    ensures TotalTime(times) == Sum(times.keys, Seconds(times)) > 0.0
  {
    SubstantiveMeans(times, voice);
    SumOne(times.keys, Seconds(times), voice);
  }

  lemma {:induction false} SumOne(keys: seq<string>, f: string -> real, k: string)
    requires k in keys && forall l :: l in keys ==> f(l) >= 0.0
    ensures Sum(keys, f) >= f(k)
  {
    var t := keys[..|keys| - 1];
    SumNonNegative(t, f);
    if k != keys[|keys| - 1] {
      SumOne(t, f, k);
    }
  }

  lemma SharesFit(m: nat, total: real)
    requires total > 0.0 && Copies(m, SUBSTANTIVE_SPEAKER_SHARE * total) <= total
    ensures m <= 6
  {
    var x := SUBSTANTIVE_SPEAKER_SHARE * total;
    CopiesAre(7, x);
    CopiesGrow(m, x);
  }

  lemma {:induction false} CopiesAre(n: nat, x: real)
    ensures Copies(n, x) == n as real * x
  {
    if n > 0 {
      CopiesAre(n - 1, x);
      assert n as real * x == (n - 1) as real * x + x;
    }
  }

  lemma {:induction false} CopiesGrow(m: nat, x: real)
    requires x >= 0.0
    ensures m >= 7 ==> Copies(m, x) >= Copies(7, x)
  {
    if m > 7 {
      CopiesGrow(m - 1, x);
    }
  }

  /** Loudness falls along the order, so beyond the cutoff nothing is substantive. */
  lemma BeyondCutoff(times: Times, i: nat)
    requires NonNegative(times) && i < |Loudest(times)|
    ensures Substantive(times, Loudest(times)[i]) <==> i < Cutoff(times, Loudest(times))
  {
    var ordered := Loudest(times);
    var m := Cutoff(times, ordered);
    if i >= m {
      SortSorted(times.keys, Negated(Seconds(times)));
      assert i > m ==> Negated(Seconds(times))(ordered[m]) <= Negated(Seconds(times))(ordered[i]);
      SubstantiveMeans(times, ordered[m]);
      SubstantiveMeans(times, ordered[i]);
    }
  }

  function FirstGuest(names: seq<string>): nat { if names == [] then 1 else |names| }

  lemma {:induction false} GuestsAreCounted(times: Times, names: seq<string>, i: nat)
    requires NonNegative(times) && i <= Cutoff(times, Loudest(times))
    ensures Guests(times, names, Loudest(times), i) == if i > FirstGuest(names) then i - FirstGuest(names) else 0
  {
    if i > 1 {
      GuestsAreCounted(times, names, i - 1);
    }
  }

  /** The names when the first `m` clusters are substantive: the given names, then Guest,
      Guest 2, Guest 3 and so on without gaps, then none; the loudest cluster is never a
      guest. */
  function NameOf(m: nat, names: seq<string>, i: nat): Option<string> {
    if i > 0 && i >= m then None
    else if i < |names| then Some(names[i])
    else if i == 0 then None
    else Some(Guest(i - FirstGuest(names) + 1))
  }

  /** The names in closed form, where at most six clusters are substantive. */
  lemma NamesInOrder(times: Times, names: seq<string>, i: nat)
    requires NonNegative(times) && i < |Loudest(times)|
    ensures var m := Cutoff(times, Loudest(times));
            m <= 6 && NameAt(times, names, Loudest(times), i) == NameOf(m, names, i)
  {
    AtMostSix(times, Loudest(times));
    BeyondCutoff(times, i);
    if 0 < i < Cutoff(times, Loudest(times)) {
      GuestsAreCounted(times, names, i + 1);
    }
  }

  predicate IsLabelled(times: Times, names: seq<string>, i: nat)
    requires i < |Loudest(times)|
  {
    NameAt(times, names, Loudest(times), i).Some?
  }

  /** The labelled clusters are a prefix of the time order exactly when there is a name for
      the loudest one or no other cluster is substantive. */
  lemma LabelledArePrefixExactlyWhen(times: Times, names: seq<string>)
    requires NonNegative(times) && times.keys != []
    ensures |Loudest(times)| == |times.keys|
    ensures (forall i, j :: 0 <= i < j < |times.keys| && IsLabelled(times, names, j) ==> IsLabelled(times, names, i))
            <==> names != [] || Cutoff(times, Loudest(times)) <= 1
  {
    var n, m := |times.keys|, Cutoff(times, Loudest(times));
    assert |multiset(Loudest(times))| == |Loudest(times)| && |multiset(times.keys)| == n;
    forall i: nat | i < n
      ensures IsLabelled(times, names, i) <==> (i == 0 && names != []) || 0 < i < m
    {
      NamesInOrder(times, names, i);
    }
    if names == [] && m > 1 {
      assert IsLabelled(times, names, 1) && !IsLabelled(times, names, 0);
    }
  }

  /** How many of the given names are given away, and how many guest labels. */
  function Used(m: nat, names: seq<string>): (u: nat)
    ensures u <= |names|
  {
    var n := if m == 0 then 1 else m;
    if n < |names| then n else |names|
  }

  function GuestCount(m: nat, names: seq<string>): nat {
    if m > FirstGuest(names) then m - FirstGuest(names) else 0
  }

  /** The names given away differ, and none of them is a guest label that is given away. */
  ghost predicate Unambiguous(m: nat, names: seq<string>) {
    && Distinct(names[..Used(m, names)])
    && forall g :: 1 <= g <= GuestCount(m, names) ==> Guest(g) !in names
  }

  predicate Clash(m: nat, names: seq<string>, i: nat, j: nat) {
    NameOf(m, names, i).Some? && NameOf(m, names, i) == NameOf(m, names, j)
  }

  lemma GivenNamesDiffer(m: nat, names: seq<string>, i: nat, j: nat)
    requires Distinct(names[..Used(m, names)]) && i < j < |names| && j < m
    ensures NameOf(m, names, i) != NameOf(m, names, j)
  {
    var used := names[..Used(m, names)];
    assert used[i] == names[i] && used[j] == names[j];
  }

  lemma NamesOfDiffer(m: nat, names: seq<string>, i: nat, j: nat)
    requires Unambiguous(m, names) && i < j
    ensures !Clash(m, names, i, j)
  {
    if NameOf(m, names, i).Some? && j < m {
      if j < |names| {
        GivenNamesDiffer(m, names, i, j);
      } else {
        var g, h := i - FirstGuest(names) + 1, j - FirstGuest(names) + 1;
        assert Guest(h) !in names;
        if i >= |names| && Guest(g) == Guest(h) {
          GuestsDiffer(g, h);
        }
      }
    }
  }

  lemma AmbiguousClash(m: nat, names: seq<string>) returns (i: nat, j: nat)
    requires !Unambiguous(m, names)
    ensures i < j < m && Clash(m, names, i, j)
  {
    var used := names[..Used(m, names)];
    if !Distinct(used) {
      i, j :| 0 <= i < j < |used| && used[i] == used[j];
    } else {
      var g :| 1 <= g <= GuestCount(m, names) && Guest(g) in names;
      i :| 0 <= i < |names| && names[i] == Guest(g);
      j := g - 1 + FirstGuest(names);
    }
  }

  /** Two clusters get the same name exactly when two of the given names that are given away
      agree or one of them is a guest label that is given away. */
  lemma NamesDifferExactlyWhen(times: Times, names: seq<string>)
    requires NonNegative(times)
    ensures var ordered := Loudest(times);
            (forall i, j :: 0 <= i < j < |ordered| && IsLabelled(times, names, i) && IsLabelled(times, names, j) ==>
               NameAt(times, names, ordered, i) != NameAt(times, names, ordered, j))
            <==> Unambiguous(Cutoff(times, ordered), names)
  {
    var ordered := Loudest(times);
    var m := Cutoff(times, ordered);
    if Unambiguous(m, names) {
      forall i: nat, j: nat | i < j < |ordered| && IsLabelled(times, names, i) && IsLabelled(times, names, j)
        ensures NameAt(times, names, ordered, i) != NameAt(times, names, ordered, j)
      {
        NamesInOrder(times, names, i);
        NamesInOrder(times, names, j);
        NamesOfDiffer(m, names, i, j);
      }
    } else {
      var i, j := AmbiguousClash(m, names);
      NamesInOrder(times, names, i);
      NamesInOrder(times, names, j);
      assert IsLabelled(times, names, i) && IsLabelled(times, names, j);
    }
  }

  /** Of any turns that do not end before they start: at most six clusters are substantive,
      the names are those of the closed form, and they differ when the roster is unambiguous. */
  lemma RosterNamesTurns(turns: seq<SpeakerSegment>, names: seq<string>)
    requires Forwards(turns)
    ensures var times := TimesOf(turns);
            var ordered := Loudest(times);
            var m := Cutoff(times, ordered);
            && m <= 6
            && (forall i: nat :: i < |ordered| ==> NameAt(times, names, ordered, i) == NameOf(m, names, i))
            && (Unambiguous(m, names) ==> forall i: nat, j: nat :: i < j < |ordered| ==> !Clash(m, names, i, j))
  {
    var times := TimesOf(turns);
    var ordered := Loudest(times);
    var m := Cutoff(times, ordered);
    TimesNonNegative(turns);
    AtMostSix(times, ordered);
    forall i: nat | i < |ordered| ensures NameAt(times, names, ordered, i) == NameOf(m, names, i) {
      NamesInOrder(times, names, i);
    }
    if Unambiguous(m, names) {
      forall i: nat, j: nat | i < j < |ordered| ensures !Clash(m, names, i, j) {
        NamesOfDiffer(m, names, i, j);
      }
    }
  }

  // ---------------------------------------------------------------- by voice

  type Vector = Vectors.Vector

  /** A cluster's centroid, possibly missing, and its seconds. */
  datatype Cluster = Cluster(voice: string, embedding: Option<Vector>, seconds: real)

  datatype Reference = Reference(name: string, embedding: Vector)

  function CosDist(sqrt: real -> real, a: Vector, b: Vector): real {
    var na, nb := sqrt(Vectors.Inner(a, a)), sqrt(Vectors.Inner(b, b));
    if na == 0.0 || nb == 0.0 then 1.0
    else
      Vectors.ProductNotZero(na, nb);
      1.0 - Vectors.Inner(a, b) / Vectors.Product(na, nb)
  }

  /** The distance of two voices lies between 0 and 2, is the same both ways, does not depend
      on how long the vectors are, is 0 for the same voice, and 1 for a zero vector. */
  lemma VoiceDistance(sqrt: real -> real, a: Vector, b: Vector, c: real)
    requires Vectors.SquareRoot(sqrt) && c > 0.0
    ensures CosDist(sqrt, a, b) == 1.0 - Vectors.CosineOf(sqrt, a, b)
    ensures 0.0 <= CosDist(sqrt, a, b) <= 2.0
    ensures CosDist(sqrt, a, b) == CosDist(sqrt, b, a) == CosDist(sqrt, Vectors.Scaled(c, a), b)
    ensures CosDist(sqrt, a, a) == if Vectors.Length(sqrt, a) == 0.0 then 1.0 else 0.0
  {
    Vectors.CosineRange(sqrt, a, b);
    Vectors.CosineSymmetric(sqrt, a, b);
    Vectors.CosineIgnoresLength(sqrt, c, a, b);
    if Vectors.Length(sqrt, a) != 0.0 {
      Vectors.CosineOfSelf(sqrt, a);
    }
  }

  /** The nearest reference, the first of them if there are several. */
  function Nearest(sqrt: real -> real, e: Vector, refs: seq<Reference>): Option<(string, real)> {
    if refs == [] then None
    else
      var last := refs[|refs| - 1];
      var best, d := Nearest(sqrt, e, refs[..|refs| - 1]), CosDist(sqrt, e, last.embedding);
      if best.None? || d < best.value.1 then Some((last.name, d)) else best
  }

  /** A cluster without a vector matches nobody. */
  function VoiceMatch(sqrt: real -> real, c: Cluster, refs: seq<Reference>): Option<string> {
    if c.embedding.None? || c.embedding.value == [] then None
    else
      var best := Nearest(sqrt, c.embedding.value, refs);
      if best.Some? && best.value.1 <= VOICE_MATCH_MAX_DISTANCE then Some(best.value.0) else None
  }

  function VoiceShare(c: Cluster, total: real): real { if total == 0.0 then 0.0 else c.seconds / total }

  predicate IsGuest(sqrt: real -> real, c: Cluster, refs: seq<Reference>, total: real) {
    VoiceMatch(sqrt, c, refs).None? && VoiceShare(c, total) >= SUBSTANTIVE_SPEAKER_SHARE
  }

  /** A guest is a cluster that matches no reference and has 15 percent of the time; without
      any time there is none. */
  lemma GuestsAreSubstantive(sqrt: real -> real, c: Cluster, refs: seq<Reference>, total: real)
    requires total >= 0.0
    ensures IsGuest(sqrt, c, refs, total)
            <==> VoiceMatch(sqrt, c, refs).None? && total > 0.0 && c.seconds >= 0.15 * total
  {
    if total > 0.0 {
      ShareTimesTotal(c.seconds, total);
    }
  }

  /** The guests among the first `i` clusters. */
  function VoiceGuests(sqrt: real -> real, ordered: seq<Cluster>, refs: seq<Reference>, total: real, i: nat): nat
    requires i <= |ordered|
  {
    if i == 0 then 0
    else VoiceGuests(sqrt, ordered, refs, total, i - 1) + if IsGuest(sqrt, ordered[i - 1], refs, total) then 1 else 0
  }

  function VoiceName(
    sqrt: real -> real, ordered: seq<Cluster>, refs: seq<Reference>, total: real, i: nat): Option<string>
    requires i < |ordered|
  {
    if VoiceMatch(sqrt, ordered[i], refs).Some? then VoiceMatch(sqrt, ordered[i], refs)
    else if IsGuest(sqrt, ordered[i], refs, total)
    then Some(Guest(VoiceGuests(sqrt, ordered, refs, total, i + 1)))
    else None
  }

  /** Clusters by seconds, the longest first. */
  function Longest(clusters: seq<Cluster>): (ordered: seq<Cluster>)
    ensures |ordered| == |clusters| && multiset(ordered) == multiset(clusters)
  {
    SortDescending(clusters, (c: Cluster) => c.seconds)
  }

  /** The labels of the clusters are dictionary keys. */
  ghost predicate LabelsDiffer(clusters: seq<Cluster>) {
    forall i, j :: 0 <= i < j < |clusters| ==> clusters[i].voice != clusters[j].voice
  }

  lemma LongestLabelsDiffer(clusters: seq<Cluster>)
    requires LabelsDiffer(clusters)
    ensures LabelsDiffer(Longest(clusters))
  {
    var ordered := Longest(clusters);
    PermutationDistinct(clusters, ordered);
    forall i, j | 0 <= i < j < |ordered| ensures ordered[i].voice != ordered[j].voice {
      SameElements(clusters, ordered, ordered[i]);
      SameElements(clusters, ordered, ordered[j]);
      assert ordered[i] != ordered[j];
    }
  }

  function VoiceKeys(ordered: seq<Cluster>, n: nat): set<string>
    requires n <= |ordered|
  {
    if n == 0 then {} else VoiceKeys(ordered, n - 1) + {ordered[n - 1].voice}
  }

  ghost predicate VoicedBy(
    nameMap: Names, sqrt: real -> real, ordered: seq<Cluster>, refs: seq<Reference>, total: real, n: nat)
    requires n <= |ordered|
  {
    && nameMap.Keys == VoiceKeys(ordered, n)
    && (forall i :: 0 <= i < n ==> NameIs(nameMap, ordered[i].voice, VoiceName(sqrt, ordered, refs, total, i)))
  }

  method FindNearest(sqrt: real -> real, e: Vector, refs: seq<Reference>) returns (best: Option<(string, real)>)
    ensures best == Nearest(sqrt, e, refs)
  {
    best := None;
    for r := 0 to |refs|
      invariant best == Nearest(sqrt, e, refs[..r])
    {
      assert refs[..r + 1][..r] == refs[..r];
      var d := CosDist(sqrt, e, refs[r].embedding);
      if best.None? || d < best.value.1 {
        best := Some((refs[r].name, d));
      }
    }
    assert refs[..|refs|] == refs;
  }

  lemma OneMoreVoice(
    nameMap: Names, sqrt: real -> real, ordered: seq<Cluster>, refs: seq<Reference>, total: real, i: nat,
    name: Option<string>)
    requires i < |ordered| && LabelsDiffer(ordered) && VoicedBy(nameMap, sqrt, ordered, refs, total, i)
    requires name == VoiceName(sqrt, ordered, refs, total, i)
    ensures VoicedBy(nameMap[ordered[i].voice := name], sqrt, ordered, refs, total, i + 1)
  {
  }

  method AssignByVoice(sqrt: real -> real, clusters: seq<Cluster>, refs: seq<Reference>, total: real)
    returns (nameMap: Names)
    requires LabelsDiffer(clusters)
    ensures VoicedBy(nameMap, sqrt, Longest(clusters), refs, total, |clusters|)
  {
    LongestLabelsDiffer(clusters);
    nameMap := NameByVoice(sqrt, Longest(clusters), refs, total);
  }

  method NameByVoice(sqrt: real -> real, ordered: seq<Cluster>, refs: seq<Reference>, total: real)
    returns (nameMap: Names)
    requires LabelsDiffer(ordered)
    ensures VoicedBy(nameMap, sqrt, ordered, refs, total, |ordered|)
  {
    nameMap := map[];
    var guestCount := 0;
    for i := 0 to |ordered|
      invariant guestCount == VoiceGuests(sqrt, ordered, refs, total, i)
      invariant VoicedBy(nameMap, sqrt, ordered, refs, total, i)
    {
      var c := ordered[i];
      var best: Option<(string, real)> := None;
      if c.embedding.Some? && c.embedding.value != [] {
        best := FindNearest(sqrt, c.embedding.value, refs);
      }
      var name: Option<string> := None;
      if best.Some? && best.value.1 <= VOICE_MATCH_MAX_DISTANCE {
        name := Some(best.value.0);
      } else if VoiceShare(c, total) >= SUBSTANTIVE_SPEAKER_SHARE {
        guestCount := guestCount + 1;
        name := Some(Guest(guestCount));
      }
      OneMoreVoice(nameMap, sqrt, ordered, refs, total, i, name);
      nameMap := nameMap[c.voice := name];
    }
  }

  lemma {:induction false} NearestIsFirstMinimum(sqrt: real -> real, e: Vector, refs: seq<Reference>) returns (k: nat)
    requires refs != []
    ensures k < |refs| && Nearest(sqrt, e, refs) == Some((refs[k].name, CosDist(sqrt, e, refs[k].embedding)))
    ensures forall j :: 0 <= j < |refs| ==>
              CosDist(sqrt, e, refs[k].embedding) <= CosDist(sqrt, e, refs[j].embedding)
    ensures forall j :: 0 <= j < k ==>
              CosDist(sqrt, e, refs[k].embedding) < CosDist(sqrt, e, refs[j].embedding)
  {
    var n := |refs| - 1;
    if n == 0 {
      k := 0;
    } else {
      k := NearestIsFirstMinimum(sqrt, e, refs[..n]);
      if CosDist(sqrt, e, refs[n].embedding) < CosDist(sqrt, e, refs[k].embedding) {
        k := n;
      }
    }
  }

  predicate SomeNear(sqrt: real -> real, e: Vector, refs: seq<Reference>) {
    exists j :: 0 <= j < |refs| && CosDist(sqrt, e, refs[j].embedding) <= 0.5
  }

  /** A cluster gets the name of the first of its nearest references exactly when one of them
      is within the distance. */
  lemma MatchedWhenNear(sqrt: real -> real, c: Cluster, refs: seq<Reference>) returns (k: nat)
    requires c.embedding.Some? && c.embedding.value != []
    ensures VoiceMatch(sqrt, c, refs).Some? <==> SomeNear(sqrt, c.embedding.value, refs)
    ensures VoiceMatch(sqrt, c, refs).Some? ==>
              && k < |refs| && VoiceMatch(sqrt, c, refs) == Some(refs[k].name)
              && (forall j :: 0 <= j < |refs| ==>
                   CosDist(sqrt, c.embedding.value, refs[k].embedding)
                   <= CosDist(sqrt, c.embedding.value, refs[j].embedding))
              && (forall j :: 0 <= j < k ==>
                   CosDist(sqrt, c.embedding.value, refs[k].embedding)
                   < CosDist(sqrt, c.embedding.value, refs[j].embedding))
  {
    k := 0;
    if refs != [] {
      k := NearestIsFirstMinimum(sqrt, c.embedding.value, refs);
    }
  }

  /** The cluster is an unmatched substantive one with this guest label. */
  ghost predicate CalledGuest(
    sqrt: real -> real, ordered: seq<Cluster>, refs: seq<Reference>, total: real, i: nat, n: nat)
  {
    && i < |ordered| && IsGuest(sqrt, ordered[i], refs, total)
    && VoiceName(sqrt, ordered, refs, total, i) == Some(Guest(n))
  }

  lemma {:induction false} FindGuest(
    sqrt: real -> real, ordered: seq<Cluster>, refs: seq<Reference>, total: real, hi: nat, n: nat) returns (i: nat)
    requires hi <= |ordered| && 0 < n <= VoiceGuests(sqrt, ordered, refs, total, hi)
    ensures i < hi && IsGuest(sqrt, ordered[i], refs, total) && VoiceGuests(sqrt, ordered, refs, total, i + 1) == n
  {
    if n <= VoiceGuests(sqrt, ordered, refs, total, hi - 1) {
      i := FindGuest(sqrt, ordered, refs, total, hi - 1, n);
    } else {
      i := hi - 1;
    }
  }

  lemma {:induction false} GuestsGrow(
    sqrt: real -> real, ordered: seq<Cluster>, refs: seq<Reference>, total: real, i: nat, j: nat)
    requires i <= j <= |ordered|
    ensures VoiceGuests(sqrt, ordered, refs, total, i) <= VoiceGuests(sqrt, ordered, refs, total, j)
    decreases j
  {
    if i < j {
      GuestsGrow(sqrt, ordered, refs, total, i, j - 1);
    }
  }

  lemma GuestLabelsDiffer(
    sqrt: real -> real, ordered: seq<Cluster>, refs: seq<Reference>, total: real, i: nat, j: nat, n: nat)
    requires CalledGuest(sqrt, ordered, refs, total, i, n) && CalledGuest(sqrt, ordered, refs, total, j, n)
    ensures i == j
  {
    GuestsDiffer(VoiceGuests(sqrt, ordered, refs, total, i + 1), n);
    GuestsDiffer(VoiceGuests(sqrt, ordered, refs, total, j + 1), n);
    if i < j {
      GuestsGrow(sqrt, ordered, refs, total, i + 1, j);
    } else if j < i {
      GuestsGrow(sqrt, ordered, refs, total, j + 1, i);
    }
  }

  /** Guests are numbered from 1 without gaps: every number up to the count of unmatched
      substantive clusters names exactly one of them. */
  lemma VoiceGuestsHaveNoGaps(
    sqrt: real -> real, ordered: seq<Cluster>, refs: seq<Reference>, total: real, n: nat) returns (i: nat)
    requires 0 < n <= VoiceGuests(sqrt, ordered, refs, total, |ordered|)
    ensures CalledGuest(sqrt, ordered, refs, total, i, n)
    ensures forall j :: CalledGuest(sqrt, ordered, refs, total, j, n) ==> j == i
  {
    i := FindGuest(sqrt, ordered, refs, total, |ordered|, n);
    forall j | CalledGuest(sqrt, ordered, refs, total, j, n) ensures j == i {
      GuestLabelsDiffer(sqrt, ordered, refs, total, i, j, n);
    }
  }

  // ---------------------------------------------------------------- precedence

  function Generic(labels: seq<string>): (ordered: seq<string>)
    ensures multiset(ordered) == multiset(labels)
  {
    Arrange(labels, ByText((k: string) => k))
  }

  /** References with an empty vector are ignored. */
  function Usable(profiles: seq<Reference>): seq<Reference> {
    if profiles == [] then []
    else
      var rest, last := Usable(profiles[..|profiles| - 1]), profiles[|profiles| - 1];
      if last.embedding != [] then rest + [last] else rest
  }

  ghost predicate GenericBy(nameMap: Names, ordered: seq<string>, n: nat)
    requires n <= |ordered|
  {
    && nameMap.Keys == FirstOnes(ordered, n)
    && forall i :: 0 <= i < n ==> NameIs(nameMap, ordered[i], Some("Speaker " + Decimal.Digits(i + 1)))
  }

  /** Voice references win when there are usable ones and the clusters are known, then the
      roster, then generic labels in text order. */
  ghost predicate Mapped(
    nameMap: Names, sqrt: real -> real, turns: seq<SpeakerSegment>, profiles: seq<Reference>,
    roster: seq<string>, clusters: seq<Cluster>)
  {
    var refs, times := Usable(profiles), TimesOf(turns);
    if refs != [] && clusters != [] then
      VoicedBy(nameMap, sqrt, Longest(clusters), refs, Sum(times.keys, Seconds(times)), |clusters|)
    else if roster != [] then NamedBy(nameMap, times, roster, Loudest(times), |Loudest(times)|)
    else GenericBy(nameMap, Generic(times.keys), |Generic(times.keys)|)
  }

  method NameGenerically(unique: seq<string>) returns (nameMap: Names)
    requires Distinct(unique)
    ensures GenericBy(nameMap, unique, |unique|)
  {
    nameMap := map[];
    for i := 0 to |unique|
      invariant GenericBy(nameMap, unique, i)
    {
      nameMap := nameMap[unique[i] := Some("Speaker " + Decimal.Digits(i + 1))];
    }
  }

  function Renamed(nameMap: Names, t: Segment): Segment {
    t.(speaker := if t.speaker.Some? && t.speaker.value != "" && t.speaker.value in nameMap
                  then nameMap[t.speaker.value] else None)
  }

  /** Each segment keeps its text and times; its label becomes the name of its cluster. */
  method MapSpeakerNames(
    sqrt: real -> real, segments: seq<Segment>, turns: seq<SpeakerSegment>, profiles: seq<Reference>,
    roster: seq<string>, clusters: seq<Cluster>) returns (result: seq<Segment>)
    requires LabelsDiffer(clusters)
    ensures exists nameMap: Names :: Mapped(nameMap, sqrt, turns, profiles, roster, clusters)
              && result == RenamedAll(nameMap, segments)
  {
    var refs, nameMap := Usable(profiles), map[];
    var times := SpeakingTimes(turns);
    if refs != [] && clusters != [] {
      nameMap := AssignByVoice(sqrt, clusters, refs, Sum(times.keys, Seconds(times)));
    } else if roster != [] {
      nameMap := AssignSubstantiveSpeakers(times, roster);
    } else {
      PermutationDistinct(times.keys, Generic(times.keys));
      nameMap := NameGenerically(Generic(times.keys));
    }
    assert Mapped(nameMap, sqrt, turns, profiles, roster, clusters);
    result := [];
    for i := 0 to |segments|
      invariant result == RenamedAll(nameMap, segments[..i])
    {
      assert segments[..i + 1][..i] == segments[..i];
      result := result + [Renamed(nameMap, segments[i])];
    }
    assert segments[..|segments|] == segments;
  }

  function RenamedAll(nameMap: Names, segments: seq<Segment>): (r: seq<Segment>)
    ensures |r| == |segments|
    ensures forall i :: 0 <= i < |r| ==> r[i] == Renamed(nameMap, segments[i])
  {
    if segments == [] then []
    else RenamedAll(nameMap, segments[..|segments| - 1]) + [Renamed(nameMap, segments[|segments| - 1])]
  }

  /** There is a roster, and not both voice references and clusters. */
  predicate ByRoster(profiles: seq<Reference>, roster: seq<string>, clusters: seq<Cluster>) {
    roster != [] && (Usable(profiles) == [] || clusters == [])
  }

  /** From the audio to a name, without usable voice references or without clusters: an aligned segment bears the name
      in the closed form above of the cluster whose turn overlaps it most, and that cluster is
      always known to the name table. */
  lemma NamedAfterLargestOverlap(
    nameMap: Names, sqrt: real -> real, turns: seq<SpeakerSegment>, profiles: seq<Reference>,
    roster: seq<string>, clusters: seq<Cluster>, t: Segment) returns (k: nat, i: nat)
    requires ByRoster(profiles, roster, clusters)
    requires Timed(t) && SpeakerOf(t, turns).Some? && SpeakerOf(t, turns).value != ""
    requires Mapped(nameMap, sqrt, turns, profiles, roster, clusters)
    ensures FirstLargest(t.start.value, t.end.value, turns, k)
    ensures var ordered := Loudest(TimesOf(turns));
            && i < |ordered| && ordered[i] == turns[k].speaker
            && Renamed(nameMap, t.(speaker := SpeakerOf(t, turns))).speaker
               == NameAt(TimesOf(turns), roster, ordered, i)
  {
    k := AlignedToFirstLargest(t, turns);
    var times := TimesOf(turns);
    LabelsHold(turns, k);
    SameElements(times.keys, Loudest(times), turns[k].speaker);
    i := Position(Loudest(times), turns[k].speaker);
    assert NameIs(nameMap, Loudest(times)[i], NameAt(times, roster, Loudest(times), i));
  }

  /** What the label of a segment becomes. */
  function FinalName(nameMap: Names, turns: seq<SpeakerSegment>, t: Segment): Option<string> {
    Renamed(nameMap, t.(speaker := SpeakerOf(t, turns))).speaker
  }

  function SubstantiveCount(turns: seq<SpeakerSegment>): nat { Cutoff(TimesOf(turns), Loudest(TimesOf(turns))) }

  lemma FinalNameOfCluster(
    nameMap: Names, sqrt: real -> real, turns: seq<SpeakerSegment>, profiles: seq<Reference>,
    roster: seq<string>, clusters: seq<Cluster>, t: Segment) returns (i: nat)
    requires Forwards(turns) && ByRoster(profiles, roster, clusters)
    requires Mapped(nameMap, sqrt, turns, profiles, roster, clusters)
    requires FinalName(nameMap, turns, t).Some?
    ensures SpeakerOf(t, turns).Some? && i < |Loudest(TimesOf(turns))|
    ensures Loudest(TimesOf(turns))[i] == SpeakerOf(t, turns).value
    ensures FinalName(nameMap, turns, t) == NameOf(SubstantiveCount(turns), roster, i)
  {
    TimesNonNegative(turns);
    var k;
    k, i := NamedAfterLargestOverlap(nameMap, sqrt, turns, profiles, roster, clusters, t);
    var l := AlignedToFirstLargest(t, turns);
    assert k == l;
    NamesInOrder(TimesOf(turns), roster, i);
  }

  /** With an unambiguous roster two segments bear the same name exactly when the same
      cluster overlaps both of them most. */
  lemma SameNameSameCluster(
    nameMap: Names, sqrt: real -> real, turns: seq<SpeakerSegment>, profiles: seq<Reference>,
    roster: seq<string>, clusters: seq<Cluster>, t: Segment, u: Segment)
    requires Forwards(turns) && ByRoster(profiles, roster, clusters)
    requires Mapped(nameMap, sqrt, turns, profiles, roster, clusters)
    requires Unambiguous(SubstantiveCount(turns), roster)
    requires FinalName(nameMap, turns, t).Some? && FinalName(nameMap, turns, u).Some?
    ensures FinalName(nameMap, turns, t) == FinalName(nameMap, turns, u) <==> SpeakerOf(t, turns) == SpeakerOf(u, turns)
  {
    var i := FinalNameOfCluster(nameMap, sqrt, turns, profiles, roster, clusters, t);
    var j := FinalNameOfCluster(nameMap, sqrt, turns, profiles, roster, clusters, u);
    DistinctClusters(SubstantiveCount(turns), roster, i, j);
  }

  lemma DistinctClusters(m: nat, names: seq<string>, i: nat, j: nat)
    requires Unambiguous(m, names) && NameOf(m, names, i).Some?
    ensures NameOf(m, names, i) == NameOf(m, names, j) ==> i == j
  {
    if i < j {
      NamesOfDiffer(m, names, i, j);
    } else if j < i {
      NamesOfDiffer(m, names, j, i);
    }
  }

  lemma {:induction false} VoiceKeysHold(ordered: seq<Cluster>, n: nat, voice: string)
    requires n <= |ordered|
    ensures voice in VoiceKeys(ordered, n) <==> exists i :: 0 <= i < n && ordered[i].voice == voice
  {
    if n > 0 {
      VoiceKeysHold(ordered, n - 1, voice);
    }
  }

  /** From the audio to a name, with voice references: an aligned segment bears the name by
      voice of the cluster whose turn overlaps it most, and no name when that label is not
      among the clusters. */
  lemma NamedByVoiceOfLargestOverlap(
    nameMap: Names, sqrt: real -> real, turns: seq<SpeakerSegment>, profiles: seq<Reference>,
    roster: seq<string>, clusters: seq<Cluster>, t: Segment) returns (k: nat)
    requires Timed(t) && SpeakerOf(t, turns).Some? && SpeakerOf(t, turns).value != ""
    requires Usable(profiles) != [] && clusters != []
    requires Mapped(nameMap, sqrt, turns, profiles, roster, clusters)
    ensures FirstLargest(t.start.value, t.end.value, turns, k)
    ensures (forall c :: c in clusters ==> c.voice != turns[k].speaker) ==> FinalName(nameMap, turns, t) == None
    ensures forall i: nat :: i < |clusters| && Longest(clusters)[i].voice == turns[k].speaker ==>
              FinalName(nameMap, turns, t)
              == VoiceName(sqrt, Longest(clusters), Usable(profiles), Durations(turns), i)
  {
    k := AlignedToFirstLargest(t, turns);
    SpeakingTimeIsConserved(turns);
    var ordered, voice := Longest(clusters), turns[k].speaker;
    VoiceKeysHold(ordered, |clusters|, voice);
    if voice in nameMap {
      var i :| 0 <= i < |clusters| && ordered[i].voice == voice;
      SameElements(clusters, ordered, ordered[i]);
    }
    forall i: nat | i < |clusters| && ordered[i].voice == voice
      ensures FinalName(nameMap, turns, t) == VoiceName(sqrt, ordered, Usable(profiles), Durations(turns), i)
    {
      assert NameIs(nameMap, ordered[i].voice, VoiceName(sqrt, ordered, Usable(profiles), Durations(turns), i));
    }
  }
}
