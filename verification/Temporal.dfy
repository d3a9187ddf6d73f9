/** Which retrieved chunks an intent keeps, and in which order they are shown. */
module Temporal {
  import opened Options
  import opened Ordering

  /** A retrieved chunk; absent fields are keys the dictionary lacks. */
  datatype Candidate = Candidate(id: string, distance: Option<real>, date: Option<string>, number: Option<int>)

  function Distance(c: Candidate): real { if c.distance.Some? then c.distance.value else 1.0 }

  function DateOf(c: Candidate): string { if c.date.Some? then c.date.value else "" }

  datatype Presentation = NewestFirst | Chronological

  const CURRENT_RECENCY_WEIGHT := 0.5
  const MAX_PER_EPISODE_EVOLUTION := 2

  // ---------------------------------------------------------------- recency

  /** Dates as day numbers, today, the half-life in days, and `0.5 ** x`. */
  datatype Clock = Clock(parse: string -> Option<int>, today: int, halfLife: int, half: real -> real)

  ghost predicate Decays(k: Clock) {
    && k.halfLife > 0
    && k.half(0.0) == 1.0 && k.half(1.0) == 0.5
    && (forall x: real :: k.half(x) > 0.0)
    && (forall x: real, y: real :: x < y ==> k.half(x) > k.half(y))
  }

  /** Anything that is no date counts as old; the future counts as today. */
  function Recency(k: Clock, date: string): real
    requires k.halfLife > 0
  {
    match k.parse(date)
    case None => 0.0
    case Some(d) =>
      var age := k.today - d;
      if age <= 0 then 1.0 else k.half(Lives(k, age))
  }

  function Lives(k: Clock, age: int): real
    requires k.halfLife > 0
  {
    age as real / k.halfLife as real
  }

  lemma LivesOrder(k: Clock, a: int, b: int)
    requires k.halfLife > 0 && a < b
    ensures Lives(k, a) < Lives(k, b)
  {
    var x, y, h := a as real, b as real, k.halfLife as real;
    assert y / h - x / h == (y - x) / h;
    assert (y - x) / h > 0.0;
  }

  /** Recency lies in (0, 1], is 1 exactly from today on, and a half one half-life ago. */
  lemma RecencyRange(k: Clock, date: string)
    requires Decays(k) && k.parse(date).Some?
    ensures 0.0 < Recency(k, date) <= 1.0
    ensures Recency(k, date) == 1.0 <==> k.parse(date).value >= k.today
    ensures k.today - k.parse(date).value == k.halfLife ==> Recency(k, date) == 0.5
  {
    var age := k.today - k.parse(date).value;
    if age > 0 {
      LivesOrder(k, 0, age);
      assert Lives(k, 0) == 0.0;
      assert k.half(Lives(k, 0)) > k.half(Lives(k, age));
      if age == k.halfLife {
        assert Lives(k, age) == 1.0;
      }
    }
  }

  /** An older date never scores more, and among past dates strictly less. */
  lemma RecencyDecays(k: Clock, a: string, b: string)
    requires Decays(k) && k.parse(a).Some? && k.parse(b).Some? && k.parse(a).value <= k.parse(b).value
    ensures Recency(k, a) <= Recency(k, b)
    ensures k.parse(a).value < k.parse(b).value && k.parse(a).value < k.today ==> Recency(k, a) < Recency(k, b)
  {
    var x, y := k.today - k.parse(a).value, k.today - k.parse(b).value;
    RecencyRange(k, a);
    RecencyRange(k, b);
    if 0 < y < x {
      LivesOrder(k, y, x);
      assert k.half(Lives(k, y)) > k.half(Lives(k, x));
    }
  }

  /** `0.5 ** x` turns sums into products. */
  ghost predicate Powers(k: Clock) {
    Decays(k) && forall x: real, y: real :: k.half(x + y) == k.half(x) * k.half(y)
  }

  lemma OneLifeMore(k: Clock, age: int)
    requires k.halfLife > 0
    ensures Lives(k, age + k.halfLife) == Lives(k, age) + 1.0
  {
    var x, h := age as real, k.halfLife as real;
    assert (x + h) / h == x / h + h / h;
  }

  /** Days from today back, `b` a half-life before `a`. */
  predicate OneLifeOlder(k: Clock, a: string, b: string) {
    && k.parse(a).Some? && k.parse(b).Some?
    && k.parse(a).value <= k.today && k.parse(b).value == k.parse(a).value - k.halfLife
  }

  lemma HalfMore(k: Clock, x: real)
    requires Powers(k)
    ensures k.half(x + 1.0) == k.half(x) / 2.0
  {
    assert k.half(x + 1.0) == k.half(x) * k.half(1.0);
    assert k.half(1.0) == 0.5;
  }

  lemma RecencyOfPast(k: Clock, a: string)
    requires Decays(k) && k.parse(a).Some? && k.parse(a).value <= k.today
    ensures Recency(k, a) == k.half(Lives(k, k.today - k.parse(a).value))
  {
    assert Lives(k, 0) == 0.0;
  }

  /** What is no date counts nothing, and what is a half-life older counts half. */
  lemma RecencyHalves(k: Clock, a: string, b: string)
    requires Powers(k)
    ensures k.parse(a).None? ==> Recency(k, a) == 0.0
    ensures OneLifeOlder(k, a, b) ==> Recency(k, b) == Recency(k, a) / 2.0
  {
    if OneLifeOlder(k, a, b) {
      var age := k.today - k.parse(a).value;
      OneLifeMore(k, age);
      HalfMore(k, Lives(k, age));
      RecencyOfPast(k, a);
      RecencyOfPast(k, b);
    }
  }

  // ---------------------------------------------------------------- sorting

  function BySimilarity(s: seq<Candidate>): (r: seq<Candidate>)
    ensures multiset(r) == multiset(s)
  {
    SortBy(s, Distance)
  }

  function ByDate(s: seq<Candidate>): (r: seq<Candidate>)
    ensures |r| == |s| && multiset(r) == multiset(s)
  {
    Arrange(s, ByText(DateOf))
  }

  function Blended(k: Clock): Candidate -> real
    requires k.halfLife > 0
  {
    (c: Candidate) =>
      if k.halfLife <= 0 then 0.0 else
      (1.0 - CURRENT_RECENCY_WEIGHT) * (1.0 - Distance(c)) + CURRENT_RECENCY_WEIGHT * Recency(k, DateOf(c))
  }

  // ---------------------------------------------------------------- evolution

  /** The episode of a chunk: its number, or its date when the number is absent or 0. */
  datatype Key = ByNumber(number: int) | ByDay(date: Option<string>)

  function KeyOf(c: Candidate): Key {
    if c.number.Some? && c.number.value != 0 then ByNumber(c.number.value) else ByDay(c.date)
  }

  /** Dictionary keys, where each was first met. */
  function Keys(s: seq<Candidate>): (ks: seq<Key>)
    ensures Distinct(ks)
  {
    if s == [] then []
    else
      var last := |s| - 1;
      var ks := Keys(s[..last]);
      if KeyOf(s[last]) in ks then ks else ks + [KeyOf(s[last])]
  }

  lemma {:induction false} KeysHold(s: seq<Candidate>, c: Candidate)
    requires c in s
    ensures KeyOf(c) in Keys(s)
  {
    if c != s[|s| - 1] {
      KeysHold(s[..|s| - 1], c);
    }
  }

  function Group(s: seq<Candidate>, k: Key): (g: seq<Candidate>)
    ensures forall i :: 0 <= i < |g| ==> KeyOf(g[i]) == k
  {
    if s == [] then []
    else
      var last := |s| - 1;
      var g := Group(s[..last], k);
      if KeyOf(s[last]) == k then g + [s[last]] else g
  }

  /** The closest few of an episode. */
  function First(s: seq<Candidate>, k: Key): (g: seq<Candidate>)
    ensures |g| <= MAX_PER_EPISODE_EVOLUTION
    ensures forall i :: 0 <= i < |g| ==> KeyOf(g[i]) == k
  {
    Take(Group(s, k), MAX_PER_EPISODE_EVOLUTION)
  }

  function SpreadOver(s: seq<Candidate>, ks: seq<Key>): seq<Candidate> {
    if ks == [] then [] else SpreadOver(s, ks[..|ks| - 1]) + First(s, ks[|ks| - 1])
  }

  function Ranking(cands: seq<Candidate>): seq<Candidate> { BySimilarity(SpreadOver(cands, Keys(cands))) }

  function Picked(cands: seq<Candidate>, topK: int): seq<Candidate> {
    Take(Ranking(cands), topK)
  }

  ghost predicate Filled(keys: seq<Key>, lists: map<Key, seq<Candidate>>, seen: seq<Candidate>) {
    keys == Keys(seen) && (forall k :: k in lists ==> k in keys) && forall k :: k in keys ==> ListOk(lists, seen, k)
  }

  ghost predicate ListOk(lists: map<Key, seq<Candidate>>, seen: seq<Candidate>, k: Key) {
    k in lists && lists[k] == First(seen, k)
  }

  lemma FirstNext(seen: seq<Candidate>, c: Candidate, k: Key)
    ensures First(seen + [c], k)
            == if KeyOf(c) == k && |First(seen, k)| < MAX_PER_EPISODE_EVOLUTION
               then First(seen, k) + [c] else First(seen, k)
  {
    assert (seen + [c])[..|seen|] == seen;
  }

  /** `setdefault`, then an append while the list is short. */
  function Add(lists: map<Key, seq<Candidate>>, key: Key, c: Candidate): map<Key, seq<Candidate>> {
    var there := if key in lists then lists else lists[key := []];
    if |there[key]| < MAX_PER_EPISODE_EVOLUTION then there[key := there[key] + [c]] else there
  }

  lemma FilledNext(keys: seq<Key>, lists: map<Key, seq<Candidate>>, seen: seq<Candidate>, c: Candidate)
    requires Filled(keys, lists, seen)
    ensures var key := KeyOf(c);
            Filled(if key in lists then keys else keys + [key], Add(lists, key, c), seen + [c])
  {
    var key := KeyOf(c);
    var all := if key in lists then keys else keys + [key];
    assert all == Keys(seen + [c]) by {
      assert (seen + [c])[..|seen|] == seen;
      assert key in keys ==> ListOk(lists, seen, key);
    }
    forall k | k in all ensures ListOk(Add(lists, key, c), seen + [c], k) {
      AddedIsFirst(keys, lists, seen, c, k);
    }
    forall k | k in Add(lists, key, c) ensures k in all {
    }
  }

  lemma AddedIsFirst(keys: seq<Key>, lists: map<Key, seq<Candidate>>, seen: seq<Candidate>, c: Candidate, k: Key)
    requires Filled(keys, lists, seen) && (k in keys || k == KeyOf(c))
    ensures ListOk(Add(lists, KeyOf(c), c), seen + [c], k)
  {
    assert k in keys ==> ListOk(lists, seen, k);
    FirstNext(seen, c, k);
    if k !in keys {
      GroupOfNew(seen, k);
    }
  }

  /** All lists of the dictionary, key after key. */
  function Joined(keys: seq<Key>, lists: map<Key, seq<Candidate>>): seq<Candidate>
    requires forall k :: k in keys ==> k in lists
  {
    if keys == [] then [] else Joined(keys[..|keys| - 1], lists) + lists[keys[|keys| - 1]]
  }

  lemma {:induction false} JoinedIsSpread(s: seq<Candidate>, keys: seq<Key>, lists: map<Key, seq<Candidate>>)
    requires forall k :: k in keys ==> k in lists && lists[k] == First(s, k)
    ensures Joined(keys, lists) == SpreadOver(s, keys)
  {
    if keys != [] {
      JoinedIsSpread(s, keys[..|keys| - 1], lists);
    }
  }

  method Evolution(cands: seq<Candidate>, topK: int) returns (results: seq<Candidate>)
    ensures results == ByDate(Picked(cands, topK))
  {
    var keys: seq<Key>, perEp: map<Key, seq<Candidate>> := [], map[];
    for i := 0 to |cands|
      invariant Filled(keys, perEp, cands[..i])
    {
      var c := cands[i];
      var key := KeyOf(c);
      assert cands[..i + 1] == cands[..i] + [c];
      FilledNext(keys, perEp, cands[..i], c);
      keys := if key in perEp then keys else keys + [key];
      perEp := Add(perEp, key, c);
    }
    assert cands[..|cands|] == cands;
    assert forall k :: k in keys ==> ListOk(perEp, cands, k);
    JoinedIsSpread(cands, keys, perEp);
    var spread := Joined(keys, perEp);
    results := ByDate(Take(BySimilarity(spread), topK));
  }

  lemma {:induction false} GroupOfNew(s: seq<Candidate>, k: Key)
    requires k !in Keys(s)
    ensures Group(s, k) == []
  {
    if s != [] {
      GroupOfNew(s[..|s| - 1], k);
    }
  }

  // ---------------------------------------------------------------- selection

  function Selected(
    k: Clock, candidates: seq<Candidate>, intent: Option<string>, topK: int): (seq<Candidate>, Presentation)
    requires k.halfLife > 0
  {
    var cands := BySimilarity(candidates);
    if cands == [] then ([], NewestFirst)
    else if intent == Some("current") then (Take(SortDescending(cands, Blended(k)), topK), NewestFirst)
    else if intent == Some("evolution") then (ByDate(Picked(cands, topK)), Chronological)
    else if intent == Some("prediction") then (ByDate(Take(cands, topK)), Chronological)
    else (Take(cands, topK), NewestFirst)
  }

  // ---------------------------------------------------------------- optimality of evolution

  /** Of one of these episodes and within a distance. */
  function Near(ks: seq<Key>, x: real): Candidate -> bool {
    (c: Candidate) => KeyOf(c) in ks && Distance(c) <= x
  }

  function Of(k: Key): Candidate -> bool { (c: Candidate) => KeyOf(c) == k }

  lemma {:induction false} GroupCounts(s: seq<Candidate>, k: Key, x: real)
    ensures CountIf(Group(s, k), Near([k], x)) == CountIf(s, Near([k], x))
    ensures |Group(s, k)| == CountIf(s, Of(k))
  {
    if s != [] {
      GroupCounts(s[..|s| - 1], k, x);
      CountConcat(Group(s[..|s| - 1], k), [s[|s| - 1]], Near([k], x));
    }
  }

  lemma {:induction false} GroupWithin(s: seq<Candidate>, k: Key)
    ensures multiset(Group(s, k)) <= multiset(s)
  {
    if s != [] {
      GroupWithin(s[..|s| - 1], k);
      assert s == s[..|s| - 1] + [s[|s| - 1]];
    }
  }

  lemma {:induction false} GroupSorted(s: seq<Candidate>, k: Key)
    requires Sorted(s, Distance)
    ensures Sorted(Group(s, k), Distance)
  {
    if s != [] {
      var t, c := s[..|s| - 1], s[|s| - 1];
      GroupSorted(t, k);
      GroupWithin(t, k);
      var g := Group(t, k);
      forall i | 0 <= i < |g| ensures Distance(g[i]) <= Distance(c) {
        assert g[i] in multiset(t);
        var j :| 0 <= j < |t| && t[j] == g[i];
        assert s[j] == t[j];
      }
    }
  }

  /** In a sorted list, if `m` elements are near, the `m`-th one is. */
  lemma {:induction false} SortedReach(p: seq<Candidate>, ks: seq<Key>, x: real, m: nat)
    requires Sorted(p, Distance) && 0 < m <= CountIf(p, Near(ks, x))
    ensures m <= |p| && Distance(p[m - 1]) <= x
  {
    if m < |p| {
      var last := |p| - 1;
      if Near(ks, x)(p[last]) {
        assert Distance(p[m - 1]) <= Distance(p[last]);
      } else {
        SortedReach(p[..last], ks, x, m);
      }
    }
  }

  /** Conversely, everything up to an element is near it. */
  lemma {:induction false} SortedCount(p: seq<Candidate>, ks: seq<Key>, j: nat)
    requires Sorted(p, Distance) && j < |p| && forall c :: c in p ==> KeyOf(c) in ks
    ensures CountIf(p, Near(ks, Distance(p[j]))) >= j + 1
  {
    AllNear(p[..j + 1], ks, Distance(p[j]));
    assert p == p[..j + 1] + p[j + 1..];
    CountConcat(p[..j + 1], p[j + 1..], Near(ks, Distance(p[j])));
  }

  lemma {:induction false} AllNear(p: seq<Candidate>, ks: seq<Key>, x: real)
    requires forall i :: 0 <= i < |p| ==> Near(ks, x)(p[i])
    ensures CountIf(p, Near(ks, x)) == |p|
  {
    if p != [] {
      AllNear(p[..|p| - 1], ks, x);
    }
  }

  /** In a sorted list the first few are the nearest. */
  lemma {:induction false} TakeNearest(g: seq<Candidate>, ks: seq<Key>, x: real, m: nat)
    requires Sorted(g, Distance) && m <= CountIf(g, Near(ks, x)) && m <= MAX_PER_EPISODE_EVOLUTION
    requires OfKeys(g, ks)
    ensures CountIf(Take(g, MAX_PER_EPISODE_EVOLUTION), Near(ks, x)) >= m
  {
    if m > 0 {
      SortedReach(g, ks, x, m);
      var f := Take(g, MAX_PER_EPISODE_EVOLUTION);
      forall i | 0 <= i < m ensures Near(ks, x)(f[..m][i]) {
        assert f[i] == g[i] && Distance(g[i]) <= Distance(g[m - 1]);
      }
      AllNear(f[..m], ks, x);
      assert f == f[..m] + f[m..];
      CountConcat(f[..m], f[m..], Near(ks, x));
    }
  }

  predicate OfKeys(g: seq<Candidate>, ks: seq<Key>) {
    forall i :: 0 <= i < |g| ==> KeyOf(g[i]) in ks
  }

  /** The first two of an episode are its nearest two. */
  lemma {:induction false} FirstAreNearest(s: seq<Candidate>, k: Key, x: real)
    requires Sorted(s, Distance)
    ensures var all := CountIf(s, Near([k], x));
            CountIf(First(s, k), Near([k], x))
            >= if all < MAX_PER_EPISODE_EVOLUTION then all else MAX_PER_EPISODE_EVOLUTION
  {
    GroupCounts(s, k, x);
    GroupSorted(s, k);
    var all := CountIf(s, Near([k], x));
    TakeNearest(Group(s, k), [k], x, if all < MAX_PER_EPISODE_EVOLUTION then all else MAX_PER_EPISODE_EVOLUTION);
  }

  lemma {:induction false} OneMoreKey(s: seq<Candidate>, ks: seq<Key>, k: Key, x: real)
    requires k !in ks
    ensures CountIf(s, Near(ks + [k], x)) == CountIf(s, Near(ks, x)) + CountIf(s, Near([k], x))
  {
    if s != [] {
      OneMoreKey(s[..|s| - 1], ks, k, x);
    }
  }

  /** At most two of each episode. */
  ghost predicate Capped(s: seq<Candidate>) {
    forall k :: CountIf(s, Of(k)) <= MAX_PER_EPISODE_EVOLUTION
  }

  function NumberedBy(n: int): Candidate -> bool { (c: Candidate) => c.number == Some(n) }

  /** No number, or the number 0, and this date. */
  function OnlyDated(d: Option<string>): Candidate -> bool {
    (c: Candidate) => (c.number == None || c.number == Some(0)) && c.date == d
  }

  lemma CountAlike(s: seq<Candidate>, p: Candidate -> bool, q: Candidate -> bool)
    requires forall x :: x in s ==> p(x) == q(x)
    ensures CountIf(s, p) == CountIf(s, q)
  {
    CountImplies(s, p, q);
    CountImplies(s, q, p);
  }

  lemma NumberCount(s: seq<Candidate>, n: int)
    ensures CountIf(s, Of(ByNumber(n))) == if n == 0 then 0 else CountIf(s, NumberedBy(n))
  {
    if n == 0 {
      CountAlike(s, Of(ByNumber(n)), c => false);
      NoneCount(s);
    } else {
      CountAlike(s, Of(ByNumber(n)), NumberedBy(n));
    }
  }

  lemma DateCount(s: seq<Candidate>, d: Option<string>)
    ensures CountIf(s, Of(ByDay(d))) == CountIf(s, OnlyDated(d))
  {
    CountAlike(s, Of(ByDay(d)), OnlyDated(d));
  }

  /** The cap in the fields of a chunk: at most two with the same number other than 0, and at
      most two with the same date among those without. */
  lemma CappedMeans(s: seq<Candidate>)
    ensures Capped(s) <==>
            && (forall n :: n != 0 ==> CountIf(s, NumberedBy(n)) <= 2)
            && (forall d :: CountIf(s, OnlyDated(d)) <= 2)
  {
    forall n ensures CountIf(s, Of(ByNumber(n))) == if n == 0 then 0 else CountIf(s, NumberedBy(n)) {
      NumberCount(s, n);
    }
    forall d ensures CountIf(s, Of(ByDay(d))) == CountIf(s, OnlyDated(d)) {
      DateCount(s, d);
    }
    if Capped(s) {
      forall n | n != 0 ensures CountIf(s, NumberedBy(n)) <= 2 {
        assert CountIf(s, Of(ByNumber(n))) <= MAX_PER_EPISODE_EVOLUTION;
      }
      forall d ensures CountIf(s, OnlyDated(d)) <= 2 {
        assert CountIf(s, Of(ByDay(d))) <= MAX_PER_EPISODE_EVOLUTION;
      }
    } else {
      var k :| CountIf(s, Of(k)) > MAX_PER_EPISODE_EVOLUTION;
      match k
      case ByNumber(n) => assert CountIf(s, NumberedBy(n)) > 2;
      case ByDay(d) => assert CountIf(s, OnlyDated(d)) > 2;
    }
  }

  /** Within any distance the spread has at least as many as any capped choice. */
  lemma {:induction false} SpreadReaches(s: seq<Candidate>, other: seq<Candidate>, ks: seq<Key>, x: real)
    requires Sorted(s, Distance) && multiset(other) <= multiset(s) && Capped(other) && Distinct(ks)
    ensures CountIf(other, Near(ks, x)) <= CountIf(SpreadOver(s, ks), Near(ks, x))
  {
    if ks == [] {
      CountImplies(other, Near(ks, x), c => false);
      NoneCount(other);
    } else {
      var t, k := ks[..|ks| - 1], ks[|ks| - 1];
      assert ks == t + [k];
      SpreadReaches(s, other, t, x);
      OneMoreKey(other, t, k, x);
      CountImplies(other, Near([k], x), Of(k));
      CountMonotone(other, s, Near([k], x));
      FirstAreNearest(s, k, x);
      CountConcat(SpreadOver(s, t), First(s, k), Near(ks, x));
      CountImplies(SpreadOver(s, t), Near(t, x), Near(ks, x));
      CountImplies(First(s, k), Near([k], x), Near(ks, x));
    }
  }

  lemma {:induction false} NoneCount(s: seq<Candidate>)
    ensures CountIf(s, c => false) == 0
  {
    if s != [] {
      NoneCount(s[..|s| - 1]);
    }
  }

  /** The choice of `evolution` is the best there is.  Against any choice from the candidates
      with at most two per episode and at most `topK` in all, it is at least as large and its
      j-th closest is at least as close, for every j. */
  lemma EvolutionIsOptimal(candidates: seq<Candidate>, topK: nat, other: seq<Candidate>)
    requires multiset(other) <= multiset(candidates) && Capped(other) && |other| <= topK
    requires Sorted(other, Distance)
    ensures var picked := Picked(BySimilarity(candidates), topK);
            && |other| <= |picked|
            && forall j :: 0 <= j < |other| ==> Distance(picked[j]) <= Distance(other[j])
  {
    var cands := BySimilarity(candidates);
    SortSorted(candidates, Distance);
    forall j: nat | j < |other|
      ensures j < |Picked(cands, topK)| && Distance(Picked(cands, topK)[j]) <= Distance(other[j])
    {
      RankIsReached(cands, other, j);
      TakeAt(Ranking(cands), topK, j);
    }
    if other != [] {
      RankIsReached(cands, other, |other| - 1);
      TakeAt(Ranking(cands), topK, |other| - 1);
    }
  }

  lemma TakeAt<T>(s: seq<T>, k: nat, j: nat)
    requires j < k && j < |s|
    ensures j < |Take(s, k)| && Take(s, k)[j] == s[j]
  {
  }

  lemma RankIsReached(cands: seq<Candidate>, other: seq<Candidate>, j: nat)
    requires Sorted(cands, Distance) && multiset(other) <= multiset(cands) && Capped(other)
    requires Sorted(other, Distance) && j < |other|
    ensures j < |Ranking(cands)| && Distance(Ranking(cands)[j]) <= Distance(other[j])
  {
    var ks := Keys(cands);
    forall c | c in other ensures KeyOf(c) in ks {
      assert c in multiset(other) && c in multiset(cands);
      KeysHold(cands, c);
    }
    SortedCount(other, ks, j);
    SpreadReaches(cands, other, ks, Distance(other[j]));
    ReachSorted(SpreadOver(cands, ks), ks, Distance(other[j]), j + 1);
  }

  lemma ReachSorted(s: seq<Candidate>, ks: seq<Key>, x: real, m: nat)
    requires 0 < m <= CountIf(s, Near(ks, x))
    ensures m <= |BySimilarity(s)| && Distance(BySimilarity(s)[m - 1]) <= x
  {
    SortSorted(s, Distance);
    CountMonotone(s, BySimilarity(s), Near(ks, x));
    SortedReach(BySimilarity(s), ks, x, m);
  }

  lemma {:induction false} SpreadCapped(s: seq<Candidate>, ks: seq<Key>, k: Key)
    requires Distinct(ks)
    ensures CountIf(SpreadOver(s, ks), Of(k)) <= if k in ks then MAX_PER_EPISODE_EVOLUTION else 0
  {
    if ks != [] {
      var t, l := ks[..|ks| - 1], ks[|ks| - 1];
      assert ks == t + [l];
      SpreadCapped(s, t, k);
      CountConcat(SpreadOver(s, t), First(s, l), Of(k));
      if k != l {
        CountImplies(First(s, l), Of(k), c => false);
        NoneCount(First(s, l));
      }
    }
  }

  lemma PrefixWithin<T>(s: seq<T>, r: seq<T>)
    requires r <= s
    ensures multiset(r) <= multiset(s)
  {
    assert s == r + s[|r|..];
  }

  /** The elements of one episode, and those of the others. */
  lemma {:induction false} SpreadWithin(s: seq<Candidate>, ks: seq<Key>)
    requires Distinct(ks)
    ensures forall c :: multiset(SpreadOver(s, ks))[c] <= if KeyOf(c) in ks then multiset(s)[c] else 0
  {
    if ks != [] {
      var t, k := ks[..|ks| - 1], ks[|ks| - 1];
      assert ks == t + [k];
      SpreadWithin(s, t);
      GroupWithin(s, k);
      PrefixWithin(Group(s, k), First(s, k));
      forall c ensures multiset(SpreadOver(s, ks))[c] <= if KeyOf(c) in ks then multiset(s)[c] else 0 {
        assert multiset(SpreadOver(s, ks))[c] == multiset(SpreadOver(s, t))[c] + multiset(First(s, k))[c];
        if KeyOf(c) != k {
          assert c !in First(s, k);
        } else {
          assert multiset(First(s, k))[c] <= multiset(Group(s, k))[c] <= multiset(s)[c];
        }
      }
    }
  }

  /** It is such a choice itself. */
  lemma EvolutionIsFeasible(candidates: seq<Candidate>, topK: int)
    ensures var picked := Picked(BySimilarity(candidates), topK);
            && multiset(picked) <= multiset(candidates) && Capped(picked)
            && (topK >= 0 ==> |picked| <= topK) && Sorted(picked, Distance)
  {
    var cands := BySimilarity(candidates);
    var ks := Keys(cands);
    var spread := SpreadOver(cands, ks);
    var picked := Picked(cands, topK);
    SortSorted(spread, Distance);
    PrefixWithin(BySimilarity(spread), picked);
    SpreadInside(cands, ks);
    forall k ensures CountIf(picked, Of(k)) <= MAX_PER_EPISODE_EVOLUTION {
      CountMonotone(picked, spread, Of(k));
      SpreadCapped(cands, ks, k);
    }
  }

  lemma SpreadInside(s: seq<Candidate>, ks: seq<Key>)
    requires Distinct(ks)
    ensures multiset(SpreadOver(s, ks)) <= multiset(s)
  {
    SpreadWithin(s, ks);
  }

  // ---------------------------------------------------------------- every intent

  /** The results are candidates, and no candidate left out comes before one of them. */
  ghost predicate Closest(candidates: seq<Candidate>, results: seq<Candidate>, key: Candidate -> real) {
    && multiset(results) <= multiset(candidates)
    && forall r, o :: r in results && o in multiset(candidates) - multiset(results) ==> key(r) <= key(o)
  }

  /** A choice `evolution` could have made. */
  ghost predicate Choice(candidates: seq<Candidate>, topK: int, s: seq<Candidate>) {
    multiset(s) <= multiset(candidates) && Capped(s) && |s| <= topK
  }

  /** At least as many, and the j-th closest at least as close, for every j. */
  ghost predicate Dominates(a: seq<Candidate>, b: seq<Candidate>) {
    && |b| <= |a|
    && forall j :: 0 <= j < |b| ==> Distance(BySimilarity(a)[j]) <= Distance(BySimilarity(b)[j])
  }

  ghost predicate BestChoice(candidates: seq<Candidate>, topK: int, s: seq<Candidate>) {
    Choice(candidates, topK, s) && forall other :: Choice(candidates, topK, other) ==> Dominates(s, other)
  }

  lemma PrefixRest(s: seq<Candidate>, r: seq<Candidate>)
    requires r <= s
    ensures multiset(r) <= multiset(s) && multiset(s) - multiset(r) == multiset(s[|r|..])
  {
    assert s == r + s[|r|..];
  }

  lemma PrefixIsCloser(s: seq<Candidate>, n: nat, key: Candidate -> real, x: Candidate, o: Candidate)
    requires Sorted(s, key) && n <= |s| && x in s[..n] && o in s[n..]
    ensures key(x) <= key(o)
  {
    var i :| 0 <= i < n && s[..n][i] == x;
    var j :| 0 <= j < |s| - n && s[n..][j] == o;
    assert key(s[i]) <= key(s[n + j]);
  }

  lemma TakeIsClosest(candidates: seq<Candidate>, s: seq<Candidate>, k: int, key: Candidate -> real)
    requires multiset(s) == multiset(candidates) && Sorted(s, key)
    ensures Closest(candidates, Take(s, k), key) && Sorted(Take(s, k), key)
  {
    var r := Take(s, k);
    PrefixRest(s, r);
    assert r == s[..|r|];
    forall x, o | x in r && o in multiset(candidates) - multiset(r) ensures key(x) <= key(o) {
      assert o in multiset(s[|r|..]);
      PrefixIsCloser(s, |r|, key, x, o);
    }
  }

  lemma ClosestPermuted(candidates: seq<Candidate>, a: seq<Candidate>, b: seq<Candidate>, key: Candidate -> real)
    requires Closest(candidates, a, key) && multiset(a) == multiset(b)
    ensures Closest(candidates, b, key)
  {
    forall r | r in b ensures r in a {
      SameElements(a, b, r);
    }
  }

  /** Two sorted lists of the same elements have the same distances, one by one. */
  lemma NoFarther(p: seq<Candidate>, q: seq<Candidate>, j: nat)
    requires Sorted(p, Distance) && Sorted(q, Distance) && multiset(p) == multiset(q) && j < |q|
    ensures j < |p| && Distance(p[j]) <= Distance(q[j])
  {
    var ks := Keys(q);
    forall c | c in q ensures KeyOf(c) in ks {
      KeysHold(q, c);
    }
    SortedCount(q, ks, j);
    CountMonotone(q, p, Near(ks, Distance(q[j])));
    SortedReach(p, ks, Distance(q[j]), j + 1);
  }

  lemma CappedPermuted(a: seq<Candidate>, b: seq<Candidate>)
    requires Capped(a) && multiset(a) == multiset(b)
    ensures Capped(b)
  {
    forall k ensures CountIf(b, Of(k)) <= MAX_PER_EPISODE_EVOLUTION {
      CountMonotone(b, a, Of(k));
    }
  }

  lemma EvolutionDominates(candidates: seq<Candidate>, topK: nat, results: seq<Candidate>, other: seq<Candidate>)
    requires multiset(results) == multiset(Picked(BySimilarity(candidates), topK))
    requires Choice(candidates, topK, other)
    ensures Dominates(results, other)
  {
    var picked := Picked(BySimilarity(candidates), topK);
    var sorted := BySimilarity(other);
    SortSorted(other, Distance);
    CappedPermuted(other, sorted);
    assert |multiset(other)| == |other| && |multiset(sorted)| == |sorted|;
    EvolutionIsOptimal(candidates, topK, sorted);
    assert |multiset(results)| == |results| && |multiset(picked)| == |picked|;
    EvolutionIsFeasible(candidates, topK);
    SortSorted(results, Distance);
    forall j | 0 <= j < |other| ensures Distance(BySimilarity(results)[j]) <= Distance(sorted[j]) {
      NoFarther(BySimilarity(results), picked, j);
    }
  }

  lemma EvolutionIsBest(candidates: seq<Candidate>, topK: nat, results: seq<Candidate>)
    requires multiset(results) == multiset(Picked(BySimilarity(candidates), topK))
    ensures BestChoice(candidates, topK, results)
  {
    var picked := Picked(BySimilarity(candidates), topK);
    EvolutionIsFeasible(candidates, topK);
    CappedPermuted(picked, results);
    assert |multiset(results)| == |results| && |multiset(picked)| == |picked|;
    forall other | Choice(candidates, topK, other) ensures Dominates(results, other) {
      EvolutionDominates(candidates, topK, results, other);
    }
  }

  /** How far a chunk's recency outweighs its distance. */
  function Merit(k: Clock, c: Candidate): real
    requires k.halfLife > 0
  {
    Recency(k, DateOf(c)) - Distance(c)
  }

  /** `current` would rather show `x`: its recency outweighs its distance by more, or by as
      much and it is no further. */
  predicate Preferred(k: Clock, x: Candidate, y: Candidate)
    requires k.halfLife > 0
  {
    Merit(k, x) > Merit(k, y) || (Merit(k, x) == Merit(k, y) && Distance(x) <= Distance(y))
  }

  /** The results in order of preference, and nothing left out preferred to any of them. */
  ghost predicate BestBlend(k: Clock, candidates: seq<Candidate>, results: seq<Candidate>)
    requires k.halfLife > 0
  {
    && multiset(results) <= multiset(candidates)
    && (forall i, j :: 0 <= i < j < |results| ==> Preferred(k, results[i], results[j]))
    && (forall r, o :: r in results && o in multiset(candidates) - multiset(results) ==> Preferred(k, r, o))
  }

  /** What a caller gets, intent by intent. */
  ghost predicate Answers(
    k: Clock, candidates: seq<Candidate>, intent: Option<string>, topK: int,
    results: seq<Candidate>, order: Presentation)
    requires k.halfLife > 0
  {
    && multiset(results) <= multiset(candidates)
    && (order == Chronological <==> candidates != [] && (intent == Some("evolution") || intent == Some("prediction")))
    && (order == Chronological ==> Ordered(results, ByText(DateOf)))
    && if intent == Some("evolution") then topK >= 0 ==> BestChoice(candidates, topK, results)
       else if intent == Some("current") then
         Full(candidates, topK, results) && BestBlend(k, candidates, results)
       else
         Full(candidates, topK, results) && Closest(candidates, results, Distance)
         && (intent != Some("prediction") ==> Sorted(results, Distance))
  }

  /** As many as asked for, or all. */
  predicate Full(candidates: seq<Candidate>, topK: int, results: seq<Candidate>) {
    topK >= 0 ==> |results| == if topK < |candidates| then topK else |candidates|
  }

  /** Half closeness and half recency prefer as recency minus distance does. */
  lemma BlendPrefers(k: Clock, x: Candidate, y: Candidate)
    requires k.halfLife > 0
    ensures Then(ByKey(Negated(Blended(k))), ByKey(Distance))(x, y) <==> Preferred(k, x, y)
  {
    assert Blended(k)(x) == 0.5 + 0.5 * Merit(k, x) && Blended(k)(y) == 0.5 + 0.5 * Merit(k, y);
  }

  lemma CurrentRanking(k: Clock, candidates: seq<Candidate>)
    requires k.halfLife > 0
    ensures var r := SortDescending(BySimilarity(candidates), Blended(k));
            forall i, j :: 0 <= i < j < |r| ==> Preferred(k, r[i], r[j])
  {
    var cands := BySimilarity(candidates);
    SortSorted(candidates, Distance);
    assert Ordered(cands, ByKey(Distance));
    ArrangeThen(cands, ByKey(Negated(Blended(k))), ByKey(Distance));
    var r := SortDescending(cands, Blended(k));
    forall i, j | 0 <= i < j < |r| ensures Preferred(k, r[i], r[j]) {
      BlendPrefers(k, r[i], r[j]);
    }
  }

  /** The first few of a ranking are preferred to the rest. */
  lemma TakeIsBestBlend(k: Clock, candidates: seq<Candidate>, s: seq<Candidate>, topK: int)
    requires k.halfLife > 0 && multiset(s) == multiset(candidates)
    requires forall i, j :: 0 <= i < j < |s| ==> Preferred(k, s[i], s[j])
    ensures BestBlend(k, candidates, Take(s, topK))
  {
    var r := Take(s, topK);
    PrefixRest(s, r);
    assert r == s[..|r|];
    forall x, o | x in r && o in multiset(candidates) - multiset(r) ensures Preferred(k, x, o) {
      assert o in multiset(s[|r|..]);
      var i :| 0 <= i < |r| && r[i] == x;
      var j :| 0 <= j < |s| - |r| && s[|r|..][j] == o;
      assert Preferred(k, s[i], s[|r| + j]);
    }
  }

  lemma CurrentAnswers(k: Clock, candidates: seq<Candidate>, topK: int)
    requires k.halfLife > 0
    ensures var r := Take(SortDescending(BySimilarity(candidates), Blended(k)), topK);
            Full(candidates, topK, r) && BestBlend(k, candidates, r)
  {
    var cands := BySimilarity(candidates);
    assert |multiset(cands)| == |cands| && |multiset(candidates)| == |candidates|;
    CurrentRanking(k, candidates);
    TakeIsBestBlend(k, candidates, SortDescending(cands, Blended(k)), topK);
  }

  lemma NearestAnswers(candidates: seq<Candidate>, topK: int)
    ensures var r := Take(BySimilarity(candidates), topK);
            Full(candidates, topK, r) && Closest(candidates, r, Distance) && Sorted(r, Distance)
  {
    var cands := BySimilarity(candidates);
    assert |multiset(cands)| == |cands| && |multiset(candidates)| == |candidates|;
    SortSorted(candidates, Distance);
    TakeIsClosest(candidates, cands, topK, Distance);
  }

  lemma PredictionAnswers(candidates: seq<Candidate>, topK: int)
    ensures var r := ByDate(Take(BySimilarity(candidates), topK));
            Full(candidates, topK, r) && Closest(candidates, r, Distance) && Ordered(r, ByText(DateOf))
  {
    NearestAnswers(candidates, topK);
    var taken := Take(BySimilarity(candidates), topK);
    ClosestPermuted(candidates, taken, ByDate(taken), Distance);
    ByTextPreorder(DateOf);
    ArrangeOrdered(taken, ByText(DateOf));
  }

  lemma EvolutionAnswers(candidates: seq<Candidate>, topK: int)
    ensures var r := ByDate(Picked(BySimilarity(candidates), topK));
            && multiset(r) <= multiset(candidates) && Ordered(r, ByText(DateOf))
            && (topK >= 0 ==> BestChoice(candidates, topK, r))
  {
    var picked := Picked(BySimilarity(candidates), topK);
    EvolutionIsFeasible(candidates, topK);
    ByTextPreorder(DateOf);
    ArrangeOrdered(picked, ByText(DateOf));
    if topK >= 0 {
      EvolutionIsBest(candidates, topK, ByDate(picked));
    }
  }

  /** No candidates, no results. */
  lemma NoCandidates(k: Clock, intent: Option<string>, topK: int)
    requires k.halfLife > 0
    ensures Answers(k, [], intent, topK, [], NewestFirst)
  {
    var none: seq<Candidate> := [];
    assert BySimilarity(none) == [];
    assert Take(none, topK) == [];
    if intent == Some("current") {
      CurrentAnswers(k, none, topK);
      assert SortDescending(BySimilarity(none), Blended(k)) == [];
    } else if intent == Some("evolution") {
      EvolutionAnswers(none, topK);
      assert Picked(none, topK) == [];
    } else {
      NearestAnswers(none, topK);
    }
  }

  lemma SelectionAnswers(k: Clock, candidates: seq<Candidate>, intent: Option<string>, topK: int)
    requires k.halfLife > 0
    ensures var (results, order) := Selected(k, candidates, intent, topK);
            Answers(k, candidates, intent, topK, results, order)
  {
    var cands := BySimilarity(candidates);
    assert |multiset(cands)| == |cands| && |multiset(candidates)| == |candidates|;
    if cands == [] {
      NoCandidates(k, intent, topK);
    } else if intent == Some("current") {
      CurrentAnswers(k, candidates, topK);
    } else if intent == Some("evolution") {
      EvolutionAnswers(candidates, topK);
    } else if intent == Some("prediction") {
      PredictionAnswers(candidates, topK);
    } else {
      NearestAnswers(candidates, topK);
    }
  }

  /** `current`: the best blend of closeness and recency.  `evolution`: the best choice of at
      most two per episode, by date.  `prediction`: the closest, by date.  Otherwise: the
      closest. */
  method SelectForIntent(k: Clock, candidates: seq<Candidate>, intent: Option<string>, topK: int)
    returns (results: seq<Candidate>, order: Presentation)
    requires k.halfLife > 0
    ensures Answers(k, candidates, intent, topK, results, order)
    ensures (results, order) == Selected(k, candidates, intent, topK)
  {
    SelectionAnswers(k, candidates, intent, topK);
    var cands := BySimilarity(candidates);
    if cands == [] {
      return [], NewestFirst;
    }
    if intent == Some("current") {
      return Take(SortDescending(cands, Blended(k)), topK), NewestFirst;
    }
    if intent == Some("evolution") {
      results := Evolution(cands, topK);
      return results, Chronological;
    }
    if intent == Some("prediction") {
      return ByDate(Take(cands, topK)), Chronological;
    }
    return Take(cands, topK), NewestFirst;
  }

  /** All of the candidate's occurrences are among the results, each before each of `b`. */
  ghost predicate AllBefore(candidates: seq<Candidate>, results: seq<Candidate>, a: Candidate, b: Candidate) {
    && multiset(results)[a] == multiset(candidates)[a]
    && forall i, j :: 0 <= i < |results| && 0 <= j < |results| && results[i] == a && results[j] == b ==> i < j
  }

  /** For `current`: whenever a chunk is selected, every chunk whose recency outweighs its
      distance by more is selected too and stands before it, and on equality the closer one. */
  lemma CurrentWeighsRecencyAgainstDistance(
    k: Clock, candidates: seq<Candidate>, topK: int, a: Candidate, b: Candidate)
    requires k.halfLife > 0 && a in candidates
    requires var gain, loss := Recency(k, DateOf(a)) - Recency(k, DateOf(b)), Distance(a) - Distance(b);
             gain > loss || (gain == loss && Distance(a) < Distance(b))
    ensures var results := Selected(k, candidates, Some("current"), topK).0;
            b in results ==> AllBefore(candidates, results, a, b)
  {
    var results := Selected(k, candidates, Some("current"), topK).0;
    SelectionAnswers(k, candidates, Some("current"), topK);
    assert !Preferred(k, b, a);
    if b in results {
      assert a !in multiset(candidates) - multiset(results);
    }
  }

  /** For `current`, a chunk that is closer and no older is never passed over for another. */
  lemma CurrentPrefersCloserAndNewer(k: Clock, candidates: seq<Candidate>, topK: int, a: Candidate, b: Candidate)
    requires k.halfLife > 0 && a in candidates
    requires Distance(a) < Distance(b) && Recency(k, DateOf(a)) >= Recency(k, DateOf(b))
    ensures var results := Selected(k, candidates, Some("current"), topK).0;
            b in results ==> AllBefore(candidates, results, a, b)
  {
    CurrentWeighsRecencyAgainstDistance(k, candidates, topK, a, b);
  }

  /** At equal distance the newer of two chunks stands first, when the older is of the past. */
  lemma CurrentPrefersNewer(k: Clock, candidates: seq<Candidate>, topK: int, a: Candidate, b: Candidate)
    requires Decays(k) && a in candidates && Distance(a) == Distance(b)
    requires k.parse(DateOf(a)).Some? && k.parse(DateOf(b)).Some?
    requires k.parse(DateOf(b)).value < k.parse(DateOf(a)).value && k.parse(DateOf(b)).value < k.today
    ensures var results := Selected(k, candidates, Some("current"), topK).0;
            b in results ==> AllBefore(candidates, results, a, b)
  {
    RecencyDecays(k, DateOf(b), DateOf(a));
    CurrentWeighsRecencyAgainstDistance(k, candidates, topK, a, b);
  }

  /** A further chunk passes a closer one, both selected, exactly when its gain in recency
      exceeds its loss in closeness. */
  lemma FurtherPassesExactlyWhen(k: Clock, candidates: seq<Candidate>, topK: int, a: Candidate, b: Candidate)
    requires k.halfLife > 0 && a in candidates && b in candidates && Distance(a) > Distance(b)
    requires var results := Selected(k, candidates, Some("current"), topK).0; a in results && b in results
    ensures var results := Selected(k, candidates, Some("current"), topK).0;
            AllBefore(candidates, results, a, b)
            <==> Recency(k, DateOf(a)) - Recency(k, DateOf(b)) > Distance(a) - Distance(b)
  {
    var results := Selected(k, candidates, Some("current"), topK).0;
    if Recency(k, DateOf(a)) - Recency(k, DateOf(b)) > Distance(a) - Distance(b) {
      CurrentWeighsRecencyAgainstDistance(k, candidates, topK, a, b);
    } else {
      CurrentWeighsRecencyAgainstDistance(k, candidates, topK, b, a);
      var i :| 0 <= i < |results| && results[i] == a;
      var j :| 0 <= j < |results| && results[j] == b;
      assert j < i;
    }
  }

  /** The old speculation survives: prediction keeps the same chunks as plain relevance. */
  lemma PredictionKeepsOldChunks(k: Clock, candidates: seq<Candidate>, topK: int)
    requires k.halfLife > 0
    ensures multiset(Selected(k, candidates, Some("prediction"), topK).0)
            == multiset(Selected(k, candidates, None, topK).0)
  {
  }
}
