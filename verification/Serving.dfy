/** The process cache of the serving corpus, over one publisher that may write, crash and
    flip between any two gets of a call. */
module Serving {
  import opened Options
  import opened Frames
  import opened Artifact
  import opened Publishing
  import Freshness

  /** One call: the clock when it begins, its time to live, and the store as it is at each
      of the gets the call may make, in order (pointer; pointer, parquet, matrix, index of
      the load; pointer, manifest of the validation). */
  datatype Request = Request(now: real, ttl: real, views: seq<State>)

  const GETS := 7

  type Cache = Freshness.Cache<Corpus>

  function VersionOf(c: Corpus): nat { c.version }

  function Load(env: Env, views: seq<State>): Reader
    requires |views| == GETS
  {
    var r := ReadStep(env, views[1].store, Opened);
    ReadStep(env, views[4].store, ReadStep(env, views[3].store, ReadStep(env, views[2].store, r)))
  }

  /** The manifest under the version that is current at one get, read at the next. */
  function LoadManifest(pointer: Store, manifest: Store): Option<Manifest> {
    match ReadPointer(pointer)
    case GotPointer(v, _) =>
      if ManifestKey(v) in manifest && manifest[ManifestKey(v)].ManifestObj?
      then Some(manifest[ManifestKey(v)].manifest) else None
    case _ => None
  }

  predicate Valid(c: Corpus, m: Manifest, embedModel: string) {
    (|c.embeddings| > 0 ==> |c.embeddings[0]| == m.dims) && m.embedModel == embedModel
  }

  /** Load and validate; absent when either raises. */
  function Reload(env: Env, views: seq<State>, embedModel: string): Option<Corpus>
    requires |views| == GETS
  {
    var r, m := Load(env, views), LoadManifest(views[5].store, views[6].store);
    if r.Loaded? && m.Some? && Valid(r.corpus, m.value, embedModel) then Some(r.corpus) else None
  }

  function PointerVersion(s: State): nat {
    if ReadPointer(s.store).GotPointer? then ReadPointer(s.store).version else 0
  }

  /** The call as the cache sees it. */
  function Observed(env: Env, embedModel: string, q: Request): Freshness.Call<Corpus>
    requires |q.views| == GETS
  {
    Freshness.Call(q.now, q.ttl, PointerVersion(q.views[0]), PointerVersion(q.views[1]),
                   PointerVersion(q.views[GETS - 1]), ReadPointer(q.views[0].store).GotPointer?,
                   Reload(env, q.views, embedModel))
  }

  class ServingCache {
    var corpus: Option<Corpus>
    var version: Option<nat>
    var checkedAt: real

    function State(): Cache
      reads this
    {
      Freshness.Cache(corpus, version, checkedAt)
    }

    constructor ()
      ensures State() == Freshness.Empty()
    {
      corpus, version, checkedAt := None, None, 0.0;
    }

    /** A reload that raises leaves the cache as it was. */
    method CurrentCorpus(env: Env, embedModel: string, q: Request) returns (r: Option<Corpus>)
      requires |q.views| == GETS
      modifies this
      ensures (State(), r) == Freshness.Answer(VersionOf, old(State()), Observed(env, embedModel, q))
      ensures r.None? ==> State() == old(State())
    {
      var cached := corpus;
      if cached.Some? && q.now - checkedAt < q.ttl {
        return cached;
      }
      var pointer := ReadPointer(q.views[0].store);
      if !pointer.GotPointer? {
        return None;
      }
      if cached.Some? && version == Some(pointer.version) {
        checkedAt := q.now;
        return cached;
      }
      var loaded := Load(env, q.views);
      if !loaded.Loaded? {
        return None;
      }
      var manifest := LoadManifest(q.views[5].store, q.views[6].store);
      if manifest.None? || !Valid(loaded.corpus, manifest.value, embedModel) {
        return None;
      }
      corpus := Some(loaded.corpus);
      version := Some(loaded.corpus.version);
      checkedAt := q.now;
      return Some(loaded.corpus);
    }
  }

  // ---------------------------------------------------------------- sequences of calls

  /** `u` is the same deployment at a later moment, with one publisher. */
  ghost predicate Later(env: Env, s: State, u: State) {
    SoloInv(env, s) && SoloInv(env, u) && Extends(s, u) && Top(s) <= Top(u)
  }

  lemma LaterTransitive(env: Env, s: State, u: State, v: State)
    requires Later(env, s, u) && Later(env, u, v)
    ensures Later(env, s, v)
  {
  }

  /** The gets of one call, in order. */
  ghost predicate RequestOk(env: Env, q: Request) {
    && |q.views| == GETS
    && (forall k, l :: 0 <= k <= l < GETS ==> Later(env, q.views[k], q.views[l]))
  }

  /** One process: calls follow each other, and the clock does not run backwards. */
  ghost predicate Sequential(env: Env, qs: seq<Request>) {
    && (forall i :: 0 <= i < |qs| ==> RequestOk(env, qs[i]))
    && (forall i, j :: 0 <= i < j < |qs| ==>
         qs[i].now <= qs[j].now && Later(env, qs[i].views[GETS - 1], qs[j].views[0]))
  }

  function Calls(env: Env, embedModel: string, qs: seq<Request>): (cs: seq<Freshness.Call<Corpus>>)
    requires forall i :: 0 <= i < |qs| ==> |qs[i].views| == GETS
    ensures |cs| == |qs|
    ensures forall i :: 0 <= i < |qs| ==> cs[i] == Observed(env, embedModel, qs[i])
  {
    seq(|qs|, i requires 0 <= i < |qs| => Observed(env, embedModel, qs[i]))
  }

  /** This version is the current one at this moment. */
  ghost predicate CurrentIs(env: Env, s: State, v: nat) { SoloInv(env, s) && v == Top(s) }

  /** The corpus is the version current at this moment, served whole. */
  ghost predicate IsCurrent(env: Env, s: State, c: Corpus) {
    CurrentIs(env, s, c.version) && c.version in s.published && Serves(env, c, s.published[c.version])
  }

  lemma PointerIsTop(env: Env, s: State)
    requires PublishedOk(env, s)
    ensures ReadPointer(s.store) == GotPointer(Top(s), env.sha(s.published[Top(s)]))
  {
  }

  lemma ParquetIsThere(env: Env, s: State, u: State, v: nat)
    requires v in s.published && Extends(s, u) && PublishedOk(env, u)
    ensures ReadParquet(env, u.store, v, env.sha(s.published[v]))
            == GotParquet(v, env.sha(s.published[v]), s.published[v])
    ensures s.published[v] in env.corpora
  {
    assert VersionOk(env, u, v);
  }

  /** What a successful load returns was current when the load read the pointer. */
  lemma LoadIsCurrent(env: Env, views: seq<State>)
    requires Good(env) && |views| == GETS
    requires Later(env, views[1], views[2]) && FramesOk(env, views[3].store) && FramesOk(env, views[4].store)
    requires Load(env, views).Loaded?
    ensures IsCurrent(env, views[1], Load(env, views).corpus)
  {
    var rows := views[1].published[Top(views[1])];
    PointerIsTop(env, views[1]);
    ParquetIsThere(env, views[1], views[2], Top(views[1]));
    var r2 := GotParquet(Top(views[1]), env.sha(rows), rows);
    assert ReadStep(env, views[2].store, ReadStep(env, views[1].store, Opened)) == r2;
    LoadRest(env, views[3].store, views[4].store, r2, rows);
  }

  lemma LoadRest(env: Env, s3: Store, s4: Store, r2: Reader, rows: Rows)
    requires Good(env) && FramesOk(env, s3) && FramesOk(env, s4) && rows in env.corpora
    requires r2.GotParquet? && r2.rows == rows && r2.sha == env.sha(rows)
    ensures var r4 := ReadStep(env, s4, ReadStep(env, s3, r2));
            r4.Loaded? ==> r4.corpus.version == r2.version && Serves(env, r4.corpus, rows)
  {
    ReadServes(env, s3, r2, rows);
    var r3 := ReadStep(env, s3, r2);
    if r3.Parsed? {
      ReadServes(env, s4, r3, rows);
    }
  }

  /** The gets of a call see the version current at their moments, and a reload returns the
      version its own pointer read found, whole. */
  ghost predicate Observes(env: Env, q: Request, c: Freshness.Call<Corpus>) {
    && |q.views| == GETS && c.reached
    && CurrentIs(env, q.views[0], c.first) && CurrentIs(env, q.views[1], c.second)
    && CurrentIs(env, q.views[GETS - 1], c.last)
    && (c.loaded.Some? ==> IsCurrent(env, q.views[1], c.loaded.value))
  }

  lemma ObservedFacts(env: Env, embedModel: string, q: Request)
    requires Good(env) && RequestOk(env, q)
    ensures Observes(env, q, Observed(env, embedModel, q))
    ensures Freshness.CallOk(VersionOf, Observed(env, embedModel, q))
  {
    assert Later(env, q.views[0], q.views[1]) && Later(env, q.views[1], q.views[6]);
    assert Later(env, q.views[1], q.views[2]) && Later(env, q.views[3], q.views[4]);
    PointerIsTop(env, q.views[0]);
    PointerIsTop(env, q.views[1]);
    PointerIsTop(env, q.views[GETS - 1]);
    if Load(env, q.views).Loaded? {
      LoadIsCurrent(env, q.views);
    }
  }

  lemma CallsInOrder(env: Env, embedModel: string, qs: seq<Request>)
    requires Good(env) && Sequential(env, qs)
    ensures forall i :: 0 <= i < |qs| ==> |qs[i].views| == GETS
    ensures Freshness.InOrder(VersionOf, Calls(env, embedModel, qs))
  {
    assert forall i :: 0 <= i < |qs| ==> RequestOk(env, qs[i]);
    var cs := Calls(env, embedModel, qs);
    forall i | 0 <= i < |cs| ensures Freshness.CallOk(VersionOf, cs[i]) {
      ObservedFacts(env, embedModel, qs[i]);
    }
    forall i, j | 0 <= i < j < |cs| ensures cs[i].now <= cs[j].now && cs[i].last <= cs[j].first {
      ObservedFacts(env, embedModel, qs[i]);
      ObservedFacts(env, embedModel, qs[j]);
      assert Later(env, qs[i].views[GETS - 1], qs[j].views[0]);
    }
  }

  /** Some get of the call saw this version as the current one. */
  ghost predicate SawCurrent(env: Env, q: Request, v: nat) {
    |q.views| == GETS && (CurrentIs(env, q.views[0], v) || CurrentIs(env, q.views[1], v))
  }

  /** The corpus is what a load of one of the first calls found current, whole. */
  ghost predicate LoadedWhole(env: Env, qs: seq<Request>, i: nat, c: Corpus) {
    exists m: nat :: m <= i && m < |qs| && |qs[m].views| == GETS && IsCurrent(env, qs[m].views[1], c)
  }

  /** A get of call `i`, or of one less than its time to live ago, saw this version. */
  ghost predicate SeenRecently(env: Env, qs: seq<Request>, i: nat, v: nat)
    requires i < |qs|
  {
    exists j: nat :: j <= i && SawCurrent(env, qs[j], v) && (j == i || qs[i].now - qs[j].now < qs[i].ttl)
  }

  lemma LoadsAreWhole(env: Env, qs: seq<Request>, cs: seq<Freshness.Call<Corpus>>, i: nat, c: Corpus)
    requires |cs| == |qs| && i < |qs| && (forall k :: 0 <= k < |qs| ==> Observes(env, qs[k], cs[k]))
    requires Freshness.LoadedBefore(cs, i + 1, Some(c))
    ensures LoadedWhole(env, qs, i, c)
  {
    var m: nat :| m < i + 1 && cs[m].loaded == Some(c);
    assert Observes(env, qs[m], cs[m]);
  }

  lemma SightsAreCurrent(env: Env, qs: seq<Request>, cs: seq<Freshness.Call<Corpus>>, i: nat, v: nat)
    requires |cs| == |qs| && i < |qs| && (forall k :: 0 <= k < |qs| ==> Observes(env, qs[k], cs[k]))
    requires forall k :: 0 <= k < |qs| ==> cs[k].now == qs[k].now && cs[k].ttl == qs[k].ttl
    requires Freshness.SeenRecently(cs, i, v)
    ensures SeenRecently(env, qs, i, v)
  {
    var j: nat :| j <= i && Freshness.Saw(cs[j], v) && (j == i || cs[i].now - cs[j].now < cs[i].ttl);
    assert Observes(env, qs[j], cs[j]);
    assert SawCurrent(env, qs[j], v);
  }

  /** Bounded staleness of the serving cache, from its empty start.  Every answer of a
      sequence of calls is a version that a get of this very call, or of one less than the
      time to live ago, saw as the current one, and it holds the rows published under that
      version, with their matrix and, if any, their index. */
  lemma AnswersAreFresh(env: Env, embedModel: string, qs: seq<Request>, i: nat)
    requires Good(env) && Sequential(env, qs) && i < |qs|
    requires forall k :: 0 <= k < |qs| ==> |qs[k].views| == GETS
    requires Freshness.AnswerAt(VersionOf, Calls(env, embedModel, qs), i).Some?
    ensures var c := Freshness.AnswerAt(VersionOf, Calls(env, embedModel, qs), i).value;
            LoadedWhole(env, qs, i, c) && SeenRecently(env, qs, i, c.version)
  {
    CallsInOrder(env, embedModel, qs);
    var cs := Calls(env, embedModel, qs);
    Freshness.AnswersAreFresh(VersionOf, cs, i);
    var c := Freshness.AnswerAt(VersionOf, cs, i).value;
    forall k | 0 <= k < |qs| ensures Observes(env, qs[k], cs[k]) {
      ObservedFacts(env, embedModel, qs[k]);
    }
    LoadsAreWhole(env, qs, cs, i, c);
    SightsAreCurrent(env, qs, cs, i, c.version);
  }

  /** Every moment of a call is followed by the last moment of the last call. */
  lemma LastIsLater(env: Env, qs: seq<Request>, j: nat, k: nat)
    requires Sequential(env, qs) && j < |qs| && k < GETS
    ensures |qs[j].views| == GETS && |qs[|qs| - 1].views| == GETS
    ensures Later(env, qs[j].views[k], qs[|qs| - 1].views[GETS - 1])
  {
    var last := |qs| - 1;
    if j < last {
      LaterAcross(env, qs[j], qs[last], k);
    } else {
      assert RequestOk(env, qs[last]);
    }
  }

  lemma LaterAcross(env: Env, q: Request, r: Request, k: nat)
    requires RequestOk(env, q) && RequestOk(env, r) && k < GETS
    requires Later(env, q.views[GETS - 1], r.views[0])
    ensures Later(env, q.views[k], r.views[GETS - 1])
  {
    LaterTransitive(env, q.views[k], q.views[GETS - 1], r.views[0]);
    LaterTransitive(env, q.views[k], r.views[0], r.views[GETS - 1]);
  }

  /** What was current and whole at one moment is still published, whole, later. */
  lemma StaysServed(env: Env, s: State, u: State, c: Corpus)
    requires Later(env, s, u) && IsCurrent(env, s, c)
    ensures c.version in u.published && Serves(env, c, u.published[c.version])
  {
  }

  /** Served versions never go down from one call to a later one. */
  lemma VersionsNeverGoDown(env: Env, embedModel: string, qs: seq<Request>, i: nat, l: nat)
    requires Good(env) && Sequential(env, qs) && i < l < |qs|
    requires forall k :: 0 <= k < |qs| ==> |qs[k].views| == GETS
    requires Freshness.AnswerAt(VersionOf, Calls(env, embedModel, qs), i).Some?
    requires Freshness.AnswerAt(VersionOf, Calls(env, embedModel, qs), l).Some?
    ensures var cs := Calls(env, embedModel, qs);
            Freshness.AnswerAt(VersionOf, cs, i).value.version <= Freshness.AnswerAt(VersionOf, cs, l).value.version
  {
    CallsInOrder(env, embedModel, qs);
    Freshness.VersionsNeverGoDown(VersionOf, Calls(env, embedModel, qs), i, l);
  }

  /** The rows that are current at this moment. */
  ghost function CurrentRows(env: Env, s: State): Rows
    requires PublishedOk(env, s)
  {
    s.published[Top(s)]
  }

  lemma ManifestOfCurrent(env: Env, s: State, u: State)
    requires Later(env, s, u)
    ensures var m := LoadManifest(s.store, u.store);
            && m.Some? && CurrentRows(env, s) in env.corpora
            && m.value.sha == env.sha(CurrentRows(env, s)) && m.value.chunkCount == |CurrentRows(env, s)|
  {
    PointerIsTop(env, s);
    assert VersionOk(env, u, Top(s));
  }

  lemma ReloadIsCurrent(env: Env, q: Request, embedModel: string)
    requires Good(env) && RequestOk(env, q) && Reload(env, q.views, embedModel).Some?
    ensures IsCurrent(env, q.views[1], Reload(env, q.views, embedModel).value)
  {
    assert Later(env, q.views[1], q.views[2]) && Later(env, q.views[3], q.views[4]);
    LoadIsCurrent(env, q.views);
  }

  lemma CurrentServes(env: Env, s: State, c: Corpus)
    requires IsCurrent(env, s, c)
    ensures PublishedOk(env, s) && CurrentRows(env, s) in env.corpora
    ensures Serves(env, c, CurrentRows(env, s)) && |c.ids| == |CurrentRows(env, s)|
  {
    assert VersionOk(env, s, Top(s));
  }

  lemma ReloadManifest(env: Env, q: Request)
    requires RequestOk(env, q)
    ensures SoloInv(env, q.views[5])
    ensures var m := LoadManifest(q.views[5].store, q.views[6].store);
            && m.Some? && CurrentRows(env, q.views[5]) in env.corpora
            && m.value.sha == env.sha(CurrentRows(env, q.views[5]))
            && m.value.chunkCount == |CurrentRows(env, q.views[5])|
  {
    assert Later(env, q.views[5], q.views[6]);
    ManifestOfCurrent(env, q.views[5], q.views[6]);
  }

  /** The manifest a reload is checked against is that of the loaded rows exactly when the
      rows current at the two pointer reads are the same: no flip between them, or one that
      published the same rows again. */
  lemma ValidatedAgainstItsManifest(env: Env, q: Request, embedModel: string)
    requires Good(env) && RequestOk(env, q) && Reload(env, q.views, embedModel).Some?
    ensures PublishedOk(env, q.views[1]) && PublishedOk(env, q.views[5])
    ensures var c, m := Reload(env, q.views, embedModel).value, LoadManifest(q.views[5].store, q.views[6].store);
            var rows := CurrentRows(env, q.views[1]);
            && m.Some? && Serves(env, c, rows)
            && (|c.embeddings| > 0 ==> |c.embeddings[0]| == m.value.dims) && m.value.embedModel == embedModel
            && (m.value.sha == env.sha(rows) <==> CurrentRows(env, q.views[5]) == rows)
            && (m.value.sha == env.sha(rows) ==> m.value.chunkCount == |c.ids|)
  {
    ReloadIsCurrent(env, q, embedModel);
    CurrentServes(env, q.views[1], Reload(env, q.views, embedModel).value);
    ReloadManifest(env, q);
  }
}
