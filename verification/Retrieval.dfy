/** Hybrid search over the cached corpus: filtering, the two rankings, their fusion, and why
    prebuilt indexes and the cache do not change an answer. */
module Retrieval {
  import opened Options
  import opened Ordering
  import opened Dates
  import opened Frames
  import opened Tokens
  import opened Bm25
  import opened Artifact
  import opened Publishing
  import opened Fusion
  import Freshness
  import Serving
  import Vectors
  import Visits

  /** The number a float32 pattern stands for, the square root, and the logarithm. */
  datatype Maths = Maths(value: Word -> real, sqrt: real -> real, ln: real -> real)

  // ---------------------------------------------------------------- filtering

  datatype Filter = Filter(
    numbers: Option<set<int>>, after: Option<string>, before: Option<string>, speaker: Option<string>)

  function SpeakerFlag(name: string): string {
    "has_speaker_" + seq(|name|, i requires 0 <= i < |name| => if name[i] == ' ' then '_' else Lower(name[i]))
  }

  /** Empty filters do not filter. */
  predicate Passes(meta: Meta, f: Filter) {
    && (f.numbers.Some? && f.numbers.value != {} ==> meta.number in f.numbers.value)
    && (f.after.Some? && f.after.value != "" ==> !TextLess(meta.date, f.after.value))
    && (f.before.Some? && f.before.value != "" ==> !TextLess(f.before.value, meta.date))
    && (f.speaker.Some? && f.speaker.value != "" ==> SpeakerFlag(f.speaker.value) in meta.flags)
  }

  /** Between two days: the filter keeps exactly the chunks of those days and the days
      between. */
  lemma DateFilterKeepsTheDays(meta: Meta, day: Day, from: string, first: Day, till: string, last: Day)
    requires Writes(meta.date, day) && Writes(from, first) && Writes(till, last)
    ensures Passes(meta, Filter(None, Some(from), Some(till), None)) <==> !Earlier(day, first) && !Earlier(last, day)
  {
    TextOrderIsDayOrder(meta.date, day, from, first);
    TextOrderIsDayOrder(till, last, meta.date, day);
  }

  /** The filters narrow each other, the episode filter to its episodes. */
  lemma FiltersCombine(meta: Meta, f: Filter, ns: set<int>)
    ensures Passes(meta, f) <==>
            && Passes(meta, f.(after := None, before := None, speaker := None))
            && Passes(meta, f.(numbers := None, before := None, speaker := None))
            && Passes(meta, f.(numbers := None, after := None, speaker := None))
            && Passes(meta, f.(numbers := None, after := None, before := None))
    ensures Passes(meta, Filter(Some(ns), None, None, None)) <==> ns == {} || meta.number in ns
  {
  }

  /** The same name up to case, with a space and an underscore taken for each other. */
  predicate SameName(a: string, b: string) {
    |a| == |b| && forall i :: 0 <= i < |a| ==> Folded(a[i]) == Folded(b[i])
  }

  function Folded(c: char): char { if c == ' ' then '_' else Lower(c) }

  lemma FlagsFold(a: string, b: string)
    ensures SpeakerFlag(a) == SpeakerFlag(b) <==> SameName(a, b)
  {
    var n := |"has_speaker_"|;
    assert |SpeakerFlag(a)| == n + |a| && |SpeakerFlag(b)| == n + |b|;
    assert forall i :: 0 <= i < |a| ==> SpeakerFlag(a)[n + i] == Folded(a[i]);
    assert forall i :: 0 <= i < |b| ==> SpeakerFlag(b)[n + i] == Folded(b[i]);
    if SpeakerFlag(a) == SpeakerFlag(b) {
      forall i | 0 <= i < |a| ensures Folded(a[i]) == Folded(b[i]) {
        assert SpeakerFlag(a)[n + i] == SpeakerFlag(b)[n + i];
      }
    }
  }

  predicate Ascending(s: seq<nat>) { forall i, j :: 0 <= i < j < |s| ==> s[i] < s[j] }

  lemma AscendingPosition(s: seq<nat>, a: nat, b: nat)
    requires Ascending(s) && a in s && b in s
    ensures Position(s, a) < Position(s, b) <==> a < b
  {
    var i, j := Position(s, a), Position(s, b);
    assert i < j ==> s[i] < s[j];
    assert j < i ==> s[j] < s[i];
  }

  /** The rows below `n` that pass, in corpus order. */
  function Passing(metas: seq<Meta>, f: Filter, n: nat): (cand: seq<nat>)
    requires n <= |metas|
    ensures forall i: nat :: i in cand <==> i < n && Passes(metas[i], f)
    ensures Ascending(cand)
  {
    if n == 0 then []
    else
      var rest := Passing(metas, f, n - 1);
      assert forall k :: 0 <= k < |rest| ==> rest[k] < n - 1 by {
        forall k | 0 <= k < |rest| ensures rest[k] < n - 1 { assert rest[k] in rest; }
      }
      if Passes(metas[n - 1], f) then rest + [n - 1] else rest
  }

  function Candidates(metas: seq<Meta>, f: Filter): (cand: seq<nat>)
    ensures forall i: nat :: i in cand <==> i < |metas| && Passes(metas[i], f)
    ensures Ascending(cand) && Distinct(cand)
  {
    Passing(metas, f, |metas|)
  }

  // ---------------------------------------------------------------- the cached entry

  datatype Entry = Entry(
    ids: seq<string>, docs: seq<Option<string>>, embeddings: Matrix, norms: seq<real>,
    metas: seq<Meta>, bm25: Index)

  function Dot(value: Word -> real, u: seq<Word>, v: seq<Word>): real
    requires |u| == |v|
  {
    if u == [] then 0.0 else value(u[0]) * value(v[0]) + Dot(value, u[1..], v[1..])
  }

  function Length(m: Maths, v: seq<Word>): real { m.sqrt(Dot(m.value, v, v)) }

  /** A prebuilt index of the right size is adopted; otherwise the index is built. */
  function EntryOf(m: Maths, c: Corpus): Entry {
    Entry(c.ids, c.docs, c.embeddings,
          seq(|c.embeddings|, i requires 0 <= i < |c.embeddings| => Length(m, c.embeddings[i])), c.metas,
          if c.prebuilt.Some? && |c.ids| == c.prebuilt.value.n then c.prebuilt.value else Build(m.ln, c.docs))
  }

  type Entries = map<(string, nat), Entry>

  /** One `_load_corpus`: the cache afterwards and the entry. */
  function LoadEntry(m: Maths, cache: Entries, name: string, c: Corpus): (Entries, Entry) {
    var key := (name, c.version);
    if key in cache && |cache[key].ids| == |c.ids| then (cache, cache[key])
    else (cache[key := EntryOf(m, c)], EntryOf(m, c))
  }

  class HybridCache {
    var entries: Entries

    constructor ()
      ensures entries == map[]
    {
      entries := map[];
    }

    /** The entry is kept under its key and nothing else changes.  A cache of rebuilt entries
        stays one, and the entry is the rebuilt one of the rows published under the version. */
    method LoadCorpus(m: Maths, name: string, c: Corpus, ghost env: Env, ghost published: map<nat, Rows>)
      returns (e: Entry)
      modifies this
      ensures (entries, e) == LoadEntry(m, old(entries), name, c)
      ensures entries == old(entries)[(name, c.version) := e]
      ensures Lawful(env, m, c, published) && CacheOk(m, old(entries), published) ==>
                CacheOk(m, entries, published) && Rebuilt(m, e, c.version, published[c.version])
    {
      if Lawful(env, m, c, published) && CacheOk(m, entries, published) {
        LoadIsRebuilt(env, m, entries, name, c, published);
      }
      var key, count := (name, c.version), |c.ids|;
      if key in entries && |entries[key].ids| == count {
        return entries[key];
      }
      var bm25;
      if c.prebuilt.Some? && count == c.prebuilt.value.n {
        bm25 := c.prebuilt.value;
      } else {
        bm25 := Build(m.ln, c.docs);
      }
      var norms := seq(|c.embeddings|, i requires 0 <= i < |c.embeddings| => Length(m, c.embeddings[i]));
      e := Entry(c.ids, c.docs, c.embeddings, norms, c.metas, bm25);
      entries := entries[key := e];
    }
  }

  // ---------------------------------------------------------------- the search

  /** What a search needs of an entry: columns of one height and a usable index. */
  predicate Searchable(e: Entry) {
    && |e.ids| == |e.docs| == |e.embeddings| == |e.norms| == |e.metas| == e.bm25.n
    && Scorable(e.bm25)
  }

  datatype Query = Query(text: string, vector: seq<Word>, topK: int, filter: Filter, weight: real)

  datatype Hit = Hit(id: string, text: Option<string>, meta: Meta, distance: real)

  /** Cosine similarity; a zero vector scores 0. */
  function Similarity(m: Maths, e: Entry, q: seq<Word>, i: nat): real
    requires Searchable(e) && i < |e.ids| && |e.embeddings[i]| == |q|
  {
    Vectors.Ratio(Dot(m.value, e.embeddings[i], q), Vectors.Product(e.norms[i], Length(m, q)))
  }

  predicate Fits(e: Entry, q: seq<Word>, cand: seq<nat>)
    requires Searchable(e)
  {
    forall i :: i in cand ==> i < |e.ids| && |e.embeddings[i]| == |q|
  }

  function SimilarityKey(m: Maths, e: Entry, q: seq<Word>, cand: seq<nat>): nat -> real
    requires Searchable(e) && Fits(e, q, cand)
  {
    (i: nat) => if i in cand then Similarity(m, e, q, i) else 0.0
  }

  function SemanticOrder(m: Maths, e: Entry, q: seq<Word>, cand: seq<nat>): (r: seq<nat>)
    requires Searchable(e) && Fits(e, q, cand)
    ensures multiset(r) == multiset(cand)
  {
    SortDescending(cand, SimilarityKey(m, e, q, cand))
  }

  function LexicalOrder(e: Entry, text: string, cand: seq<nat>): (r: seq<nat>)
    requires Searchable(e)
    ensures multiset(r) == multiset(cand)
  {
    SortDescending(cand, LexicalKey(e, text))
  }

  function LexicalKey(e: Entry, text: string): nat -> real
    requires Searchable(e)
  {
    var scores := Scores(e.bm25, Tokenize(NormalizeNumbers(text)));
    (i: nat) => if i < |scores| then scores[i] else 0.0
  }

  /** The semantic ranking is by cosine, the lexical one by BM25 score of the normalised
      query; on equal values each keeps corpus order. */
  lemma RankingsFollowScores(m: Maths, e: Entry, q: Query, a: nat, b: nat)
    requires Searchable(e) && Fits(e, q.vector, Candidates(e.metas, q.filter)) && a != b
    requires a in Candidates(e.metas, q.filter) && b in Candidates(e.metas, q.filter)
    ensures var cand := Candidates(e.metas, q.filter);
            var sem, bm := SemanticOrder(m, e, q.vector, cand), LexicalOrder(e, q.text, cand);
            var scores := Scores(e.bm25, Tokenize(NormalizeNumbers(q.text)));
            var x, y := Similarity(m, e, q.vector, a), Similarity(m, e, q.vector, b);
            && a in sem && b in sem && a in bm && b in bm
            && (Position(sem, a) < Position(sem, b) <==> x > y || (x == y && a < b))
            && (Position(bm, a) < Position(bm, b) <==>
                 scores[a] > scores[b] || (scores[a] == scores[b] && a < b))
  {
    var cand := Candidates(e.metas, q.filter);
    AscendingPosition(cand, a, b);
    DescendingPosition(cand, SimilarityKey(m, e, q.vector, cand), a, b);
    DescendingPosition(cand, LexicalKey(e, q.text), a, b);
  }

  function Ranked(m: Maths, e: Entry, q: Query): seq<nat>
    requires Searchable(e) && Fits(e, q.vector, Candidates(e.metas, q.filter))
  {
    var cand := Candidates(e.metas, q.filter);
    Hybrid(SemanticOrder(m, e, q.vector, cand), LexicalOrder(e, q.text, cand), q.weight)
  }

  function HitAt(e: Entry, fused: seq<nat>, rank: nat): Hit
    requires Searchable(e) && rank < |fused| && fused[rank] < |e.ids|
  {
    var i := fused[rank];
    Hit(e.ids[i], e.docs[i], e.metas[i], rank as real / |fused| as real)
  }

  /** Absent when the query vector has another width than the candidates' vectors. */
  function Search(m: Maths, e: Entry, q: Query): Option<seq<Hit>>
    requires Searchable(e)
  {
    var cand := Candidates(e.metas, q.filter);
    if cand == [] then Some([])
    else if !Fits(e, q.vector, cand) then None
    else
      RankedPermutes(m, e, q);
      var fused := Ranked(m, e, q);
      var top := Take(fused, q.topK);
      Some(seq(|top|, r requires 0 <= r < |top| =>
        assert top[r] == fused[r];
        HitAt(e, fused, r)))
  }

  lemma RankedPermutes(m: Maths, e: Entry, q: Query)
    requires Searchable(e) && Fits(e, q.vector, Candidates(e.metas, q.filter))
    ensures var cand := Candidates(e.metas, q.filter);
            var sem, fused := SemanticOrder(m, e, q.vector, cand), Ranked(m, e, q);
            && Rankings(sem, LexicalOrder(e, q.text, cand))
            && Distinct(fused) && |fused| == |cand|
            && forall k :: 0 <= k < |fused| ==> fused[k] < |e.ids| && Passes(e.metas[fused[k]], q.filter)
  {
    var cand := Candidates(e.metas, q.filter);
    var sem, bm, fused := SemanticOrder(m, e, q.vector, cand), LexicalOrder(e, q.text, cand), Ranked(m, e, q);
    PermutationDistinct(cand, sem);
    FusedPermutes(sem, bm, q.weight);
    forall k | 0 <= k < |fused| ensures fused[k] in cand {
      SameElements(cand, fused, fused[k]);
    }
  }

  /** The hits are the fused order, cut, each with its rank over the number of candidates. */
  lemma HitsFollowRanking(m: Maths, e: Entry, q: Query)
    requires Searchable(e) && Candidates(e.metas, q.filter) != []
    requires Fits(e, q.vector, Candidates(e.metas, q.filter))
    ensures var hits, fused := Search(m, e, q), Ranked(m, e, q);
            && hits.Some? && |hits.value| == |Take(fused, q.topK)| <= |fused|
            && |fused| == |Candidates(e.metas, q.filter)|
            && forall r: nat :: r < |hits.value| ==>
                 fused[r] < |e.ids| && Passes(e.metas[fused[r]], q.filter) && hits.value[r] == HitAt(e, fused, r)
  {
    RankedPermutes(m, e, q);
  }

  /** Hits are different candidates that pass the filter, best first, no more than asked for,
      with distances that rise from 0 and stay below 1. */
  lemma HitsAreCandidates(m: Maths, e: Entry, q: Query)
    requires Searchable(e) && Search(m, e, q).Some?
    ensures var hits, n := Search(m, e, q).value, |Candidates(e.metas, q.filter)|;
            && (q.topK >= 0 ==> |hits| == if q.topK < n then q.topK else n)
            && (forall r: nat :: r < |hits| ==> hits[r].distance == r as real / n as real && hits[r].distance < 1.0)
            && (exists at: seq<nat> :: HitsAt(e, q.filter, hits, at))
  {
    if Candidates(e.metas, q.filter) == [] {
      assert HitsAt(e, q.filter, [], []);
    } else {
      HitsFollowRanking(m, e, q);
      RankedDistinct(m, e, q);
      HitsOfRanking(e, q.filter, q.topK, Search(m, e, q).value, Ranked(m, e, q));
    }
  }

  lemma RankedDistinct(m: Maths, e: Entry, q: Query)
    requires Searchable(e) && Fits(e, q.vector, Candidates(e.metas, q.filter))
    ensures Distinct(Ranked(m, e, q))
  {
    RankedPermutes(m, e, q);
  }

  lemma HitsOfRanking(e: Entry, f: Filter, topK: int, hits: seq<Hit>, fused: seq<nat>)
    requires Searchable(e) && Distinct(fused) && |hits| == |Take(fused, topK)|
    requires forall r: nat :: r < |hits| ==>
               fused[r] < |e.ids| && Passes(e.metas[fused[r]], f) && hits[r] == HitAt(e, fused, r)
    ensures forall r: nat :: r < |hits| ==> hits[r].distance == r as real / |fused| as real && hits[r].distance < 1.0
    ensures exists at: seq<nat> :: HitsAt(e, f, hits, at)
  {
    var at := Take(fused, topK);
    forall r: nat | r < |hits| ensures hits[r].distance < 1.0 {
      DivideLess(r, |fused|, |fused|);
    }
    assert forall r :: 0 <= r < |at| ==> at[r] == fused[r];
    assert HitsAt(e, f, hits, at);
  }

  /** The hits are these different rows of the entry, each of which passes. */
  ghost predicate HitsAt(e: Entry, f: Filter, hits: seq<Hit>, at: seq<nat>)
    requires Searchable(e)
  {
    && |at| == |hits| && Distinct(at)
    && forall r :: 0 <= r < |at| ==>
         at[r] < |e.ids| && Passes(e.metas[at[r]], f)
         && hits[r] == Hit(e.ids[at[r]], e.docs[at[r]], e.metas[at[r]], hits[r].distance)
  }

  lemma AtMostOne(b: real, d: real)
    requires 0.0 < d && b <= d
    ensures b / d <= 1.0
  {
    var x := b / d;
    assert x * d == b;
    assert x * d <= 1.0 * d;
  }

  lemma DivideLess(r: nat, s: nat, n: nat)
    requires r < s <= n
    ensures r as real / n as real < s as real / n as real <= 1.0
  {
    var a, b, d := r as real, s as real, n as real;
    assert b / d - a / d == (b - a) / d;
    assert (b - a) / d > 0.0;
    AtMostOne(b, d);
  }

  /** With the shipped weights the candidate of the highest similarity, the first of them in
      corpus order, is among the hits as soon as 21 are asked for. */
  lemma BestMatchIsAHit(m: Maths, e: Entry, q: Query)
    requires Searchable(e) && Search(m, e, q).Some?
    requires q.weight == SEMANTIC_WEIGHT && q.topK >= 21 && Candidates(e.metas, q.filter) != []
    ensures var cand := Candidates(e.metas, q.filter);
            exists best, r :: 0 <= r <= 20 && r < |Search(m, e, q).value| && best in cand
              && (forall i :: i in cand ==> Similarity(m, e, q.vector, i) <= Similarity(m, e, q.vector, best))
              && Search(m, e, q).value[r] == Hit(e.ids[best], e.docs[best], e.metas[best], r as real / |cand| as real)
  {
    var cand := Candidates(e.metas, q.filter);
    var sem, bm := SemanticOrder(m, e, q.vector, cand), LexicalOrder(e, q.text, cand);
    RankedPermutes(m, e, q);
    HitsFollowRanking(m, e, q);
    TopSimilarity(m, e, q.vector, cand);
    WinnerInTop21(sem, bm);
    var best, fused := sem[0], Ranked(m, e, q);
    var r := Position(fused, best);
    assert r < |Take(fused, q.topK)|;
    assert Search(m, e, q).value[r] == HitAt(e, fused, r);
  }

  lemma TopSimilarity(m: Maths, e: Entry, q: seq<Word>, cand: seq<nat>)
    requires Searchable(e) && Fits(e, q, cand) && cand != []
    ensures var sem := SemanticOrder(m, e, q, cand);
            && sem != [] && sem[0] in cand
            && forall i :: i in cand ==> Similarity(m, e, q, i) <= Similarity(m, e, q, sem[0])
  {
    DescendingTop(cand, SimilarityKey(m, e, q, cand));
  }

  // ------------------------------------------------- prebuilt equals rebuilt, through the cache

  /** What a load gives that decodes the column and rebuilds the index. */
  ghost predicate Rebuilt(m: Maths, e: Entry, v: nat, rows: Rows) {
    FromParquet(rows, v, None).Some? && e == EntryOf(m, FromParquet(rows, v, None).value)
  }

  lemma ServedIsRebuilt(env: Env, m: Maths, c: Corpus, rows: Rows)
    requires Serves(env, c, rows) && m.ln == env.ln
    ensures Rebuilt(m, EntryOf(m, c), c.version, rows)
    ensures |EntryOf(m, c).ids| == |rows|
  {
  }

  /** A rebuilt entry can be searched. */
  lemma RebuiltSearchable(m: Maths, e: Entry, v: nat, rows: Rows)
    requires Rebuilt(m, e, v, rows)
    ensures Searchable(e)
  {
    BuildScorable(m.ln, Prepare(Texts(rows)));
  }

  /** Every cached entry is what a rebuild of the rows of its version gives. */
  ghost predicate CacheOk(m: Maths, cache: Entries, published: map<nat, Rows>) {
    forall k :: k in cache ==> k.1 in published && Rebuilt(m, cache[k], k.1, published[k.1])
  }

  /** The corpus holds the rows published under its version. */
  ghost predicate Lawful(env: Env, m: Maths, c: Corpus, published: map<nat, Rows>) {
    m.ln == env.ln && c.version in published && Serves(env, c, published[c.version])
  }

  lemma LoadIsRebuilt(env: Env, m: Maths, cache: Entries, name: string, c: Corpus, published: map<nat, Rows>)
    requires Lawful(env, m, c, published) && CacheOk(m, cache, published)
    ensures var (after, e) := LoadEntry(m, cache, name, c);
            CacheOk(m, after, published) && Rebuilt(m, e, c.version, published[c.version])
  {
    ServedIsRebuilt(env, m, c, published[c.version]);
  }

  function AfterCall(m: Maths, cache: Entries, name: string, r: Option<Corpus>): Entries {
    if r.Some? then LoadEntry(m, cache, name, r.value).0 else cache
  }

  lemma AfterCallOk(env: Env, m: Maths, cache: Entries, name: string, r: Option<Corpus>, published: map<nat, Rows>)
    requires m.ln == env.ln && CacheOk(m, cache, published)
    requires r.Some? ==> r.value.version in published && Serves(env, r.value, published[r.value.version])
    ensures CacheOk(m, AfterCall(m, cache, name, r), published)
  {
    if r.Some? {
      LoadIsRebuilt(env, m, cache, name, r.value, published);
    }
  }

  /** The cache of a process after these calls; a call that raised did not search. */
  function CacheAfter(m: Maths, name: string, answers: seq<Option<Corpus>>): Entries {
    if answers == [] then map[]
    else AfterCall(m, CacheAfter(m, name, answers[..|answers| - 1]), name, answers[|answers| - 1])
  }

  ghost predicate Served(env: Env, answers: seq<Option<Corpus>>, published: map<nat, Rows>) {
    forall i :: 0 <= i < |answers| && answers[i].Some? ==>
      answers[i].value.version in published && Serves(env, answers[i].value, published[answers[i].value.version])
  }

  lemma {:induction false} CacheStaysOk(
    env: Env, m: Maths, name: string, answers: seq<Option<Corpus>>, published: map<nat, Rows>)
    requires m.ln == env.ln && Served(env, answers, published)
    ensures CacheOk(m, CacheAfter(m, name, answers), published)
  {
    if answers != [] {
      var n := |answers| - 1;
      CacheStaysOk(env, m, name, answers[..n], published);
      AfterCallOk(env, m, CacheAfter(m, name, answers[..n]), name, answers[n], published);
    }
  }

  function Answers(env: Env, model: string, qs: seq<Serving.Request>): (answers: seq<Option<Corpus>>)
    requires forall k :: 0 <= k < |qs| ==> |qs[k].views| == Serving.GETS
    ensures |answers| == |qs|
  {
    seq(|qs|, i requires 0 <= i < |qs| => Freshness.AnswerAt(Serving.VersionOf, Serving.Calls(env, model, qs), i))
  }

  /** The rows published by the end of the last call. */
  ghost function Final(qs: seq<Serving.Request>): map<nat, Rows>
    requires qs != [] && forall k :: 0 <= k < |qs| ==> |qs[k].views| == Serving.GETS
  {
    qs[|qs| - 1].views[Serving.GETS - 1].published
  }

  lemma AnswerServes(env: Env, model: string, qs: seq<Serving.Request>, i: nat)
    requires Good(env) && Serving.Sequential(env, qs) && i < |qs|
    requires forall k :: 0 <= k < |qs| ==> |qs[k].views| == Serving.GETS
    requires Answers(env, model, qs)[i].Some?
    ensures var c := Answers(env, model, qs)[i].value;
            c.version in Final(qs) && Serves(env, c, Final(qs)[c.version])
  {
    Serving.AnswersAreFresh(env, model, qs, i);
    var c := Answers(env, model, qs)[i].value;
    var j: nat :| j <= i && |qs[j].views| == Serving.GETS && Serving.IsCurrent(env, qs[j].views[1], c);
    Serving.LastIsLater(env, qs, j, 1);
    Serving.StaysServed(env, qs[j].views[1], qs[|qs| - 1].views[Serving.GETS - 1], c);
  }

  lemma AnswersServe(env: Env, model: string, qs: seq<Serving.Request>)
    requires Good(env) && Serving.Sequential(env, qs) && qs != []
    requires forall k :: 0 <= k < |qs| ==> |qs[k].views| == Serving.GETS
    ensures Served(env, Answers(env, model, qs), Final(qs))
  {
    var answers, published := Answers(env, model, qs), Final(qs);
    forall k | 0 <= k < |qs| && answers[k].Some?
      ensures answers[k].value.version in published
      ensures Serves(env, answers[k].value, published[answers[k].value.version])
    {
      AnswerServes(env, model, qs, k);
    }
  }

  /** A search that decodes the column of these rows, rebuilds their index and caches
      nothing; absent when the rows form no matrix or the query vector does not fit. */
  function SearchRows(m: Maths, rows: Rows, q: Query): Option<seq<Hit>> {
    match FromParquet(rows, 0, None)
    case None => None
    case Some(c) =>
      RebuiltSearchable(m, EntryOf(m, c), 0, rows);
      Search(m, EntryOf(m, c), q)
  }

  lemma SearchOfRebuilt(m: Maths, e: Entry, v: nat, rows: Rows, q: Query)
    requires Rebuilt(m, e, v, rows)
    ensures Searchable(e) && Search(m, e, q) == SearchRows(m, rows, q)
  {
    RebuiltSearchable(m, e, v, rows);
    assert e == EntryOf(m, FromParquet(rows, 0, None).value);
  }

  /** With one publisher, whatever stale sidecars crashed attempts left and whatever the two
      caches hold, a search answers what a search over the rows published under the served
      version answers that decodes their column, rebuilds their index and caches nothing. */
  lemma SearchesAnswerFromTheRows(
    env: Env, m: Maths, model: string, name: string, qs: seq<Serving.Request>, i: nat, q: Query)
    requires Good(env) && m.ln == env.ln && Serving.Sequential(env, qs) && i < |qs|
    requires forall k :: 0 <= k < |qs| ==> |qs[k].views| == Serving.GETS
    requires Answers(env, model, qs)[i].Some?
    ensures var c := Answers(env, model, qs)[i].value;
            var e := LoadEntry(m, CacheAfter(m, name, Answers(env, model, qs)[..i]), name, c).1;
            && c.version in Final(qs) && Searchable(e)
            && Search(m, e, q) == SearchRows(m, Final(qs)[c.version], q)
  {
    AnswersServe(env, model, qs);
    ServedEntries(env, m, name, Answers(env, model, qs), Final(qs), i);
    var c := Answers(env, model, qs)[i].value;
    var e := LoadEntry(m, CacheAfter(m, name, Answers(env, model, qs)[..i]), name, c).1;
    SearchOfRebuilt(m, e, c.version, Final(qs)[c.version], q);
  }

  lemma ServedEntries(
    env: Env, m: Maths, name: string, answers: seq<Option<Corpus>>, published: map<nat, Rows>, i: nat)
    requires m.ln == env.ln && Served(env, answers, published) && i < |answers| && answers[i].Some?
    ensures var c := answers[i].value;
            && c.version in published
            && Rebuilt(m, LoadEntry(m, CacheAfter(m, name, answers[..i]), name, c).1, c.version, published[c.version])
  {
    assert Served(env, answers[..i], published);
    CacheStaysOk(env, m, name, answers[..i], published);
    LoadIsRebuilt(env, m, CacheAfter(m, name, answers[..i]), name, answers[i].value, published);
  }

  /** The same for every run of one publisher and every process whose calls fall among its
      steps. */
  lemma RunsAnswerFromTheRows(
    env: Env, m: Maths, model: string, name: string, s0: State, visits: seq<Visits.Visit>, i: nat, q: Query)
    requires Good(env) && m.ln == env.ln && SoloInit(env, s0) && Visits.Forwards(visits) && i < |visits|
    requires Answers(env, model, Visits.Requests(env, s0, visits))[i].Some?
    ensures var qs := Visits.Requests(env, s0, visits);
            var c := Answers(env, model, qs)[i].value;
            var e := LoadEntry(m, CacheAfter(m, name, Answers(env, model, qs)[..i]), name, c).1;
            && c.version in Final(qs) && Searchable(e)
            && Search(m, e, q) == SearchRows(m, Final(qs)[c.version], q)
  {
    Visits.RunsAreSequential(env, s0, visits);
    SearchesAnswerFromTheRows(env, m, model, name, Visits.Requests(env, s0, visits), i, q);
  }
}
