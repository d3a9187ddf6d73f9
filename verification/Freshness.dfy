/** A cache with a time to live over a store whose current version only grows, apart from
    what a version holds. */
module Freshness {
  import opened Options

  /** One call as the cache sees it: the clock and the time to live; the version current at
      its first get, at the get that starts a load, and at its end; whether the first get
      succeeded; and what a load gave, if it succeeded. */
  datatype Call<C> = Call(
    now: real, ttl: real, first: nat, second: nat, last: nat, reached: bool, loaded: Option<C>)

  datatype Cache<C> = Cache(corpus: Option<C>, version: Option<nat>, checkedAt: real)

  function Empty<C>(): Cache<C> { Cache(None, None, 0.0) }

  /** The cache after the call and the answer; no answer means that the call raised. */
  function Answer<C>(version: C -> nat, cache: Cache<C>, call: Call<C>): (Cache<C>, Option<C>) {
    if cache.corpus.Some? && call.now - cache.checkedAt < call.ttl then (cache, cache.corpus)
    else if !call.reached then (cache, None)
    else if cache.corpus.Some? && cache.version == Some(call.first)
    then (cache.(checkedAt := call.now), cache.corpus)
    else if call.loaded.None? then (cache, None)
    else (Cache(call.loaded, Some(version(call.loaded.value)), call.now), call.loaded)
  }

  function CacheAfter<C>(version: C -> nat, calls: seq<Call<C>>): Cache<C> {
    if calls == [] then Empty()
    else Answer(version, CacheAfter(version, calls[..|calls| - 1]), calls[|calls| - 1]).0
  }

  function AnswerAt<C>(version: C -> nat, calls: seq<Call<C>>, i: nat): Option<C>
    requires i < |calls|
  {
    Answer(version, CacheAfter(version, calls[..i]), calls[i]).1
  }

  /** Calls follow each other in time, the current version never goes down, and a load
      returns the version that was current when it started. */
  ghost predicate InOrder<C>(version: C -> nat, calls: seq<Call<C>>) {
    && (forall i :: 0 <= i < |calls| ==> CallOk(version, calls[i]))
    && (forall i, j :: 0 <= i < j < |calls| ==> calls[i].now <= calls[j].now && calls[i].last <= calls[j].first)
  }

  ghost predicate CallOk<C>(version: C -> nat, c: Call<C>) {
    c.first <= c.second <= c.last && (c.loaded.Some? ==> version(c.loaded.value) == c.second)
  }

  /** Version `v` was current at a get of the call. */
  predicate Saw<C>(c: Call<C>, v: nat) { v == c.first || v == c.second }

  /** A call before the `n`-th saw this version, at this time. */
  ghost predicate SeenAt<C>(calls: seq<Call<C>>, n: nat, v: nat, at: real)
    requires n <= |calls|
  {
    exists j: nat :: j < n && Saw(calls[j], v) && calls[j].now == at
  }

  ghost predicate LoadedBefore<C>(calls: seq<Call<C>>, n: nat, corpus: Option<C>)
    requires n <= |calls|
  {
    exists m: nat :: m < n && calls[m].loaded == corpus
  }

  /** The cached corpus was loaded by a call, and its version seen as current by the call
      that stamped the cache. */
  ghost predicate CacheOk<C>(version: C -> nat, calls: seq<Call<C>>, n: nat, cache: Cache<C>)
    requires n <= |calls|
  {
    cache.corpus.Some? ==>
      && cache.version == Some(version(cache.corpus.value))
      && SeenAt(calls, n, cache.version.value, cache.checkedAt)
      && LoadedBefore(calls, n, cache.corpus)
  }

  lemma OneMoreCall<C>(version: C -> nat, calls: seq<Call<C>>, n: nat, cache: Cache<C>)
    requires n < |calls| && CacheOk(version, calls, n, cache)
    ensures CacheOk(version, calls, n + 1, cache)
  {
    if cache.corpus.Some? {
      var j: nat :| j < n && Saw(calls[j], cache.version.value) && calls[j].now == cache.checkedAt;
      var m: nat :| m < n && calls[m].loaded == cache.corpus;
      assert j < n + 1 && m < n + 1;
    }
  }

  lemma AnswerKeepsCacheOk<C>(version: C -> nat, calls: seq<Call<C>>, n: nat, cache: Cache<C>)
    requires n < |calls| && CacheOk(version, calls, n, cache) && CallOk(version, calls[n])
    ensures CacheOk(version, calls, n + 1, Answer(version, cache, calls[n]).0)
  {
    OneMoreCall(version, calls, n, cache);
    var call := calls[n];
    assert SeenAt(calls, n + 1, call.first, call.now) by { assert Saw(call, call.first); }
    assert SeenAt(calls, n + 1, call.second, call.now) by { assert Saw(call, call.second); }
    assert LoadedBefore(calls, n + 1, call.loaded);
  }

  lemma {:induction false} CacheStaysOk<C>(version: C -> nat, calls: seq<Call<C>>, n: nat)
    requires InOrder(version, calls) && n <= |calls|
    ensures CacheOk(version, calls, n, CacheAfter(version, calls[..n]))
  {
    if n > 0 {
      CacheStaysOk(version, calls, n - 1);
      assert calls[..n][..n - 1] == calls[..n - 1];
      AnswerKeepsCacheOk(version, calls, n - 1, CacheAfter(version, calls[..n - 1]));
    }
  }

  /** The version was seen as current by call `i` or by one less than its time to live ago. */
  ghost predicate SeenRecently<C>(calls: seq<Call<C>>, i: nat, v: nat)
    requires i < |calls|
  {
    exists j: nat :: j <= i && Saw(calls[j], v) && (j == i || calls[i].now - calls[j].now < calls[i].ttl)
  }

  /** Bounded staleness: an answer was loaded by this or an earlier call, and its version
      was seen as current by this call or by one less than the time to live ago. */
  lemma AnswersAreFresh<C>(version: C -> nat, calls: seq<Call<C>>, i: nat)
    requires InOrder(version, calls) && i < |calls| && AnswerAt(version, calls, i).Some?
    ensures var r := AnswerAt(version, calls, i);
            LoadedBefore(calls, i + 1, r) && SeenRecently(calls, i, version(r.value))
  {
    CacheStaysOk(version, calls, i);
    var cache, call, r := CacheAfter(version, calls[..i]), calls[i], AnswerAt(version, calls, i);
    assert CallOk(version, call);
    if r == cache.corpus {
      OneMoreCall(version, calls, i, cache);
      if call.now - cache.checkedAt < call.ttl {
        var j: nat :| j < i && Saw(calls[j], cache.version.value) && calls[j].now == cache.checkedAt;
        assert SeenRecently(calls, i, version(r.value));
      } else {
        assert Saw(call, version(r.value));
      }
    } else {
      assert Saw(call, version(r.value));
    }
  }

  lemma SeenBelow<C>(version: C -> nat, calls: seq<Call<C>>, j: nat, i: nat, v: nat)
    requires InOrder(version, calls) && j < i < |calls| && Saw(calls[j], v)
    ensures v <= calls[i].first <= calls[i].second
  {
    assert CallOk(version, calls[j]) && CallOk(version, calls[i]);
  }

  /** Neither the answer nor the new cache is older than what the cache held. */
  lemma NotBelowCache<C>(version: C -> nat, calls: seq<Call<C>>, i: nat)
    requires InOrder(version, calls) && i < |calls| && CacheAfter(version, calls[..i]).corpus.Some?
    ensures var cache := CacheAfter(version, calls[..i]);
            var (next, r) := Answer(version, cache, calls[i]);
            && next.corpus.Some? && version(cache.corpus.value) <= version(next.corpus.value)
            && (r.Some? ==> r == next.corpus)
  {
    CacheStaysOk(version, calls, i);
    var cache := CacheAfter(version, calls[..i]);
    var j: nat :| j < i && Saw(calls[j], cache.version.value) && calls[j].now == cache.checkedAt;
    SeenBelow(version, calls, j, i, cache.version.value);
    assert CallOk(version, calls[i]);
  }

  lemma {:induction false} CacheNotBelowAnswer<C>(version: C -> nat, calls: seq<Call<C>>, i: nat, l: nat)
    requires InOrder(version, calls) && i < l <= |calls| && AnswerAt(version, calls, i).Some?
    ensures CacheAfter(version, calls[..l]).corpus.Some?
    ensures version(AnswerAt(version, calls, i).value) <= version(CacheAfter(version, calls[..l]).corpus.value)
    decreases l
  {
    assert calls[..l][..l - 1] == calls[..l - 1];
    if i < l - 1 {
      CacheNotBelowAnswer(version, calls, i, l - 1);
      NotBelowCache(version, calls, l - 1);
    }
  }

  /** Answered versions never go down from one call to a later one. */
  lemma VersionsNeverGoDown<C>(version: C -> nat, calls: seq<Call<C>>, i: nat, l: nat)
    requires InOrder(version, calls) && i < l < |calls|
    requires AnswerAt(version, calls, i).Some? && AnswerAt(version, calls, l).Some?
    ensures version(AnswerAt(version, calls, i).value) <= version(AnswerAt(version, calls, l).value)
  {
    CacheNotBelowAnswer(version, calls, i, l);
    NotBelowCache(version, calls, l);
  }

  // ---------------------------------------------------------------- when a call answers

  /** The last answer among the first `n` calls: the corpus that is held. */
  function LastAnswer<C>(version: C -> nat, calls: seq<Call<C>>, n: nat): Option<C>
    requires n <= |calls|
  {
    if n == 0 then None
    else if AnswerAt(version, calls, n - 1).Some? then AnswerAt(version, calls, n - 1)
    else LastAnswer(version, calls, n - 1)
  }

  /** The time of the last of the first `n` calls that answered after asking the store. */
  function LastAsked<C>(version: C -> nat, calls: seq<Call<C>>, n: nat): Option<real>
    requires n <= |calls|
    decreases n, 0
  {
    if n == 0 then None
    else if AnswerAt(version, calls, n - 1).Some? && !Recent(version, calls, n - 1) then Some(calls[n - 1].now)
    else LastAsked(version, calls, n - 1)
  }

  /** Less than its time to live has passed since then. */
  predicate Recent<C>(version: C -> nat, calls: seq<Call<C>>, i: nat)
    requires i < |calls|
    decreases i, 1
  {
    LastAsked(version, calls, i).Some? && calls[i].now - LastAsked(version, calls, i).value < calls[i].ttl
  }

  /** The held corpus is of the version that the first get of the call found. */
  predicate Unchanged<C>(version: C -> nat, calls: seq<Call<C>>, i: nat)
    requires i < |calls|
  {
    LastAnswer(version, calls, i).Some? && version(LastAnswer(version, calls, i).value) == calls[i].first
  }

  /** The cache is the last answer and the time of the last asking. */
  lemma {:induction false} CacheIsHistory<C>(version: C -> nat, calls: seq<Call<C>>, n: nat)
    requires n <= |calls|
    ensures var cache := CacheAfter(version, calls[..n]);
            && cache.corpus == LastAnswer(version, calls, n)
            && (cache.corpus.Some? ==> cache.version == Some(version(cache.corpus.value)))
            && LastAsked(version, calls, n) == if cache.corpus.Some? then Some(cache.checkedAt) else None
  {
    if n > 0 {
      CacheIsHistory(version, calls, n - 1);
      assert calls[..n][..n - 1] == calls[..n - 1];
    }
  }

  /** A call answers if and only if it comes within its time to live after the last asking of
      the store, or its first get succeeds and finds the held version, or its first get and its
      reload succeed.  In the first two cases the answer is the held corpus, in the third the
      loaded one. */
  lemma AnswersExactlyWhen<C>(version: C -> nat, calls: seq<Call<C>>, i: nat)
    requires i < |calls|
    ensures var answer, held, c := AnswerAt(version, calls, i), LastAnswer(version, calls, i), calls[i];
            var recent, same := Recent(version, calls, i), Unchanged(version, calls, i);
            && (answer.Some? <==> recent || (c.reached && same) || (c.reached && c.loaded.Some?))
            && (recent || (c.reached && same) ==> answer == held)
            && (!recent && !same && c.reached ==> answer == c.loaded)
  {
    CacheIsHistory(version, calls, i);
  }

  lemma {:induction false} AskedLater<C>(version: C -> nat, calls: seq<Call<C>>, j: nat, n: nat)
    requires j < n <= |calls| && AnswerAt(version, calls, j).Some? && !Recent(version, calls, j)
    requires forall k, l :: 0 <= k < l < |calls| ==> calls[k].now <= calls[l].now
    ensures LastAsked(version, calls, n).Some? && calls[j].now <= LastAsked(version, calls, n).value
    decreases n
  {
    if j < n - 1 {
      AskedLater(version, calls, j, n - 1);
    }
  }

  /** After a call that asked the store and answered, every call less than its time to live
      later answers, whatever its gets would find. */
  lemma AnswersWithoutAsking<C>(version: C -> nat, calls: seq<Call<C>>, j: nat, i: nat)
    requires j < i < |calls| && AnswerAt(version, calls, j).Some? && !Recent(version, calls, j)
    requires forall k, l :: 0 <= k < l < |calls| ==> calls[k].now <= calls[l].now
    requires calls[i].now - calls[j].now < calls[i].ttl
    ensures AnswerAt(version, calls, i).Some? && AnswerAt(version, calls, i) == LastAnswer(version, calls, i)
  {
    AskedLater(version, calls, j, i);
    AnswersExactlyWhen(version, calls, i);
  }
}
