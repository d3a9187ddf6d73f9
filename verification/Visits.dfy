/** The calls of a serving process placed among the steps of one publisher's run. */
module Visits {
  import opened Artifact
  import opened Publishing
  import opened Serving
  import Freshness

  type Gaps = g: seq<seq<Step>> | |g| == GETS witness seq(GETS, _ => [])

  /** One call among the steps of a run: what the publisher does before each of its gets. */
  datatype Visit = Visit(now: real, ttl: real, gaps: Gaps)

  /** The moments after each of these stretches of the run. */
  ghost function Moments(env: Env, s: State, gaps: seq<seq<Step>>): (views: seq<State>)
    ensures |views| == |gaps|
    decreases |gaps|
  {
    if gaps == [] then [] else
      var u := RunAll(env, true, s, gaps[0]);
      [u] + Moments(env, u, gaps[1..])
  }

  /** The calls of a process, as the run from `s` shows them the store. */
  ghost function Requests(env: Env, s: State, visits: seq<Visit>): (qs: seq<Request>)
    ensures |qs| == |visits|
    ensures forall i :: 0 <= i < |qs| ==> |qs[i].views| == GETS
    decreases |visits|
  {
    if visits == [] then [] else
      var views := Moments(env, s, visits[0].gaps);
      [Request(visits[0].now, visits[0].ttl, views)] + Requests(env, views[GETS - 1], visits[1..])
  }

  /** No clock reading is below an earlier one. */
  predicate Forwards(visits: seq<Visit>) {
    forall i, j :: 0 <= i < j < |visits| ==> visits[i].now <= visits[j].now
  }

  // ---------------------------------------------------------------- the order of the gets

  ghost predicate Reaches(env: Env, s: State, u: State) { exists steps :: u == RunAll(env, true, s, steps) }

  lemma {:induction false} RunConcat(env: Env, s: State, a: seq<Step>, b: seq<Step>)
    ensures RunAll(env, true, s, a + b) == RunAll(env, true, RunAll(env, true, s, a), b)
    decreases |a|
  {
    if a == [] {
      assert a + b == b;
    } else {
      assert (a + b)[0] == a[0] && (a + b)[1..] == a[1..] + b;
      RunConcat(env, Next(env, true, s, a[0]), a[1..], b);
    }
  }

  lemma ReachesTransitive(env: Env, s: State, t: State, u: State)
    requires Reaches(env, s, t) && Reaches(env, t, u)
    ensures Reaches(env, s, u)
  {
    var a :| t == RunAll(env, true, s, a);
    var b :| u == RunAll(env, true, t, b);
    RunConcat(env, s, a, b);
  }

  lemma ReachesItself(env: Env, s: State)
    ensures Reaches(env, s, s)
  {
    assert s == RunAll(env, true, s, []);
  }

  /** Moments that follow `s` and each other. */
  ghost predicate Follow(env: Env, s: State, views: seq<State>) {
    && (forall k :: 0 <= k < |views| ==> Reaches(env, s, views[k]))
    && (forall k, l :: 0 <= k <= l < |views| ==> Reaches(env, views[k], views[l]))
  }

  lemma FollowOneMore(env: Env, s: State, u: State, views: seq<State>)
    requires Reaches(env, s, u) && Follow(env, u, views)
    ensures Follow(env, s, [u] + views)
  {
    var all := [u] + views;
    ReachesItself(env, u);
    forall k | 0 <= k < |all| ensures Reaches(env, s, all[k]) {
      if k > 0 {
        ReachesTransitive(env, s, u, views[k - 1]);
      }
    }
    forall k, l | 0 <= k <= l < |all| ensures Reaches(env, all[k], all[l]) {
      if k > 0 {
        assert Reaches(env, views[k - 1], views[l - 1]);
      }
    }
  }

  lemma {:induction false} MomentsFollow(env: Env, s: State, gaps: seq<seq<Step>>)
    ensures Follow(env, s, Moments(env, s, gaps))
    decreases |gaps|
  {
    if gaps != [] {
      var u := RunAll(env, true, s, gaps[0]);
      MomentsFollow(env, u, gaps[1..]);
      FollowOneMore(env, s, u, Moments(env, u, gaps[1..]));
    }
  }

  ghost predicate Precedes(env: Env, q: Request, r: Request) {
    |q.views| == |r.views| == GETS && q.now <= r.now && Reaches(env, q.views[GETS - 1], r.views[0])
  }

  /** Calls that start after `s`, each with its gets in order, and follow each other. */
  ghost predicate InOrder(env: Env, s: State, qs: seq<Request>) {
    && (forall i :: 0 <= i < |qs| ==> |qs[i].views| == GETS && Follow(env, s, qs[i].views))
    && (forall i, j :: 0 <= i < j < |qs| ==> Precedes(env, qs[i], qs[j]))
  }

  predicate NotBefore(now: real, qs: seq<Request>) { forall i :: 0 <= i < |qs| ==> now <= qs[i].now }

  lemma FollowFrom(env: Env, s: State, t: State, views: seq<State>)
    requires Reaches(env, s, t) && Follow(env, t, views)
    ensures Follow(env, s, views)
  {
    forall k | 0 <= k < |views| ensures Reaches(env, s, views[k]) {
      ReachesTransitive(env, s, t, views[k]);
    }
  }

  lemma OneMoreCall(env: Env, s: State, q: Request, qs: seq<Request>)
    requires |q.views| == GETS && Follow(env, s, q.views) && NotBefore(q.now, qs)
    requires InOrder(env, q.views[GETS - 1], qs)
    ensures InOrder(env, s, [q] + qs)
  {
    var all := [q] + qs;
    forall i | 0 <= i < |all| ensures |all[i].views| == GETS && Follow(env, s, all[i].views) {
      if i > 0 {
        FollowFrom(env, s, q.views[GETS - 1], qs[i - 1].views);
      }
    }
    forall i, j | 0 <= i < j < |all| ensures Precedes(env, all[i], all[j]) {
      if i > 0 {
        assert Precedes(env, qs[i - 1], qs[j - 1]);
      } else {
        assert Follow(env, q.views[GETS - 1], qs[j - 1].views);
      }
    }
  }

  lemma {:induction false} RequestTimes(env: Env, s: State, visits: seq<Visit>, now: real)
    requires Forwards(visits) && forall i :: 0 <= i < |visits| ==> now <= visits[i].now
    ensures NotBefore(now, Requests(env, s, visits))
    decreases |visits|
  {
    if visits != [] {
      RequestTimes(env, Moments(env, s, visits[0].gaps)[GETS - 1], visits[1..], now);
    }
  }

  lemma {:induction false} RequestsInOrder(env: Env, s: State, visits: seq<Visit>)
    requires Forwards(visits)
    ensures InOrder(env, s, Requests(env, s, visits))
    decreases |visits|
  {
    if visits != [] {
      var views := Moments(env, s, visits[0].gaps);
      MomentsFollow(env, s, visits[0].gaps);
      RequestTimes(env, views[GETS - 1], visits[1..], visits[0].now);
      RequestsInOrder(env, views[GETS - 1], visits[1..]);
      OneMoreCall(env, s, Request(visits[0].now, visits[0].ttl, views),
                  Requests(env, views[GETS - 1], visits[1..]));
    }
  }

  /** Any run of the publisher leads to a later moment. */
  lemma ReachedIsLater(env: Env, s0: State, s: State, u: State)
    requires Good(env) && SoloInit(env, s0) && Reaches(env, s0, s) && Reaches(env, s, u)
    ensures Later(env, s, u)
  {
    var before :| s == RunAll(env, true, s0, before);
    var after :| u == RunAll(env, true, s, after);
    SoloRuns(env, s0, before);
    SoloRuns(env, s, after);
  }

  lemma GetsInOrder(env: Env, s0: State, q: Request)
    requires Good(env) && SoloInit(env, s0) && |q.views| == GETS && Follow(env, s0, q.views)
    ensures RequestOk(env, q)
  {
    forall k, l | 0 <= k <= l < GETS ensures Later(env, q.views[k], q.views[l]) {
      ReachedIsLater(env, s0, q.views[k], q.views[l]);
    }
  }

  /** However the gets of a process fall among the steps of one publisher, its calls are
      sequential as soon as its clock does not run backwards. */
  lemma RunsAreSequential(env: Env, s0: State, visits: seq<Visit>)
    requires Good(env) && SoloInit(env, s0) && Forwards(visits)
    ensures Sequential(env, Requests(env, s0, visits))
  {
    var qs := Requests(env, s0, visits);
    RequestsInOrder(env, s0, visits);
    forall i | 0 <= i < |qs| ensures RequestOk(env, qs[i]) {
      GetsInOrder(env, s0, qs[i]);
    }
    forall i, j | 0 <= i < j < |qs|
      ensures qs[i].now <= qs[j].now && Later(env, qs[i].views[GETS - 1], qs[j].views[0])
    {
      assert Precedes(env, qs[i], qs[j]);
      ReachedIsLater(env, s0, qs[i].views[GETS - 1], qs[j].views[0]);
    }
  }

  /** Bounded staleness in every run of one publisher, wherever the gets of the calls fall. */
  lemma RunsAnswerFresh(env: Env, embedModel: string, s0: State, visits: seq<Visit>, i: nat)
    requires Good(env) && SoloInit(env, s0) && Forwards(visits) && i < |visits|
    requires Freshness.AnswerAt(VersionOf, Calls(env, embedModel, Requests(env, s0, visits)), i).Some?
    ensures var qs := Requests(env, s0, visits);
            var c := Freshness.AnswerAt(VersionOf, Calls(env, embedModel, qs), i).value;
            LoadedWhole(env, qs, i, c) && SeenRecently(env, qs, i, c.version)
  {
    RunsAreSequential(env, s0, visits);
    AnswersAreFresh(env, embedModel, Requests(env, s0, visits), i);
  }
}
