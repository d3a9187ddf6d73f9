/** With one publisher whose corpora match the serving configuration, every call answers. */
module Liveness {
  import opened Options
  import opened Frames
  import opened Artifact
  import opened Publishing
  import opened Serving
  import Freshness
  import Visits

  /** Rows of one width, under a manifest that says so and names the model. */
  ghost predicate Matches(m: Manifest, rows: Rows, embedModel: string, dims: nat) {
    m.embedModel == embedModel && m.dims == dims && Uniform(Vectors(rows), dims)
  }

  ghost predicate VersionMatches(s: State, v: nat, embedModel: string, dims: nat) {
    && v in s.published && ManifestKey(v) in s.store && s.store[ManifestKey(v)].ManifestObj?
    && Matches(s.store[ManifestKey(v)].manifest, s.published[v], embedModel, dims)
  }

  /** So does every published version, and every run under way. */
  ghost predicate AllMatch(s: State, embedModel: string, dims: nat) {
    && (forall v :: v in s.published ==> VersionMatches(s, v, embedModel, dims))
    && (forall p :: p in s.runs ==> Matches(s.runs[p].manifest, s.runs[p].rows, embedModel, dims))
  }

  ghost predicate StepMatches(step: Step, embedModel: string, dims: nat) {
    step.Start? ==> Matches(step.run.manifest, step.run.rows, embedModel, dims)
  }

  ghost predicate StepsMatch(steps: seq<Step>, embedModel: string, dims: nat) {
    forall i :: 0 <= i < |steps| ==> StepMatches(steps[i], embedModel, dims)
  }

  // ---------------------------------------------------------------- every run keeps it

  lemma WriteKeepsManifests(env: Env, s: State, pid: nat, lost: bool, v: nat)
    requires SoloInv(env, s) && pid in s.runs && v in s.published
    ensures var u := WriteStep(env, s, pid, lost);
            && v in u.published && u.published[v] == s.published[v]
            && (ManifestKey(v) in s.store ==>
                  ManifestKey(v) in u.store && u.store[ManifestKey(v)] == s.store[ManifestKey(v)])
  {
    assert SoloRunOk(env, s, s.runs[pid]);
    assert s.runs[pid].version !in s.published;
  }

  lemma WritePublishesMatching(env: Env, s: State, pid: nat, lost: bool, embedModel: string, dims: nat)
    requires SoloInv(env, s) && pid in s.runs && s.runs[pid].stage >= 4
    requires Matches(s.runs[pid].manifest, s.runs[pid].rows, embedModel, dims)
    ensures VersionMatches(WriteStep(env, s, pid, lost), s.runs[pid].version, embedModel, dims)
  {
    assert SoloRunOk(env, s, s.runs[pid]);
  }

  lemma WriteKeepsMatch(env: Env, s: State, pid: nat, lost: bool, embedModel: string, dims: nat)
    requires SoloInv(env, s) && AllMatch(s, embedModel, dims) && pid in s.runs
    ensures AllMatch(WriteStep(env, s, pid, lost), embedModel, dims)
  {
    var u, run := WriteStep(env, s, pid, lost), s.runs[pid];
    forall v | v in u.published ensures VersionMatches(u, v, embedModel, dims) {
      if v in s.published {
        assert VersionMatches(s, v, embedModel, dims);
        WriteKeepsManifests(env, s, pid, lost, v);
      } else {
        WritePublishesMatching(env, s, pid, lost, embedModel, dims);
      }
    }
    forall p | p in u.runs ensures Matches(u.runs[p].manifest, u.runs[p].rows, embedModel, dims) {
      assert u.runs[p].manifest == s.runs[p].manifest && u.runs[p].rows == s.runs[p].rows;
    }
  }

  lemma NextKeepsMatch(env: Env, s: State, step: Step, embedModel: string, dims: nat)
    requires SoloInv(env, s) && AllMatch(s, embedModel, dims) && StepMatches(step, embedModel, dims)
    ensures AllMatch(Next(env, true, s, step), embedModel, dims)
  {
    if step.Write? && step.pid in s.runs {
      WriteKeepsMatch(env, s, step.pid, step.lost, embedModel, dims);
    } else {
      var u := Next(env, true, s, step);
      assert u.store == s.store && u.published == s.published;
      forall v | v in u.published ensures VersionMatches(u, v, embedModel, dims) {
        assert VersionMatches(s, v, embedModel, dims);
      }
    }
  }

  lemma {:induction false} RunKeepsMatch(env: Env, s: State, steps: seq<Step>, embedModel: string, dims: nat)
    requires Good(env) && SoloInv(env, s) && AllMatch(s, embedModel, dims) && StepsMatch(steps, embedModel, dims)
    ensures SoloInv(env, RunAll(env, true, s, steps)) && AllMatch(RunAll(env, true, s, steps), embedModel, dims)
    decreases |steps|
  {
    if steps != [] {
      assert StepMatches(steps[0], embedModel, dims);
      assert StepsMatch(steps[1..], embedModel, dims);
      NextKeepsMatch(env, s, steps[0], embedModel, dims);
      SoloNext(env, s, steps[0]);
      RunKeepsMatch(env, Next(env, true, s, steps[0]), steps[1..], embedModel, dims);
    }
  }

  // ---------------------------------------------------------------- what the calls see

  ghost predicate GapsMatch(gaps: seq<seq<Step>>, embedModel: string, dims: nat) {
    forall k :: 0 <= k < |gaps| ==> StepsMatch(gaps[k], embedModel, dims)
  }

  /** A moment of a run that only starts matching publishes. */
  ghost predicate Reached(env: Env, s: State, u: State, embedModel: string, dims: nat) {
    exists steps :: StepsMatch(steps, embedModel, dims) && u == RunAll(env, true, s, steps)
  }

  lemma ReachedFurther(env: Env, s: State, t: State, u: State, embedModel: string, dims: nat)
    requires Reached(env, s, t, embedModel, dims) && Reached(env, t, u, embedModel, dims)
    ensures Reached(env, s, u, embedModel, dims)
  {
    var a :| StepsMatch(a, embedModel, dims) && t == RunAll(env, true, s, a);
    var b :| StepsMatch(b, embedModel, dims) && u == RunAll(env, true, t, b);
    Visits.RunConcat(env, s, a, b);
    assert StepsMatch(a + b, embedModel, dims);
  }

  lemma {:induction false} MomentReached(
    env: Env, s: State, gaps: seq<seq<Step>>, embedModel: string, dims: nat, k: nat)
    requires GapsMatch(gaps, embedModel, dims) && k < |gaps|
    ensures Reached(env, s, Visits.Moments(env, s, gaps)[k], embedModel, dims)
    decreases |gaps|
  {
    var u := RunAll(env, true, s, gaps[0]);
    assert StepsMatch(gaps[0], embedModel, dims) && GapsMatch(gaps[1..], embedModel, dims);
    assert Reached(env, s, u, embedModel, dims);
    if k > 0 {
      MomentReached(env, u, gaps[1..], embedModel, dims, k - 1);
      ReachedFurther(env, s, u, Visits.Moments(env, u, gaps[1..])[k - 1], embedModel, dims);
    }
  }

  lemma {:induction false} ViewReached(
    env: Env, s: State, visits: seq<Visits.Visit>, embedModel: string, dims: nat, i: nat, k: nat)
    requires i < |visits| && k < GETS
    requires forall j :: 0 <= j < |visits| ==> GapsMatch(visits[j].gaps, embedModel, dims)
    ensures Reached(env, s, Visits.Requests(env, s, visits)[i].views[k], embedModel, dims)
    decreases |visits|
  {
    if i == 0 {
      MomentReached(env, s, visits[0].gaps, embedModel, dims, k);
    } else {
      var last := Visits.Moments(env, s, visits[0].gaps)[GETS - 1];
      MomentReached(env, s, visits[0].gaps, embedModel, dims, GETS - 1);
      ViewReached(env, last, visits[1..], embedModel, dims, i - 1, k);
      ReachedFurther(env, s, last, Visits.Requests(env, last, visits[1..])[i - 1].views[k], embedModel, dims);
    }
  }

  lemma ReachedMatches(env: Env, s0: State, u: State, embedModel: string, dims: nat)
    requires Good(env) && SoloInit(env, s0) && AllMatch(s0, embedModel, dims) && Reached(env, s0, u, embedModel, dims)
    ensures AllMatch(u, embedModel, dims)
  {
    var steps :| StepsMatch(steps, embedModel, dims) && u == RunAll(env, true, s0, steps);
    RunKeepsMatch(env, s0, steps, embedModel, dims);
  }

  // ---------------------------------------------------------------- a reload succeeds

  /** Rows of one width can be decoded, to their vectors. */
  lemma UniformDecodes(rows: Rows, dims: nat)
    requires Uniform(Vectors(rows), dims)
    ensures Decoded(rows) == Some(Vectors(rows))
  {
    if rows != [] {
      UniformReshape(Vectors(rows), dims);
    }
  }

  lemma PartsLoad(env: Env, s3: Store, s4: Store, r2: Reader, rows: Rows, dims: nat)
    requires Good(env) && FramesOk(env, s3) && FramesOk(env, s4) && rows in env.corpora
    requires r2.GotParquet? && r2.rows == rows && r2.sha == env.sha(rows) && Uniform(Vectors(rows), dims)
    ensures var r4 := ReadStep(env, s4, ReadStep(env, s3, r2));
            r4.Loaded? && r4.corpus.embeddings == Vectors(rows)
  {
    UniformDecodes(rows, dims);
    ReadServes(env, s3, r2, rows);
    ReadServes(env, s4, ReadStep(env, s3, r2), rows);
  }

  /** The first two gets of a load find the rows of the current version. */
  lemma CallReads(env: Env, s: State, u: State)
    requires Later(env, s, u)
    ensures var rows := CurrentRows(env, s);
            && rows in env.corpora
            && ReadStep(env, u.store, ReadStep(env, s.store, Opened)) == GotParquet(Top(s), env.sha(rows), rows)
  {
    PointerIsTop(env, s);
    ParquetIsThere(env, s, u, Top(s));
  }

  lemma CurrentIsUniform(env: Env, s: State, embedModel: string, dims: nat)
    requires PublishedOk(env, s) && AllMatch(s, embedModel, dims)
    ensures Uniform(Vectors(CurrentRows(env, s)), dims)
  {
    assert VersionMatches(s, Top(s), embedModel, dims);
  }

  lemma CallFrames(env: Env, q: Request)
    requires RequestOk(env, q)
    ensures Later(env, q.views[1], q.views[2])
    ensures FramesOk(env, q.views[3].store) && FramesOk(env, q.views[4].store)
  {
    assert Later(env, q.views[3], q.views[4]);
  }

  lemma LoadFrom(env: Env, views: seq<State>, embedModel: string, dims: nat)
    requires Good(env) && |views| == GETS && Later(env, views[1], views[2]) && AllMatch(views[1], embedModel, dims)
    requires FramesOk(env, views[3].store) && FramesOk(env, views[4].store)
    ensures Load(env, views).Loaded? && Load(env, views).corpus.embeddings == Vectors(CurrentRows(env, views[1]))
    ensures Uniform(Vectors(CurrentRows(env, views[1])), dims)
  {
    var rows := CurrentRows(env, views[1]);
    CallReads(env, views[1], views[2]);
    CurrentIsUniform(env, views[1], embedModel, dims);
    PartsLoad(env, views[3].store, views[4].store, GotParquet(Top(views[1]), env.sha(rows), rows), rows, dims);
  }

  lemma CallLoads(env: Env, q: Request, embedModel: string, dims: nat)
    requires Good(env) && RequestOk(env, q) && AllMatch(q.views[1], embedModel, dims)
    ensures Load(env, q.views).Loaded?
    ensures var e := Load(env, q.views).corpus.embeddings; |e| > 0 ==> |e[0]| == dims
  {
    CallFrames(env, q);
    LoadFrom(env, q.views, embedModel, dims);
  }

  lemma CallHasManifest(env: Env, q: Request, embedModel: string, dims: nat)
    requires RequestOk(env, q) && AllMatch(q.views[6], embedModel, dims)
    ensures var m := LoadManifest(q.views[5].store, q.views[6].store);
            m.Some? && m.value.embedModel == embedModel && m.value.dims == dims
  {
    var v := q.views;
    assert Later(env, v[5], v[6]);
    PointerIsTop(env, v[5]);
    assert VersionMatches(v[6], Top(v[5]), embedModel, dims);
  }

  lemma CallReaches(env: Env, q: Request)
    requires RequestOk(env, q)
    ensures ReadPointer(q.views[0].store).GotPointer?
  {
    assert Later(env, q.views[0], q.views[0]);
  }

  /** The corpus that was loaded passes the validation against the manifest that was read. */
  lemma ReloadFrom(env: Env, views: seq<State>, embedModel: string, dims: nat)
    requires |views| == GETS && Load(env, views).Loaded?
    requires var e := Load(env, views).corpus.embeddings; |e| > 0 ==> |e[0]| == dims
    requires var m := LoadManifest(views[5].store, views[6].store);
             m.Some? && m.value.embedModel == embedModel && m.value.dims == dims
    ensures Reload(env, views, embedModel).Some?
  {
  }

  lemma CallReloads(env: Env, q: Request, embedModel: string, dims: nat)
    requires Good(env) && RequestOk(env, q)
    requires AllMatch(q.views[1], embedModel, dims) && AllMatch(q.views[6], embedModel, dims)
    ensures Observed(env, embedModel, q).reached && Observed(env, embedModel, q).loaded.Some?
  {
    CallLoads(env, q, embedModel, dims);
    CallHasManifest(env, q, embedModel, dims);
    CallReaches(env, q);
    ReloadFrom(env, q.views, embedModel, dims);
  }

  /** From a deployment with one publisher whose corpora have the model and the width that
      serving expects, and through every run in which it only publishes such corpora: every
      call of a process answers, wherever its gets fall, whatever crashes and lost sidecars lie
      in between. */
  lemma EveryCallAnswers(
    env: Env, embedModel: string, dims: nat, s0: State, visits: seq<Visits.Visit>, i: nat)
    requires Good(env) && SoloInit(env, s0) && AllMatch(s0, embedModel, dims) && Visits.Forwards(visits)
    requires forall j :: 0 <= j < |visits| ==> GapsMatch(visits[j].gaps, embedModel, dims)
    requires i < |visits|
    ensures Freshness.AnswerAt(VersionOf, Calls(env, embedModel, Visits.Requests(env, s0, visits)), i).Some?
  {
    var qs := Visits.Requests(env, s0, visits);
    Visits.RunsAreSequential(env, s0, visits);
    ViewReached(env, s0, visits, embedModel, dims, i, 1);
    ViewReached(env, s0, visits, embedModel, dims, i, 6);
    ReachedMatches(env, s0, qs[i].views[1], embedModel, dims);
    ReachedMatches(env, s0, qs[i].views[6], embedModel, dims);
    CallReloads(env, qs[i], embedModel, dims);
    Freshness.AnswersExactlyWhen(VersionOf, Calls(env, embedModel, qs), i);
  }
}
