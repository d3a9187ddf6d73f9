/** Publishing and then loading, undisturbed: what a publisher writes is what a reader gets,
    sidecars included. */
module RoundTrip {
  import opened Options
  import opened Bm25
  import opened Frames
  import opened Artifact
  import opened Publishing

  /** The steps of one run; either sidecar write may be lost. */
  function Publish(pid: nat, run: Run, lostIndex: bool, lostMatrix: bool): seq<Step> {
    [Start(pid, run), Write(pid, false), Write(pid, false), Write(pid, lostIndex), Write(pid, lostMatrix),
     Write(pid, false)]
  }

  /** The steps of one load. */
  function Load(rid: nat): seq<Step> { [Open(rid), Read(rid), Read(rid), Read(rid), Read(rid)] }

  lemma FirstStep(env: Env, solo: bool, s: State, steps: seq<Step>)
    requires steps != []
    ensures RunAll(env, solo, s, steps) == RunAll(env, solo, Next(env, solo, s, steps[0]), steps[1..])
  {
  }

  lemma TwoWrites(env: Env, solo: bool, s: State, pid: nat, a: bool, b: bool, rest: seq<Step>)
    ensures RunAll(env, solo, s, [Write(pid, a), Write(pid, b)] + rest)
            == RunAll(env, solo, Next(env, solo, Next(env, solo, s, Write(pid, a)), Write(pid, b)), rest)
  {
    var steps := [Write(pid, a), Write(pid, b)] + rest;
    FirstStep(env, solo, s, steps);
    assert steps[1..] == [Write(pid, b)] + rest;
    FirstStep(env, solo, Next(env, solo, s, steps[0]), steps[1..]);
    assert steps[1..][1..] == rest;
  }

  /** What the run leaves under its keys. */
  ghost predicate Left(env: Env, u: State, run: Run, lostIndex: bool, lostMatrix: bool) {
    && CurrentKey in u.store && u.store[CurrentKey] == Pointer(run.version, env.sha(run.rows))
    && ParquetKey(run.version) in u.store && u.store[ParquetKey(run.version)] == Parquet(run.rows)
    && ManifestKey(run.version) in u.store && u.store[ManifestKey(run.version)] == ManifestObj(run.manifest)
    && run.version in u.published && u.published[run.version] == run.rows
    && SidecarsIn(env, u.store, run, lostIndex, lostMatrix)
  }

  /** Each sidecar that can be serialised and is not lost; no rows have no sidecars. */
  ghost predicate SidecarsIn(env: Env, store: Store, run: Run, lostIndex: bool, lostMatrix: bool) {
    && (!lostIndex && run.rows != [] && SerializeIndex(env, run.saved).Some? ==>
         && IndexKey(run.version) in store
         && store[IndexKey(run.version)] == Blob(SerializeIndex(env, run.saved).value))
    && (!lostMatrix && MatrixFrame(env, run.rows).Some? ==>
         EmbKey(run.version) in store && store[EmbKey(run.version)] == Blob(MatrixFrame(env, run.rows).value))
  }

  function MatrixFrame(env: Env, rows: Rows): Option<bytes> {
    if rows == [] || |env.sha(rows)| != 64 then None
    else SerializeEmbeddings(env.zip, Vectors(rows), env.sha(rows))
  }

  lemma RunOfSix(env: Env, solo: bool, s: State, pid: nat, run: Run, lostIndex: bool, lostMatrix: bool)
    ensures var s1 := Next(env, solo, Next(env, solo, s, Start(pid, run)), Write(pid, false));
            var s3 := Next(env, solo, Next(env, solo, s1, Write(pid, false)), Write(pid, lostIndex));
            RunAll(env, solo, s, Publish(pid, run, lostIndex, lostMatrix))
            == Next(env, solo, Next(env, solo, s3, Write(pid, lostMatrix)), Write(pid, false))
  {
    var s0 := Next(env, solo, s, Start(pid, run));
    var s1 := Next(env, solo, s0, Write(pid, false));
    var s3 := Next(env, solo, Next(env, solo, s1, Write(pid, false)), Write(pid, lostIndex));
    FirstStep(env, solo, s, Publish(pid, run, lostIndex, lostMatrix));
    var five := Publish(pid, run, lostIndex, lostMatrix)[1..];
    assert five == [Write(pid, false)] + five[1..];
    assert five[1..] == [Write(pid, false), Write(pid, lostIndex)] + five[3..];
    FirstStep(env, solo, s0, five);
    TwoWrites(env, solo, s1, pid, false, lostIndex, five[3..]);
    assert five[3..] == [Write(pid, lostMatrix), Write(pid, false)] + [];
    TwoWrites(env, solo, s3, pid, lostMatrix, false, []);
  }

  /** The write of each stage. */
  lemma StageWrites(env: Env, solo: bool, s: State, pid: nat, lost: bool)
    requires pid in s.runs && s.runs[pid].stage < 4
    ensures var u, run := Next(env, solo, s, Write(pid, lost)), s.runs[pid];
            var o := WriteObj(env, run);
            && u == s.(store := u.store, runs := s.runs[pid := run.(stage := run.stage + 1)])
            && u.store == if o.None? || (lost && 2 <= run.stage) then s.store else s.store[o.value.0 := o.value.1]
  {
  }

  /** The run up to its sidecars. */
  function Halfway(s: State, pid: nat, run: Run): State {
    s.(store := s.store[ParquetKey(run.version) := Parquet(run.rows)]
                       [ManifestKey(run.version) := ManifestObj(run.manifest)],
       runs := s.runs[pid := run.(stage := 2)])
  }

  lemma FirstHalf(env: Env, solo: bool, s: State, pid: nat, run: Run)
    requires MayStart(env, solo, s, pid, run)
    ensures var s0 := Next(env, solo, s, Start(pid, run));
            Next(env, solo, Next(env, solo, s0, Write(pid, false)), Write(pid, false)) == Halfway(s, pid, run)
  {
    var s0 := Next(env, solo, s, Start(pid, run));
    var s1 := Next(env, solo, s0, Write(pid, false));
    StageWrites(env, solo, s0, pid, false);
    StageWrites(env, solo, s1, pid, false);
  }

  /** What the two sidecar writes leave of a store. */
  ghost predicate WithSidecars(env: Env, before: Store, after: Store, run: Run, lostIndex: bool, lostMatrix: bool) {
    && (forall k :: k in before && k != IndexKey(run.version) && k != EmbKey(run.version) ==>
          k in after && after[k] == before[k])
    && SidecarsIn(env, after, run, lostIndex, lostMatrix)
  }

  lemma SecondHalf(env: Env, solo: bool, s: State, pid: nat, run: Run, lostIndex: bool, lostMatrix: bool)
    requires pid in s.runs && s.runs[pid] == run.(stage := 2)
    ensures var u := Next(env, solo, Next(env, solo, s, Write(pid, lostIndex)), Write(pid, lostMatrix));
            && u == s.(store := u.store, runs := s.runs[pid := run.(stage := 4)])
            && WithSidecars(env, s.store, u.store, run, lostIndex, lostMatrix)
  {
    var s1 := Next(env, solo, s, Write(pid, lostIndex));
    StageWrites(env, solo, s, pid, lostIndex);
    StageWrites(env, solo, s1, pid, lostMatrix);
    assert s.runs[pid := run.(stage := 3)][pid := run.(stage := 4)] == s.runs[pid := run.(stage := 4)];
  }

  lemma LastWrite(env: Env, solo: bool, s: State, pid: nat, run: Run)
    requires pid in s.runs && s.runs[pid] == run.(stage := 4)
    ensures Next(env, solo, s, Write(pid, false))
            == s.(store := s.store[CurrentKey := Pointer(run.version, env.sha(run.rows))], runs := s.runs - {pid},
                  published := s.published[run.version := run.rows])
  {
  }

  function Flipped(env: Env, w: State, pid: nat, run: Run): State {
    w.(store := w.store[CurrentKey := Pointer(run.version, env.sha(run.rows))], runs := w.runs - {pid},
       published := w.published[run.version := run.rows])
  }

  lemma RunFlips(env: Env, solo: bool, s: State, pid: nat, run: Run, lostIndex: bool, lostMatrix: bool)
    returns (w: State)
    requires MayStart(env, solo, s, pid, run)
    ensures RunAll(env, solo, s, Publish(pid, run, lostIndex, lostMatrix)) == Flipped(env, w, pid, run)
    ensures w == Halfway(s, pid, run).(store := w.store, runs := s.runs[pid := run.(stage := 4)])
    ensures WithSidecars(env, Halfway(s, pid, run).store, w.store, run, lostIndex, lostMatrix)
  {
    var h := Halfway(s, pid, run);
    RunOfSix(env, solo, s, pid, run, lostIndex, lostMatrix);
    FirstHalf(env, solo, s, pid, run);
    SecondHalf(env, solo, h, pid, run, lostIndex, lostMatrix);
    w := Next(env, solo, Next(env, solo, h, Write(pid, lostIndex)), Write(pid, lostMatrix));
    assert h.runs[pid := run.(stage := 4)] == s.runs[pid := run.(stage := 4)];
    LastWrite(env, solo, w, pid, run);
  }

  lemma FlippedLeaves(env: Env, s: State, w: State, pid: nat, run: Run, lostIndex: bool, lostMatrix: bool)
    requires WithSidecars(env, Halfway(s, pid, run).store, w.store, run, lostIndex, lostMatrix)
    ensures Left(env, Flipped(env, w, pid, run), run, lostIndex, lostMatrix)
  {
    var store := Halfway(s, pid, run).store;
    assert ParquetKey(run.version) in store && ManifestKey(run.version) in store;
  }

  lemma FlippedTouches(
    env: Env, s: State, w: State, pid: nat, run: Run, lostIndex: bool, lostMatrix: bool, k: Key)
    requires WithSidecars(env, Halfway(s, pid, run).store, w.store, run, lostIndex, lostMatrix)
    requires k in s.store && k != CurrentKey && k.v != run.version
    ensures k in Flipped(env, w, pid, run).store && Flipped(env, w, pid, run).store[k] == s.store[k]
  {
    assert k in Halfway(s, pid, run).store && Halfway(s, pid, run).store[k] == s.store[k];
  }

  /** An undisturbed run leaves its rows, its manifest, its pointer and each sidecar that can
      be serialised and is not lost, touches nothing else, and is over. */
  lemma PublishLeaves(env: Env, solo: bool, s: State, pid: nat, run: Run, lostIndex: bool, lostMatrix: bool)
    requires MayStart(env, solo, s, pid, run)
    ensures var u := RunAll(env, solo, s, Publish(pid, run, lostIndex, lostMatrix));
            && Left(env, u, run, lostIndex, lostMatrix)
            && u.readers == s.readers && u.runs == s.runs && u.published == s.published[run.version := run.rows]
            && (forall k :: k in s.store && k != CurrentKey && k.v != run.version ==>
                  k in u.store && u.store[k] == s.store[k])
  {
    var w := RunFlips(env, solo, s, pid, run, lostIndex, lostMatrix);
    assert w.runs - {pid} == s.runs;
    FlippedLeaves(env, s, w, pid, run, lostIndex, lostMatrix);
    forall k | k in s.store && k != CurrentKey && k.v != run.version
      ensures k in Flipped(env, w, pid, run).store && Flipped(env, w, pid, run).store[k] == s.store[k]
    {
      FlippedTouches(env, s, w, pid, run, lostIndex, lostMatrix, k);
    }
  }

  // ---------------------------------------------------------------- the load after it

  lemma FiveSteps(env: Env, solo: bool, s: State, rid: nat)
    requires rid !in s.readers
    ensures var r := ReadStep(env, s.store, ReadStep(env, s.store, Opened));
            var u := RunAll(env, solo, s, Load(rid));
            && rid in u.readers && u.readers[rid] == ReadStep(env, s.store, ReadStep(env, s.store, r))
            && u.store == s.store
  {
    var steps := Load(rid);
    FirstStep(env, solo, s, steps);
    var s0 := Next(env, solo, s, steps[0]);
    FirstStep(env, solo, s0, steps[1..]);
    var s1 := Next(env, solo, s0, Read(rid));
    assert steps[1..][1..] == [Read(rid), Read(rid), Read(rid)];
    FirstStep(env, solo, s1, [Read(rid), Read(rid), Read(rid)]);
    var s2 := Next(env, solo, s1, Read(rid));
    assert [Read(rid), Read(rid), Read(rid)][1..] == [Read(rid), Read(rid)];
    FirstStep(env, solo, s2, [Read(rid), Read(rid)]);
    var s3 := Next(env, solo, s2, Read(rid));
    assert [Read(rid), Read(rid)][1..] == [Read(rid)];
    FirstStep(env, solo, s3, [Read(rid)]);
  }

  lemma RowsGet(env: Env, u: State, run: Run, lostIndex: bool, lostMatrix: bool)
    requires Left(env, u, run, lostIndex, lostMatrix)
    ensures ReadStep(env, u.store, ReadStep(env, u.store, Opened))
            == GotParquet(run.version, env.sha(run.rows), run.rows)
  {
  }

  lemma MatrixGet(env: Env, u: State, run: Run, lostIndex: bool, lostMatrix: bool, dims: nat)
    requires Good(env) && run.rows in env.corpora && Left(env, u, run, lostIndex, lostMatrix)
    requires !lostMatrix && run.rows != [] && Uniform(Vectors(run.rows), dims) && Packable(|run.rows|, dims)
    ensures ReadEmbeddings(env, u.store, run.version, env.sha(run.rows)) == Some(Vectors(run.rows))
  {
    assert |Vectors(run.rows)[0]| == dims;
    assert MatrixFrame(env, run.rows).Some?;
    EmbeddingsRoundTrip(env.zip, Vectors(run.rows), env.sha(run.rows), env.sha(run.rows));
  }

  lemma IndexGet(env: Env, u: State, run: Run, lostIndex: bool, lostMatrix: bool)
    requires Good(env) && SavedFor(env, run.saved, run.rows) && Left(env, u, run, lostIndex, lostMatrix)
    requires !lostIndex && run.rows != [] && SerializeIndex(env, run.saved).Some?
    requires env.fingerprint.Some? && run.saved.fingerprint == env.fingerprint
    ensures ReadIndex(env, u.store, run.version, env.sha(run.rows), |run.rows|) == Some(Build(env.ln, Texts(run.rows)))
  {
    AcceptedIndexIsRebuilt(env, SerializeIndex(env, run.saved).value, run.saved, run.rows, run.rows);
  }

  /** The last two gets parse the rows and adopt the index. */
  lemma Parses(env: Env, store: Store, version: nat, rows: Rows, dims: nat)
    requires Good(env) && FramesOk(env, store) && rows in env.corpora && Uniform(Vectors(rows), dims)
    ensures var sha := env.sha(rows);
            var r := ReadStep(env, store, ReadStep(env, store, GotParquet(version, sha, rows)));
            && r.Loaded? && r.corpus.version == version && Serves(env, r.corpus, rows)
            && r.corpus.prebuilt == ReadIndex(env, store, version, sha, |rows|)
  {
    if rows != [] {
      UniformReshape(Vectors(rows), dims);
    }
    var parsed := GotParquet(version, env.sha(rows), rows);
    ReadServes(env, store, parsed, rows);
    ReadServes(env, store, ReadStep(env, store, parsed), rows);
  }

  /** An undisturbed publish and then a load give the rows back: under the new version, with
      the index built over them, and with the matrix read from its sidecar, unless a sidecar
      was lost, could not be serialised, or comes from another code version. */
  lemma PublishThenLoad(
    env: Env, solo: bool, s: State, pid: nat, run: Run, lostIndex: bool, lostMatrix: bool, rid: nat, dims: nat)
    requires Good(env) && SafeInv(env, s) && MayStart(env, solo, s, pid, run) && rid !in s.readers
    requires Uniform(Vectors(run.rows), dims)
    ensures var v := RunAll(env, solo, s, Publish(pid, run, lostIndex, lostMatrix));
            var u := RunAll(env, solo, v, Load(rid));
            && rid in u.readers && u.readers[rid].Loaded?
            && var c := u.readers[rid].corpus;
               && c.version == run.version && Serves(env, c, run.rows)
               && (!lostIndex && run.rows != [] && SerializeIndex(env, run.saved).Some?
                   && env.fingerprint.Some? && run.saved.fingerprint == env.fingerprint ==>
                     c.prebuilt == Some(Build(env.ln, Texts(run.rows))))
               && (!lostMatrix && run.rows != [] && Packable(|run.rows|, dims) ==>
                     ReadEmbeddings(env, v.store, run.version, env.sha(run.rows)) == Some(Vectors(run.rows)))
  {
    var steps := Publish(pid, run, lostIndex, lostMatrix);
    var v := RunAll(env, solo, s, steps);
    PublishLeaves(env, solo, s, pid, run, lostIndex, lostMatrix);
    RunKeepsSafe(env, solo, s, steps);
    FiveSteps(env, solo, v, rid);
    RowsGet(env, v, run, lostIndex, lostMatrix);
    Parses(env, v.store, run.version, run.rows, dims);
    if !lostIndex && run.rows != [] && SerializeIndex(env, run.saved).Some?
       && env.fingerprint.Some? && run.saved.fingerprint == env.fingerprint
    {
      IndexGet(env, v, run, lostIndex, lostMatrix);
    }
    if !lostMatrix && run.rows != [] && Packable(|run.rows|, dims) {
      MatrixGet(env, v, run, lostIndex, lostMatrix, dims);
    }
  }
}
