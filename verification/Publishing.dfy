/** Write-then-flip publishing and readers that fetch one object at a time, interleaved.

    Publishers may crash between any two writes and may lose any sidecar write; a crashed
    attempt leaves objects that a later attempt at the same version overwrites, or, for a
    sidecar whose second write is lost, does not. */
module Publishing {
  import opened Options
  import opened Frames
  import opened Bm25
  import opened Artifact

  datatype Key = ParquetKey(v: nat) | ManifestKey(v: nat) | IndexKey(v: nat) | EmbKey(v: nat) | CurrentKey

  datatype Manifest = Manifest(embedModel: string, dims: nat, chunkCount: nat, sha: bytes)

  datatype Obj =
    | Parquet(rows: Rows)
    | ManifestObj(manifest: Manifest)
    | Blob(data: bytes)
    | Pointer(version: nat, sha: bytes)

  type Store = map<Key, Obj>

  /** `write_artifact` under way: the next write is number `stage`. */
  datatype Run = Run(version: nat, rows: Rows, manifest: Manifest, saved: Saved, stage: nat)

  datatype Failure = Missing | ShaMismatch | BadShape

  /** `load_current` under way. */
  datatype Reader =
    | Opened
    | GotPointer(version: nat, sha: bytes)
    | GotParquet(version: nat, sha: bytes, rows: Rows)
    | Parsed(sha: bytes, corpus: Corpus)
    | Loaded(sha: bytes, corpus: Corpus)
    | Failed(why: Failure)

  datatype State = State(store: Store, runs: map<nat, Run>, readers: map<nat, Reader>, published: map<nat, Rows>)

  datatype Step =
    | Start(pid: nat, run: Run)
    | Write(pid: nat, lost: bool)
    | Crash(pid: nat)
    | Open(rid: nat)
    | Read(rid: nat)

  // ---------------------------------------------------------------- one get of a reader

  function ReadPointer(store: Store): Reader {
    if CurrentKey in store && store[CurrentKey].Pointer?
    then GotPointer(store[CurrentKey].version, store[CurrentKey].sha)
    else Failed(Missing)
  }

  function ReadParquet(env: Env, store: Store, version: nat, sha: bytes): Reader {
    if ParquetKey(version) !in store || !store[ParquetKey(version)].Parquet? then Failed(Missing)
    else if env.sha(store[ParquetKey(version)].rows) != sha then Failed(ShaMismatch)
    else GotParquet(version, sha, store[ParquetKey(version)].rows)
  }

  /** An absent, foreign or damaged matrix sidecar is ignored. */
  function ReadEmbeddings(env: Env, store: Store, version: nat, sha: bytes): Option<Matrix> {
    if EmbKey(version) in store && store[EmbKey(version)].Blob?
    then DeserializeEmbeddings(env.zip, store[EmbKey(version)].data, sha)
    else None
  }

  function ReadIndex(env: Env, store: Store, version: nat, sha: bytes, count: nat): Option<Index> {
    if count > 0 && IndexKey(version) in store && store[IndexKey(version)].Blob?
    then DeserializeIndex(env, store[IndexKey(version)].data, sha, count)
    else None
  }

  function ReadStep(env: Env, store: Store, r: Reader): Reader {
    match r
    case Opened => ReadPointer(store)
    case GotPointer(version, sha) => ReadParquet(env, store, version, sha)
    case GotParquet(version, sha, rows) =>
      (match FromParquet(rows, version, ReadEmbeddings(env, store, version, sha))
       case None => Failed(BadShape)
       case Some(c) => Parsed(sha, c))
    case Parsed(sha, c) =>
      Loaded(sha, c.(prebuilt := ReadIndex(env, store, c.version, sha, |c.ids|)))
    case Loaded(_, _) => r
    case Failed(_) => r
  }

  // ---------------------------------------------------------------- one write of a publisher

  /** The object of each write, in order; a sidecar that cannot be serialised is skipped,
      and an artifact without rows has no sidecars. */
  function WriteObj(env: Env, run: Run): Option<(Key, Obj)> {
    match run.stage
    case 0 => Some((ParquetKey(run.version), Parquet(run.rows)))
    case 1 => Some((ManifestKey(run.version), ManifestObj(run.manifest)))
    case 2 =>
      if run.rows == [] || SerializeIndex(env, run.saved).None? then None
      else Some((IndexKey(run.version), Blob(SerializeIndex(env, run.saved).value)))
    case 3 =>
      if run.rows == [] || |env.sha(run.rows)| != 64 then None
      else
        var f := SerializeEmbeddings(env.zip, Vectors(run.rows), env.sha(run.rows));
        if f.None? then None else Some((EmbKey(run.version), Blob(f.value)))
    case _ => Some((CurrentKey, Pointer(run.version, env.sha(run.rows))))
  }

  function WriteStep(env: Env, s: State, pid: nat, lost: bool): State
    requires pid in s.runs
  {
    var run := s.runs[pid];
    var o := WriteObj(env, run);
    var skip := o.None? || (lost && 2 <= run.stage <= 3);
    var store := if skip then s.store else s.store[o.value.0 := o.value.1];
    if run.stage >= 4
    then s.(store := store, runs := s.runs - {pid}, published := s.published[run.version := run.rows])
    else s.(store := store, runs := s.runs[pid := run.(stage := run.stage + 1)])
  }

  /** What `write_artifact` sets out to write.  With one publisher, no other run is under way
      and the version follows the current one. */
  ghost predicate MayStart(env: Env, solo: bool, s: State, pid: nat, run: Run) {
    && pid !in s.runs && run.stage == 0
    && SavedFor(env, run.saved, run.rows)
    && run.manifest.sha == env.sha(run.rows) && run.manifest.chunkCount == |run.rows|
    && (solo ==>
         && s.runs == map[]
         && CurrentKey in s.store && s.store[CurrentKey].Pointer?
         && run.version == s.store[CurrentKey].version + 1)
  }

  ghost function Next(env: Env, solo: bool, s: State, step: Step): State {
    match step
    case Start(pid, run) => if MayStart(env, solo, s, pid, run) then s.(runs := s.runs[pid := run]) else s
    case Write(pid, lost) => if pid in s.runs then WriteStep(env, s, pid, lost) else s
    case Crash(pid) => s.(runs := s.runs - {pid})
    case Open(rid) => if rid in s.readers then s else s.(readers := s.readers[rid := Opened])
    case Read(rid) =>
      if rid in s.readers then s.(readers := s.readers[rid := ReadStep(env, s.store, s.readers[rid])]) else s
  }

  ghost function RunAll(env: Env, solo: bool, s: State, steps: seq<Step>): State
    decreases |steps|
  {
    if steps == [] then s else RunAll(env, solo, Next(env, solo, s, steps[0]), steps[1..])
  }

  // ------------------------------------------------------------ any number of publishers

  /** Every parquet object and every sidecar frame in the store, however old, was made from
      rows that occurred. */
  ghost predicate FrameOk(env: Env, k: Key, o: Obj) {
    && (o.Parquet? ==> o.rows in env.corpora)
    && (k.IndexKey? ==> o.Blob? && exists x, rows :: IndexFrameOf(env, o.data, x, rows))
    && (k.EmbKey? ==> o.Blob? && exists rows :: EmbFrameOf(env, o.data, rows))
  }

  ghost predicate FramesOk(env: Env, store: Store) {
    forall k :: k in store ==> FrameOk(env, k, store[k])
  }

  ghost predicate RunsOk(env: Env, s: State) {
    forall p :: p in s.runs ==> SavedFor(env, s.runs[p].saved, s.runs[p].rows)
  }

  /** The corpus of these rows: their columns, the matrix their column decodes to, and
      either no index or the one a rebuild gives. */
  ghost predicate Serves(env: Env, c: Corpus, rows: Rows) {
    && FromParquet(rows, c.version, None) == Some(c.(prebuilt := None))
    && (c.prebuilt.Some? ==> c.prebuilt.value == Build(env.ln, Texts(rows)))
  }

  ghost predicate FromDigest(env: Env, sha: bytes, c: Corpus, rows: Rows) {
    rows in env.corpora && env.sha(rows) == sha && Serves(env, c, rows)
  }

  ghost predicate ReaderOk(env: Env, r: Reader) {
    match r
    case GotParquet(_, sha, rows) => rows in env.corpora && env.sha(rows) == sha
    case Parsed(sha, c) => c.prebuilt.None? && exists rows :: FromDigest(env, sha, c, rows)
    case Loaded(sha, c) => exists rows :: FromDigest(env, sha, c, rows)
    case _ => true
  }

  ghost predicate ReadersOk(env: Env, s: State) {
    forall r :: r in s.readers ==> ReaderOk(env, s.readers[r])
  }

  ghost predicate SafeInv(env: Env, s: State) {
    FramesOk(env, s.store) && RunsOk(env, s) && ReadersOk(env, s)
  }

  /** Parsing with whatever matrix sidecar is there gives what parsing without one gives. */
  lemma ParseIgnoresSidecar(env: Env, store: Store, version: nat, rows: Rows)
    requires Good(env) && FramesOk(env, store) && rows in env.corpora
    ensures var m := ReadEmbeddings(env, store, version, env.sha(rows));
            && (m.Some? ==> m == Decoded(rows))
            && FromParquet(rows, version, m) == FromParquet(rows, version, None)
  {
    var m := ReadEmbeddings(env, store, version, env.sha(rows));
    if m.Some? {
      assert FrameOk(env, EmbKey(version), store[EmbKey(version)]);
      var data := store[EmbKey(version)].data;
      var origin :| EmbFrameOf(env, data, origin);
      AcceptedMatrixIsDecoded(env, data, origin, rows);
      ParseWithDecoded(rows, version);
    }
  }

  lemma IndexIsRebuilt(env: Env, store: Store, version: nat, rows: Rows)
    requires Good(env) && FramesOk(env, store) && rows in env.corpora
    ensures var x := ReadIndex(env, store, version, env.sha(rows), |rows|);
            x.Some? ==> x.value == Build(env.ln, Texts(rows))
  {
    var x := ReadIndex(env, store, version, env.sha(rows), |rows|);
    if x.Some? {
      assert FrameOk(env, IndexKey(version), store[IndexKey(version)]);
      var data := store[IndexKey(version)].data;
      var saved, origin :| IndexFrameOf(env, data, saved, origin);
      AcceptedIndexIsRebuilt(env, data, saved, origin, rows);
    }
  }

  /** One get of one reader, with the rows it is reading. */
  lemma ReadServes(env: Env, store: Store, r: Reader, rows: Rows)
    requires Good(env) && FramesOk(env, store) && rows in env.corpora
    requires match r {
               case GotParquet(_, sha, q) => q == rows && sha == env.sha(rows)
               case Parsed(sha, c) => sha == env.sha(rows) && Serves(env, c, rows) && c.prebuilt.None?
               case _ => false
             }
    ensures var u := ReadStep(env, store, r);
            match u {
              case Parsed(sha, c) =>
                && r.GotParquet? && sha == env.sha(rows) && c.version == r.version
                && Serves(env, c, rows) && c.prebuilt.None?
              case Loaded(sha, c) =>
                r.Parsed? && sha == env.sha(rows) && c.version == r.corpus.version && Serves(env, c, rows)
              case Failed(why) => r.GotParquet? && why == BadShape && Decoded(rows).None?
              case _ => false
            }
  {
    match r
    case GotParquet(version, sha, _) => ParseIgnoresSidecar(env, store, version, rows);
    case Parsed(sha, c) => IndexIsRebuilt(env, store, c.version, rows);
    case _ =>
  }

  lemma ReaderStaysOk(env: Env, store: Store, r: Reader)
    requires Good(env) && FramesOk(env, store) && ReaderOk(env, r)
    ensures ReaderOk(env, ReadStep(env, store, r))
  {
    match r
    case GotPointer(version, _) =>
      if ParquetKey(version) in store {
        assert FrameOk(env, ParquetKey(version), store[ParquetKey(version)]);
      }
    case GotParquet(_, sha, rows) =>
      ReadServes(env, store, r, rows);
      var u := ReadStep(env, store, r);
      assert u.Parsed? ==> FromDigest(env, u.sha, u.corpus, rows);
    case Parsed(sha, c) =>
      var rows :| FromDigest(env, sha, c, rows);
      ReadServes(env, store, r, rows);
      var u := ReadStep(env, store, r);
      assert u.Loaded? ==> FromDigest(env, u.sha, u.corpus, rows);
    case _ =>
  }

  lemma WrittenFrame(env: Env, run: Run)
    requires SavedFor(env, run.saved, run.rows)
    ensures var o := WriteObj(env, run); o.Some? ==> FrameOk(env, o.value.0, o.value.1)
  {
    var o := WriteObj(env, run);
    if o.Some? {
      if run.stage == 2 {
        assert IndexFrameOf(env, o.value.1.data, run.saved, run.rows);
      } else if run.stage == 3 {
        assert EmbFrameOf(env, o.value.1.data, run.rows);
      }
    }
  }

  lemma PutKeepsFrames(env: Env, store: Store, k: Key, o: Obj)
    requires FramesOk(env, store) && FrameOk(env, k, o)
    ensures FramesOk(env, store[k := o])
  {
  }

  lemma WriteKeepsFrames(env: Env, s: State, pid: nat, lost: bool)
    requires FramesOk(env, s.store) && pid in s.runs && SavedFor(env, s.runs[pid].saved, s.runs[pid].rows)
    ensures FramesOk(env, WriteStep(env, s, pid, lost).store)
  {
    WrittenFrame(env, s.runs[pid]);
    var o := WriteObj(env, s.runs[pid]);
    if o.Some? {
      PutKeepsFrames(env, s.store, o.value.0, o.value.1);
    }
  }

  /** A run keeps its rows and its saved state from start to flip. */
  lemma WriteKeepsRuns(env: Env, s: State, pid: nat, lost: bool)
    requires RunsOk(env, s) && pid in s.runs
    ensures RunsOk(env, WriteStep(env, s, pid, lost))
  {
    var u := WriteStep(env, s, pid, lost);
    forall p | p in u.runs ensures u.runs[p].saved == s.runs[p].saved && u.runs[p].rows == s.runs[p].rows {
    }
  }

  lemma WriteKeepsSafe(env: Env, s: State, pid: nat, lost: bool)
    requires SafeInv(env, s) && pid in s.runs
    ensures SafeInv(env, WriteStep(env, s, pid, lost))
  {
    assert SavedFor(env, s.runs[pid].saved, s.runs[pid].rows);
    WriteKeepsFrames(env, s, pid, lost);
    WriteKeepsRuns(env, s, pid, lost);
    assert WriteStep(env, s, pid, lost).readers == s.readers;
  }

  lemma StartKeepsSafe(env: Env, s: State, pid: nat, run: Run)
    requires SafeInv(env, s) && SavedFor(env, run.saved, run.rows)
    ensures SafeInv(env, s.(runs := s.runs[pid := run]))
  {
  }

  lemma CrashKeepsSafe(env: Env, s: State, pid: nat)
    requires SafeInv(env, s)
    ensures SafeInv(env, s.(runs := s.runs - {pid}))
  {
  }

  lemma NextKeepsSafe(env: Env, solo: bool, s: State, step: Step)
    requires Good(env) && SafeInv(env, s)
    ensures SafeInv(env, Next(env, solo, s, step))
  {
    match step
    case Start(pid, run) =>
      if MayStart(env, solo, s, pid, run) {
        StartKeepsSafe(env, s, pid, run);
      }
    case Write(pid, lost) =>
      if pid in s.runs {
        WriteKeepsSafe(env, s, pid, lost);
      }
    case Crash(pid) => CrashKeepsSafe(env, s, pid);
    case Open(rid) =>
      if rid !in s.readers {
        ReadKeepsSafe(env, s, s.(readers := s.readers[rid := Opened]), rid);
      }
    case Read(rid) =>
      if rid in s.readers {
        ReaderStaysOk(env, s.store, s.readers[rid]);
        ReadKeepsSafe(env, s, s.(readers := s.readers[rid := ReadStep(env, s.store, s.readers[rid])]), rid);
      }
  }

  lemma ReadKeepsSafe(env: Env, s: State, u: State, rid: nat)
    requires SafeInv(env, s) && rid in u.readers && u == s.(readers := s.readers[rid := u.readers[rid]])
    requires ReaderOk(env, u.readers[rid])
    ensures SafeInv(env, u)
  {
  }

  lemma {:induction false} RunKeepsSafe(env: Env, solo: bool, s: State, steps: seq<Step>)
    requires Good(env) && SafeInv(env, s)
    ensures SafeInv(env, RunAll(env, solo, s, steps))
    decreases |steps|
  {
    if steps != [] {
      NextKeepsSafe(env, solo, s, steps[0]);
      RunKeepsSafe(env, solo, Next(env, solo, s, steps[0]), steps[1..]);
    }
  }

  /** A store on which no run and no reader is under way; sidecars of any age may lie about. */
  ghost predicate Quiet(env: Env, s: State) {
    s.runs == map[] && s.readers == map[] && FramesOk(env, s.store)
  }

  /** However many publishers overlap, a reader that succeeds returns the rows whose digest
      it read from the pointer, with the matrix and the index of exactly those rows. */
  lemma ReadersNeverMixRows(env: Env, solo: bool, s0: State, steps: seq<Step>, rid: nat, rows: Rows)
    requires Good(env) && Quiet(env, s0) && rows in env.corpora
    ensures var s := RunAll(env, solo, s0, steps);
            rid in s.readers && s.readers[rid].Loaded? && s.readers[rid].sha == env.sha(rows) ==>
              Serves(env, s.readers[rid].corpus, rows)
  {
    RunKeepsSafe(env, solo, s0, steps);
    var s := RunAll(env, solo, s0, steps);
    if rid in s.readers && s.readers[rid].Loaded? && s.readers[rid].sha == env.sha(rows) {
      assert ReaderOk(env, s.readers[rid]);
      var r :| FromDigest(env, s.readers[rid].sha, s.readers[rid].corpus, r);
      assert r == rows;
    }
  }

  // ---------------------------------------------------------------- one publisher

  /** What is under the version keys of a published version. */
  ghost predicate VersionOk(env: Env, s: State, v: nat) {
    && v in s.published && s.published[v] in env.corpora
    && ParquetKey(v) in s.store && s.store[ParquetKey(v)] == Parquet(s.published[v])
    && ManifestKey(v) in s.store && s.store[ManifestKey(v)].ManifestObj?
    && s.store[ManifestKey(v)].manifest.sha == env.sha(s.published[v])
    && s.store[ManifestKey(v)].manifest.chunkCount == |s.published[v]|
  }

  function Top(s: State): nat
    requires CurrentKey in s.store && s.store[CurrentKey].Pointer?
  {
    s.store[CurrentKey].version
  }

  ghost predicate PublishedOk(env: Env, s: State) {
    && CurrentKey in s.store && s.store[CurrentKey].Pointer?
    && Top(s) in s.published && s.store[CurrentKey].sha == env.sha(s.published[Top(s)])
    && (forall v :: v in s.published ==> v <= Top(s) && VersionOk(env, s, v))
  }

  /** The one run writes under the version after the current one, and what it has written
      so far is what it set out to write. */
  ghost predicate SoloRunOk(env: Env, s: State, run: Run)
    requires CurrentKey in s.store && s.store[CurrentKey].Pointer?
  {
    && run.version == Top(s) + 1
    && SavedFor(env, run.saved, run.rows)
    && run.manifest.sha == env.sha(run.rows) && run.manifest.chunkCount == |run.rows|
    && (run.stage > 0 ==> ParquetKey(run.version) in s.store && s.store[ParquetKey(run.version)] == Parquet(run.rows))
    && (run.stage > 1 ==>
         ManifestKey(run.version) in s.store && s.store[ManifestKey(run.version)] == ManifestObj(run.manifest))
  }

  ghost predicate SoloRunsOk(env: Env, s: State)
    requires CurrentKey in s.store && s.store[CurrentKey].Pointer?
  {
    && (forall p :: p in s.runs ==> SoloRunOk(env, s, s.runs[p]))
    && (forall p, q :: p in s.runs && q in s.runs ==> p == q)
  }

  /** A reader holds a published version, its digest and its rows. */
  ghost predicate SoloReaderOk(env: Env, s: State, r: Reader) {
    match r
    case Opened => true
    case GotPointer(v, sha) => v in s.published && sha == env.sha(s.published[v])
    case GotParquet(v, sha, rows) => v in s.published && rows == s.published[v] && sha == env.sha(rows)
    case Parsed(sha, c) =>
      && c.version in s.published && sha == env.sha(s.published[c.version])
      && Serves(env, c, s.published[c.version]) && c.prebuilt.None?
    case Loaded(sha, c) =>
      && c.version in s.published && sha == env.sha(s.published[c.version])
      && Serves(env, c, s.published[c.version])
    case Failed(why) => why == BadShape && exists v :: v in s.published && Decoded(s.published[v]).None?
  }

  ghost predicate SoloReadersOk(env: Env, s: State) {
    forall r :: r in s.readers ==> SoloReaderOk(env, s, s.readers[r])
  }

  ghost predicate SoloInv(env: Env, s: State) {
    FramesOk(env, s.store) && PublishedOk(env, s) && SoloRunsOk(env, s) && SoloReadersOk(env, s)
  }

  /** Published versions are never rewritten. */
  ghost predicate Extends(s: State, u: State) {
    forall v :: v in s.published ==> v in u.published && u.published[v] == s.published[v]
  }

  lemma SoloReaderStays(env: Env, s: State, u: State, r: Reader)
    requires SoloReaderOk(env, s, r) && Extends(s, u)
    ensures SoloReaderOk(env, u, r)
  {
    match r
    case Failed(_) =>
      var v :| v in s.published && Decoded(s.published[v]).None?;
      assert v in u.published && Decoded(u.published[v]).None?;
    case _ =>
  }

  lemma SoloReadPointer(env: Env, s: State)
    requires PublishedOk(env, s)
    ensures SoloReaderOk(env, s, ReadPointer(s.store))
  {
  }

  lemma SoloReadParquet(env: Env, s: State, v: nat, sha: bytes)
    requires PublishedOk(env, s) && SoloReaderOk(env, s, GotPointer(v, sha))
    ensures SoloReaderOk(env, s, ReadParquet(env, s.store, v, sha))
  {
    assert VersionOk(env, s, v);
  }

  lemma SoloParse(env: Env, s: State, r: Reader)
    requires Good(env) && FramesOk(env, s.store) && PublishedOk(env, s) && SoloReaderOk(env, s, r)
    requires r.GotParquet? || r.Parsed?
    ensures SoloReaderOk(env, s, ReadStep(env, s.store, r))
  {
    var v := if r.GotParquet? then r.version else r.corpus.version;
    assert VersionOk(env, s, v);
    ReadServes(env, s.store, r, s.published[v]);
  }

  lemma SoloRead(env: Env, s: State, r: Reader)
    requires Good(env) && FramesOk(env, s.store) && PublishedOk(env, s) && SoloReaderOk(env, s, r)
    ensures SoloReaderOk(env, s, ReadStep(env, s.store, r))
  {
    if r.Opened? {
      SoloReadPointer(env, s);
    } else if r.GotPointer? {
      SoloReadParquet(env, s, r.version, r.sha);
    } else if r.GotParquet? || r.Parsed? {
      SoloParse(env, s, r);
    }
  }

  /** Writes before the flip go to keys of an unpublished version. */
  lemma VersionUntouched(env: Env, s: State, u: State, v: nat, k: Key, o: Obj)
    requires VersionOk(env, s, v) && k != ParquetKey(v) && k != ManifestKey(v)
    requires u.store == s.store || u.store == s.store[k := o]
    requires Extends(s, u)
    ensures VersionOk(env, u, v)
  {
  }

  lemma SoloWritePublished(env: Env, s: State, pid: nat, lost: bool)
    requires PublishedOk(env, s) && SoloRunsOk(env, s) && pid in s.runs
    ensures PublishedOk(env, WriteStep(env, s, pid, lost)) && Extends(s, WriteStep(env, s, pid, lost))
  {
    var u, run := WriteStep(env, s, pid, lost), s.runs[pid];
    var o := WriteObj(env, run);
    assert SoloRunOk(env, s, run);
    assert run.version !in s.published;
    forall v | v in s.published ensures VersionOk(env, u, v) {
      assert VersionOk(env, s, v);
      if o.Some? {
        VersionUntouched(env, s, u, v, o.value.0, o.value.1);
      }
    }
    if run.stage >= 4 {
      assert VersionOk(env, u, run.version);
    }
  }

  lemma SoloWriteRuns(env: Env, s: State, pid: nat, lost: bool)
    requires PublishedOk(env, s) && SoloRunsOk(env, s) && pid in s.runs
    ensures var u := WriteStep(env, s, pid, lost);
            CurrentKey in u.store && u.store[CurrentKey].Pointer? && SoloRunsOk(env, u)
  {
    var u, run := WriteStep(env, s, pid, lost), s.runs[pid];
    assert SoloRunOk(env, s, run);
    if run.stage < 4 {
      assert SoloRunOk(env, u, u.runs[pid]);
    }
    forall p | p in u.runs ensures p == pid && run.stage < 4 {
      assert p in s.runs;
    }
  }

  lemma SoloReadersStay(env: Env, s: State, u: State)
    requires SoloReadersOk(env, s) && Extends(s, u) && u.readers == s.readers
    ensures SoloReadersOk(env, u)
  {
    forall r | r in u.readers ensures SoloReaderOk(env, u, u.readers[r]) {
      SoloReaderStays(env, s, u, s.readers[r]);
    }
  }

  /** A reader's step changes that reader only. */
  lemma SoloReaderMoves(env: Env, s: State, u: State, rid: nat)
    requires SoloInv(env, s) && rid in u.readers && u == s.(readers := s.readers[rid := u.readers[rid]])
    requires SoloReaderOk(env, s, u.readers[rid])
    ensures SoloInv(env, u) && Extends(s, u)
  {
    forall v | v in u.published ensures v <= Top(u) && VersionOk(env, u, v) {
      assert VersionOk(env, s, v);
    }
    forall p | p in u.runs ensures SoloRunOk(env, u, u.runs[p]) {
      assert SoloRunOk(env, s, s.runs[p]);
    }
    forall r | r in u.readers ensures SoloReaderOk(env, u, u.readers[r]) {
      SoloReaderStays(env, s, u, u.readers[r]);
    }
  }

  /** A run starts or crashes: the store stays. */
  lemma SoloRunsChange(env: Env, s: State, u: State)
    requires SoloInv(env, s) && u == s.(runs := u.runs)
    requires forall p :: p in u.runs ==> SoloRunOk(env, s, u.runs[p])
    requires forall p, q :: p in u.runs && q in u.runs ==> p == q
    ensures SoloInv(env, u) && Extends(s, u)
  {
    forall v | v in u.published ensures v <= Top(u) && VersionOk(env, u, v) {
      assert VersionOk(env, s, v);
    }
    forall p | p in u.runs ensures SoloRunOk(env, u, u.runs[p]) {
      assert SoloRunOk(env, s, u.runs[p]);
    }
    SoloReadersStay(env, s, u);
  }

  lemma SoloStart(env: Env, s: State, pid: nat, run: Run)
    requires SoloInv(env, s) && MayStart(env, true, s, pid, run)
    ensures SoloInv(env, s.(runs := s.runs[pid := run])) && Extends(s, s.(runs := s.runs[pid := run]))
  {
    assert s.runs[pid := run] == map[pid := run];
    SoloRunsChange(env, s, s.(runs := s.runs[pid := run]));
  }

  lemma SoloCrash(env: Env, s: State, pid: nat)
    requires SoloInv(env, s)
    ensures SoloInv(env, s.(runs := s.runs - {pid})) && Extends(s, s.(runs := s.runs - {pid}))
  {
    SoloRunsChange(env, s, s.(runs := s.runs - {pid}));
  }

  lemma SoloWrite(env: Env, s: State, pid: nat, lost: bool)
    requires SoloInv(env, s) && pid in s.runs
    ensures SoloInv(env, WriteStep(env, s, pid, lost)) && Extends(s, WriteStep(env, s, pid, lost))
  {
    assert SoloRunOk(env, s, s.runs[pid]);
    WriteKeepsFrames(env, s, pid, lost);
    SoloWritePublished(env, s, pid, lost);
    SoloWriteRuns(env, s, pid, lost);
    SoloReadersStay(env, s, WriteStep(env, s, pid, lost));
  }

  lemma SoloNext(env: Env, s: State, step: Step)
    requires Good(env) && SoloInv(env, s)
    ensures SoloInv(env, Next(env, true, s, step)) && Extends(s, Next(env, true, s, step))
  {
    match step
    case Start(pid, run) =>
      if MayStart(env, true, s, pid, run) {
        SoloStart(env, s, pid, run);
      }
    case Write(pid, lost) =>
      if pid in s.runs {
        SoloWrite(env, s, pid, lost);
      }
    case Crash(pid) => SoloCrash(env, s, pid);
    case Open(rid) =>
      if rid !in s.readers {
        SoloReaderMoves(env, s, s.(readers := s.readers[rid := Opened]), rid);
      }
    case Read(rid) =>
      if rid in s.readers {
        SoloRead(env, s, s.readers[rid]);
        SoloReaderMoves(env, s, s.(readers := s.readers[rid := ReadStep(env, s.store, s.readers[rid])]), rid);
      }
  }

  lemma {:induction false} SoloRuns(env: Env, s: State, steps: seq<Step>)
    requires Good(env) && SoloInv(env, s)
    ensures SoloInv(env, RunAll(env, true, s, steps)) && Extends(s, RunAll(env, true, s, steps))
    decreases |steps|
  {
    if steps != [] {
      SoloNext(env, s, steps[0]);
      SoloRuns(env, Next(env, true, s, steps[0]), steps[1..]);
    }
  }

  /** One published version is current, and nothing is under way. */
  ghost predicate SoloInit(env: Env, s: State) {
    Quiet(env, s) && PublishedOk(env, s)
  }

  /** The reader holds this version, or could not shape its vectors into a matrix. */
  ghost predicate Holds(s: State, rid: nat, v: nat) {
    && rid in s.readers && v in s.published
    && match s.readers[rid] {
         case Opened => false
         case GotPointer(w, _) => w == v
         case GotParquet(w, _, _) => w == v
         case Parsed(_, c) => c.version == v
         case Loaded(_, c) => c.version == v
         case Failed(why) => why == BadShape && Decoded(s.published[v]).None?
       }
  }

  lemma HoldsRead(env: Env, s: State, rid: nat, v: nat)
    requires Good(env) && SoloInv(env, s) && Holds(s, rid, v)
    ensures Holds(s.(readers := s.readers[rid := ReadStep(env, s.store, s.readers[rid])]), rid, v)
  {
    var r := s.readers[rid];
    assert VersionOk(env, s, v) && SoloReaderOk(env, s, r);
    match r
    case GotParquet(_, sha, rows) => ReadServes(env, s.store, r, rows);
    case Parsed(sha, c) => ReadServes(env, s.store, r, s.published[v]);
    case _ =>
  }

  lemma HoldsNext(env: Env, s: State, step: Step, rid: nat, v: nat)
    requires Good(env) && SoloInv(env, s) && Holds(s, rid, v)
    ensures Holds(Next(env, true, s, step), rid, v)
  {
    SoloNext(env, s, step);
    if step == Read(rid) {
      HoldsRead(env, s, rid, v);
    } else {
      OtherSteps(env, s, step, rid);
      HoldsKept(s, Next(env, true, s, step), rid, v);
    }
  }

  /** Only its own gets move a reader. */
  lemma OtherSteps(env: Env, s: State, step: Step, rid: nat)
    requires rid in s.readers && step != Read(rid)
    ensures rid in Next(env, true, s, step).readers && Next(env, true, s, step).readers[rid] == s.readers[rid]
  {
    if step.Write? && step.pid in s.runs {
      assert WriteStep(env, s, step.pid, step.lost).readers == s.readers;
    }
  }

  lemma HoldsKept(s: State, u: State, rid: nat, v: nat)
    requires Holds(s, rid, v) && Extends(s, u) && rid in u.readers && u.readers[rid] == s.readers[rid]
    ensures Holds(u, rid, v)
  {
  }

  lemma HoldsFirst(env: Env, s: State, rid: nat)
    requires PublishedOk(env, s) && rid in s.readers && s.readers[rid].Opened?
    ensures var t := Next(env, true, s, Read(rid));
            t.published == s.published && Holds(t, rid, Top(s)) && t.readers[rid].GotPointer?
  {
  }

  lemma HoldsLast(env: Env, u: State, rid: nat, v: nat)
    requires SoloInv(env, u) && Holds(u, rid, v)
    ensures u.readers[rid].Loaded? ==>
              u.readers[rid].corpus.version == v && Serves(env, u.readers[rid].corpus, u.published[v])
    ensures u.readers[rid].Failed? ==> u.readers[rid].why == BadShape && Decoded(u.published[v]).None?
  {
    assert SoloReaderOk(env, u, u.readers[rid]);
  }

  /** How many gets of this reader are among the steps. */
  function Gets(rid: nat, steps: seq<Step>): nat
    decreases |steps|
  {
    if steps == [] then 0 else (if steps[0] == Read(rid) then 1 else 0) + Gets(rid, steps[1..])
  }

  /** Where a reader stands `n` gets after its pointer read, by whether its vectors form a
      matrix. */
  predicate Stands(r: Reader, n: nat, shaped: bool) {
    if n == 0 then r.GotPointer?
    else if n == 1 then r.GotParquet?
    else if !shaped then r.Failed?
    else if n == 2 then r.Parsed? else r.Loaded?
  }

  ghost predicate Shaped(s: State, v: nat)
    requires v in s.published
  {
    Decoded(s.published[v]).Some?
  }

  lemma StandsRead(env: Env, s: State, rid: nat, v: nat, n: nat)
    requires Good(env) && SoloInv(env, s) && Holds(s, rid, v) && Stands(s.readers[rid], n, Shaped(s, v))
    ensures Stands(ReadStep(env, s.store, s.readers[rid]), n + 1, Shaped(s, v))
  {
    var r := s.readers[rid];
    assert VersionOk(env, s, v) && SoloReaderOk(env, s, r);
    if r.GotParquet? || r.Parsed? {
      ReadServes(env, s.store, r, s.published[v]);
    }
  }

  lemma StandsNext(env: Env, s: State, step: Step, rid: nat, v: nat, n: nat)
    requires Good(env) && SoloInv(env, s) && Holds(s, rid, v) && Stands(s.readers[rid], n, Shaped(s, v))
    ensures var u := Next(env, true, s, step);
            && Holds(u, rid, v) && Shaped(u, v) == Shaped(s, v)
            && Stands(u.readers[rid], if step == Read(rid) then n + 1 else n, Shaped(u, v))
  {
    HoldsNext(env, s, step, rid, v);
    SoloNext(env, s, step);
    if step == Read(rid) {
      StandsRead(env, s, rid, v, n);
    } else {
      OtherSteps(env, s, step, rid);
    }
  }

  lemma {:induction false} StandsRun(env: Env, s: State, steps: seq<Step>, rid: nat, v: nat, n: nat)
    requires Good(env) && SoloInv(env, s) && Holds(s, rid, v) && Stands(s.readers[rid], n, Shaped(s, v))
    ensures var u := RunAll(env, true, s, steps);
            && Holds(u, rid, v) && Shaped(u, v) == Shaped(s, v)
            && Stands(u.readers[rid], n + Gets(rid, steps), Shaped(u, v))
    decreases |steps|
  {
    if steps != [] {
      StandsNext(env, s, steps[0], rid, v, n);
      SoloNext(env, s, steps[0]);
      StandsRun(env, Next(env, true, s, steps[0]), steps[1..], rid, v,
                if steps[0] == Read(rid) then n + 1 else n);
    }
  }

  /** Where a reader ends that held version `v` `n` gets after its pointer read. */
  ghost predicate Ended(env: Env, r: Reader, rows: Rows, v: nat, n: nat) {
    && (r.Loaded? ==> r.corpus.version == v && Serves(env, r.corpus, rows))
    && (r.Failed? ==> r.why == BadShape)
    && (r.Loaded? <==> n >= 3 && Decoded(rows).Some?)
    && (r.Failed? <==> n >= 2 && Decoded(rows).None?)
  }

  lemma EndedFromStands(env: Env, u: State, rid: nat, v: nat, n: nat)
    requires SoloInv(env, u) && Holds(u, rid, v) && Stands(u.readers[rid], n, Shaped(u, v))
    ensures Ended(env, u.readers[rid], u.published[v], v, n)
  {
    HoldsLast(env, u, rid, v);
  }

  lemma ReaderEnds(env: Env, t: State, after: seq<Step>, rid: nat, v: nat)
    requires Good(env) && SoloInv(env, t) && Holds(t, rid, v) && t.readers[rid].GotPointer?
    ensures var u := RunAll(env, true, t, after);
            rid in u.readers && Ended(env, u.readers[rid], t.published[v], v, Gets(rid, after))
  {
    StandsRun(env, t, after, rid, v, 0);
    SoloRuns(env, t, after);
    EndedFromStands(env, RunAll(env, true, t, after), rid, v, Gets(rid, after));
  }

  lemma ReaderFromPointer(env: Env, s: State, after: seq<Step>, rid: nat)
    requires Good(env) && SoloInv(env, s) && rid in s.readers && s.readers[rid].Opened?
    ensures var u := RunAll(env, true, Next(env, true, s, Read(rid)), after);
            rid in u.readers && Ended(env, u.readers[rid], s.published[Top(s)], Top(s), Gets(rid, after))
  {
    SoloNext(env, s, Read(rid));
    HoldsFirst(env, s, rid);
    ReaderEnds(env, Next(env, true, s, Read(rid)), after, rid, Top(s));
  }

  /** With one publisher, however its writes, crashes and lost sidecars fall between the gets
      of a reader, the reader returns the rows of the version that was current when it read
      the pointer, with their matrix and index.  It never finds an object missing and never
      sees another digest; it fails exactly when the rows form no matrix at all, at the third
      of its gets, and otherwise has loaded after the fourth. */
  lemma ReadersGetTheCurrentVersion(env: Env, s0: State, before: seq<Step>, rid: nat, after: seq<Step>)
    requires Good(env) && SoloInit(env, s0)
    requires var s := RunAll(env, true, s0, before); rid in s.readers && s.readers[rid].Opened?
    ensures var s := RunAll(env, true, s0, before);
            var u := RunAll(env, true, Next(env, true, s, Read(rid)), after);
            && CurrentKey in s.store && s.store[CurrentKey].Pointer? && Top(s) in s.published
            && rid in u.readers && Ended(env, u.readers[rid], s.published[Top(s)], Top(s), Gets(rid, after))
  {
    SoloRuns(env, s0, before);
    ReaderFromPointer(env, RunAll(env, true, s0, before), after, rid);
  }

  /** Versions are never withdrawn or rewritten, and the current one never goes down. */
  lemma VersionsOnlyGrow(env: Env, s0: State, before: seq<Step>, after: seq<Step>)
    requires Good(env) && SoloInit(env, s0)
    ensures var s := RunAll(env, true, s0, before);
            var u := RunAll(env, true, s, after);
            && PublishedOk(env, s) && PublishedOk(env, u) && Extends(s, u) && Top(s) <= Top(u)
  {
    SoloRuns(env, s0, before);
    SoloRuns(env, RunAll(env, true, s0, before), after);
  }
}
