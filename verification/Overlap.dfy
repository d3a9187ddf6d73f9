/** Exactly when overlapping publishers make a reader raise, and what is left afterwards. */
module Overlap {
  import opened Options
  import opened Frames
  import opened Bm25
  import opened Artifact
  import opened Publishing

  // ---------------------------------------------------------------- clashes

  function Digest(env: Env, run: Run): bytes { env.sha(run.rows) }

  /** Whatever is, or is about to be put, under this version has this digest. */
  ghost predicate Only(env: Env, s: State, v: nat, d: bytes) {
    && (ParquetKey(v) in s.store && s.store[ParquetKey(v)].Parquet? ==> env.sha(s.store[ParquetKey(v)].rows) == d)
    && (forall p :: p in s.runs && s.runs[p].stage == 0 && s.runs[p].version == v ==> Digest(env, s.runs[p]) == d)
  }

  ghost predicate PointerAgrees(env: Env, s: State) {
    CurrentKey in s.store && s.store[CurrentKey].Pointer? ==>
      Only(env, s, s.store[CurrentKey].version, s.store[CurrentKey].sha)
  }

  ghost predicate ReadersAgree(env: Env, s: State) {
    forall r :: r in s.readers && s.readers[r].GotPointer? ==> Only(env, s, s.readers[r].version, s.readers[r].sha)
  }

  /** A run that has written its parquet still finds it, and nobody is about to replace it. */
  ghost predicate WrittenAgree(env: Env, s: State) {
    forall p :: p in s.runs && s.runs[p].stage > 0 ==> Only(env, s, s.runs[p].version, Digest(env, s.runs[p]))
  }

  /** Both are about to write the parquet of one version. */
  predicate SameTarget(p: Run, q: Run) { p.stage == 0 && q.stage == 0 && p.version == q.version }

  ghost predicate UnwrittenAgree(env: Env, s: State) {
    forall p, q :: p in s.runs && q in s.runs && SameTarget(s.runs[p], s.runs[q]) ==>
      Digest(env, s.runs[p]) == Digest(env, s.runs[q])
  }

  /** No digest that a reader has read, or may still read from the pointer, meets another
      one under its version. */
  ghost predicate NoClash(env: Env, s: State) {
    PointerAgrees(env, s) && ReadersAgree(env, s) && WrittenAgree(env, s) && UnwrittenAgree(env, s)
  }

  predicate Mismatched(r: Reader) { r == Failed(ShaMismatch) }

  predicate NoStart(steps: seq<Step>) {
    forall i :: 0 <= i < |steps| ==> !steps[i].Start?
  }

  /** Some reader raised the digest mismatch between `s` and `u`. */
  ghost predicate Raised(s: State, u: State) {
    exists r :: r in u.readers && Mismatched(u.readers[r]) && !(r in s.readers && Mismatched(s.readers[r]))
  }

  /** The publishers and readers under way can come to a mismatch. */
  ghost predicate CanRaise(env: Env, s: State) {
    exists steps :: NoStart(steps) && Raised(s, RunAll(env, false, s, steps))
  }

  // ---------------------------------------------------------------- without a clash

  lemma OnlyAfterWrite(env: Env, s: State, pid: nat, lost: bool, v: nat, d: bytes)
    requires pid in s.runs && Only(env, s, v, d)
    ensures Only(env, WriteStep(env, s, pid, lost), v, d)
  {
  }

  /** The parquet a run writes agrees with everybody's digest for its version. */
  lemma OnlyOwn(env: Env, s: State, pid: nat, lost: bool)
    requires pid in s.runs && s.runs[pid].stage == 0 && UnwrittenAgree(env, s)
    ensures Only(env, WriteStep(env, s, pid, lost), s.runs[pid].version, Digest(env, s.runs[pid]))
  {
  }

  lemma WriteKeepsRunsAgreed(env: Env, s: State, pid: nat, lost: bool)
    requires WrittenAgree(env, s) && UnwrittenAgree(env, s) && pid in s.runs
    ensures WrittenAgree(env, WriteStep(env, s, pid, lost)) && UnwrittenAgree(env, WriteStep(env, s, pid, lost))
  {
    var u := WriteStep(env, s, pid, lost);
    forall p | p in u.runs && u.runs[p].stage > 0 ensures Only(env, u, u.runs[p].version, Digest(env, u.runs[p])) {
      if p == pid && s.runs[pid].stage == 0 {
        OnlyOwn(env, s, pid, lost);
      } else {
        OnlyAfterWrite(env, s, pid, lost, s.runs[p].version, Digest(env, s.runs[p]));
      }
    }
    forall p | p in u.runs && u.runs[p].stage == 0 ensures p in s.runs && u.runs[p] == s.runs[p] {
    }
  }

  lemma WriteKeepsPointerAgreed(env: Env, s: State, pid: nat, lost: bool)
    requires PointerAgrees(env, s) && WrittenAgree(env, s) && pid in s.runs
    ensures PointerAgrees(env, WriteStep(env, s, pid, lost))
  {
    var u, run := WriteStep(env, s, pid, lost), s.runs[pid];
    if run.stage >= 4 {
      OnlyAfterWrite(env, s, pid, lost, run.version, Digest(env, run));
    } else if CurrentKey in s.store && s.store[CurrentKey].Pointer? {
      OnlyAfterWrite(env, s, pid, lost, s.store[CurrentKey].version, s.store[CurrentKey].sha);
    }
  }

  lemma WriteKeepsNoClash(env: Env, s: State, pid: nat, lost: bool)
    requires NoClash(env, s) && pid in s.runs
    ensures NoClash(env, WriteStep(env, s, pid, lost))
  {
    WriteKeepsRunsAgreed(env, s, pid, lost);
    WriteKeepsPointerAgreed(env, s, pid, lost);
    var u := WriteStep(env, s, pid, lost);
    forall r | r in u.readers && u.readers[r].GotPointer? ensures Only(env, u, u.readers[r].version, u.readers[r].sha) {
      OnlyAfterWrite(env, s, pid, lost, s.readers[r].version, s.readers[r].sha);
    }
  }

  /** Fewer runs, the same store: nothing new can clash. */
  lemma CrashKeepsNoClash(env: Env, s: State, pid: nat)
    requires NoClash(env, s)
    ensures NoClash(env, s.(runs := s.runs - {pid}))
  {
    var u := s.(runs := s.runs - {pid});
    forall v, d | Only(env, s, v, d) ensures Only(env, u, v, d) {
    }
  }

  lemma ReaderKeepsNoClash(env: Env, s: State, rid: nat, r: Reader)
    requires NoClash(env, s)
    requires r.GotPointer? ==> Only(env, s, r.version, r.sha)
    ensures NoClash(env, s.(readers := s.readers[rid := r]))
  {
    var u := s.(readers := s.readers[rid := r]);
    forall v, d | Only(env, s, v, d) ensures Only(env, u, v, d) {
    }
  }

  /** Without a clash a get never meets a foreign digest. */
  lemma ReadAgrees(env: Env, s: State, r: Reader)
    requires PointerAgrees(env, s) && (r.GotPointer? ==> Only(env, s, r.version, r.sha))
    ensures var u := ReadStep(env, s.store, r);
            (u.GotPointer? ==> Only(env, s, u.version, u.sha)) && (Mismatched(u) ==> Mismatched(r))
  {
  }

  lemma NextKeepsNoClash(env: Env, solo: bool, s: State, step: Step)
    requires NoClash(env, s) && !step.Start?
    ensures NoClash(env, Next(env, solo, s, step)) && !Raised(s, Next(env, solo, s, step))
  {
    match step
    case Write(pid, lost) =>
      if pid in s.runs {
        WriteKeepsNoClash(env, s, pid, lost);
      }
    case Crash(pid) => CrashKeepsNoClash(env, s, pid);
    case Open(rid) =>
      if rid !in s.readers {
        ReaderKeepsNoClash(env, s, rid, Opened);
      }
    case Read(rid) =>
      if rid in s.readers {
        ReadAgrees(env, s, s.readers[rid]);
        ReaderKeepsNoClash(env, s, rid, ReadStep(env, s.store, s.readers[rid]));
      }
  }

  lemma RaisedTransitive(s: State, u: State, v: State)
    requires !Raised(s, u) && !Raised(u, v)
    ensures !Raised(s, v)
  {
    forall r | r in v.readers && Mismatched(v.readers[r]) ensures r in s.readers && Mismatched(s.readers[r]) {
      assert r in u.readers && Mismatched(u.readers[r]);
    }
  }

  lemma {:induction false} NoClashNeverRaises(env: Env, s: State, steps: seq<Step>)
    requires NoClash(env, s) && NoStart(steps)
    ensures NoClash(env, RunAll(env, false, s, steps)) && !Raised(s, RunAll(env, false, s, steps))
    decreases |steps|
  {
    if steps != [] {
      var t := Next(env, false, s, steps[0]);
      NextKeepsNoClash(env, false, s, steps[0]);
      NoClashNeverRaises(env, t, steps[1..]);
      RaisedTransitive(s, t, RunAll(env, false, t, steps[1..]));
    }
  }

  // ---------------------------------------------------------------- from a clash to a mismatch

  /** The current digest is not that of the object under the current version. */
  ghost predicate Broken(env: Env, s: State) {
    && CurrentKey in s.store && s.store[CurrentKey].Pointer?
    && ParquetKey(s.store[CurrentKey].version) in s.store && s.store[ParquetKey(s.store[CurrentKey].version)].Parquet?
    && env.sha(s.store[ParquetKey(s.store[CurrentKey].version)].rows) != s.store[CurrentKey].sha
  }

  ghost predicate CanBreak(env: Env, s: State) {
    exists steps :: NoStart(steps) && Broken(env, RunAll(env, false, s, steps))
  }

  lemma RunAllFirst(env: Env, solo: bool, s: State, a: Step, rest: seq<Step>)
    ensures RunAll(env, solo, s, [a] + rest) == RunAll(env, solo, Next(env, solo, s, a), rest)
  {
    var q := [a] + rest;
    assert q[0] == a && q[1..] == rest;
  }

  /** A reader that failed stays failed. */
  lemma NextKeepsMismatch(env: Env, s: State, step: Step, r: nat)
    requires r in s.readers && Mismatched(s.readers[r])
    ensures r in Next(env, false, s, step).readers && Mismatched(Next(env, false, s, step).readers[r])
  {
    if step.Write? && step.pid in s.runs {
      assert WriteStep(env, s, step.pid, step.lost).readers == s.readers;
    }
  }

  lemma RaiseLater(env: Env, s: State, step: Step)
    requires !step.Start? && CanRaise(env, Next(env, false, s, step))
    ensures CanRaise(env, s)
  {
    var t := Next(env, false, s, step);
    var steps :| NoStart(steps) && Raised(t, RunAll(env, false, t, steps));
    RunAllFirst(env, false, s, step, steps);
    var u := RunAll(env, false, t, steps);
    var r :| r in u.readers && Mismatched(u.readers[r]) && !(r in t.readers && Mismatched(t.readers[r]));
    if r in s.readers && Mismatched(s.readers[r]) {
      NextKeepsMismatch(env, s, step, r);
    }
    assert Raised(s, RunAll(env, false, s, [step] + steps));
    assert NoStart([step] + steps);
  }

  lemma RaiseNow(env: Env, s: State, rid: nat)
    requires rid in s.readers && s.readers[rid].GotPointer?
    requires Mismatched(ReadStep(env, s.store, s.readers[rid]))
    ensures CanRaise(env, s)
  {
    RunAllFirst(env, false, s, Read(rid), []);
    assert [Read(rid)] + [] == [Read(rid)];
    assert NoStart([Read(rid)]);
    var u := Next(env, false, s, Read(rid));
    assert rid in u.readers && Mismatched(u.readers[rid]);
    assert Raised(s, RunAll(env, false, s, [Read(rid)]));
  }

  lemma BreakLater(env: Env, s: State, step: Step)
    requires !step.Start? && CanBreak(env, Next(env, false, s, step))
    ensures CanBreak(env, s)
  {
    var t := Next(env, false, s, step);
    var steps :| NoStart(steps) && Broken(env, RunAll(env, false, t, steps));
    RunAllFirst(env, false, s, step, steps);
    assert NoStart([step] + steps);
  }

  lemma BreakNow(env: Env, s: State)
    requires Broken(env, s)
    ensures CanBreak(env, s)
  {
    var none: seq<Step> := [];
    assert NoStart(none) && RunAll(env, false, s, none) == s;
  }

  lemma {:induction false} FreshId(ids: set<nat>) returns (n: nat)
    ensures n !in ids && forall i :: i in ids ==> i < n
    decreases |ids|
  {
    if ids == {} {
      n := 0;
    } else {
      var i: nat :| i in ids;
      var m := FreshId(ids - {i});
      n := if m <= i then i + 1 else m;
      forall j | j in ids ensures j < n {
        assert j == i || j in ids - {i};
      }
    }
  }

  /** A load that begins now raises. */
  lemma BrokenRaises(env: Env, s: State)
    requires Broken(env, s)
    ensures CanRaise(env, s)
  {
    var rid := FreshId(s.readers.Keys);
    var s1 := Next(env, false, s, Open(rid));
    var s2 := Next(env, false, s1, Read(rid));
    assert s1.store == s.store && s1.readers[rid] == Opened;
    assert s2.store == s.store && s2.readers[rid] == GotPointer(s.store[CurrentKey].version, s.store[CurrentKey].sha);
    RaiseNow(env, s2, rid);
    RaiseLater(env, s1, Read(rid));
    RaiseLater(env, s, Open(rid));
  }

  lemma {:induction false} CanBreakRaises(env: Env, s: State, steps: seq<Step>)
    requires NoStart(steps) && Broken(env, RunAll(env, false, s, steps))
    ensures CanRaise(env, s)
    decreases |steps|
  {
    if steps == [] {
      BrokenRaises(env, s);
    } else {
      CanBreakRaises(env, Next(env, false, s, steps[0]), steps[1..]);
      RaiseLater(env, s, steps[0]);
    }
  }

  /** The writes of a run that has written its parquet leave that object alone and end with
      the flip. */
  lemma {:induction false} FinishBreaks(env: Env, s: State, p: nat)
    requires p in s.runs && s.runs[p].stage > 0
    requires ParquetKey(s.runs[p].version) in s.store && s.store[ParquetKey(s.runs[p].version)].Parquet?
    requires env.sha(s.store[ParquetKey(s.runs[p].version)].rows) != Digest(env, s.runs[p])
    ensures CanBreak(env, s)
    decreases 5 - s.runs[p].stage
  {
    var u := Next(env, false, s, Write(p, false));
    if s.runs[p].stage >= 4 {
      BreakNow(env, u);
    } else {
      FinishBreaks(env, u, p);
    }
    BreakLater(env, s, Write(p, false));
  }

  /** A run about to write its parquet under a version that another run has written with
      another digest. */
  lemma ReplaceBreaks(env: Env, s: State, p: nat, q: nat)
    requires p in s.runs && q in s.runs && s.runs[p].stage > 0 && s.runs[q].stage == 0
    requires s.runs[p].version == s.runs[q].version && Digest(env, s.runs[p]) != Digest(env, s.runs[q])
    ensures CanBreak(env, s)
  {
    var u := Next(env, false, s, Write(q, false));
    assert u.store[ParquetKey(s.runs[q].version)] == Parquet(s.runs[q].rows);
    assert u.runs[p] == s.runs[p];
    FinishBreaks(env, u, p);
    BreakLater(env, s, Write(q, false));
  }

  lemma BothUnwrittenBreaks(env: Env, s: State, p: nat, q: nat)
    requires p in s.runs && q in s.runs && s.runs[p].stage == 0 && s.runs[q].stage == 0
    requires s.runs[p].version == s.runs[q].version && Digest(env, s.runs[p]) != Digest(env, s.runs[q])
    ensures CanBreak(env, s)
  {
    var u := Next(env, false, s, Write(p, false));
    assert p in u.runs && u.runs[p].stage == 1 && u.runs[q] == s.runs[q];
    ReplaceBreaks(env, u, p, q);
    BreakLater(env, s, Write(p, false));
  }

  lemma BothWrittenBreaks(env: Env, s: State, p: nat, q: nat)
    requires p in s.runs && q in s.runs && s.runs[p].stage > 0 && s.runs[q].stage > 0
    requires s.runs[p].version == s.runs[q].version && Digest(env, s.runs[p]) != Digest(env, s.runs[q])
    requires ParquetKey(s.runs[p].version) in s.store && s.store[ParquetKey(s.runs[p].version)].Parquet?
    ensures CanBreak(env, s)
  {
    if env.sha(s.store[ParquetKey(s.runs[p].version)].rows) != Digest(env, s.runs[p]) {
      FinishBreaks(env, s, p);
    } else {
      FinishBreaks(env, s, q);
    }
  }

  /** Two runs at one version with different digests break the pointer from every pair of
      stages. */
  lemma TwoRunsBreak(env: Env, s: State, p: nat, q: nat)
    requires p in s.runs && q in s.runs && s.runs[p].version == s.runs[q].version
    requires Digest(env, s.runs[p]) != Digest(env, s.runs[q])
    requires s.runs[p].stage > 0 ==>
               ParquetKey(s.runs[p].version) in s.store && s.store[ParquetKey(s.runs[p].version)].Parquet?
    ensures CanBreak(env, s)
  {
    if s.runs[p].stage == 0 && s.runs[q].stage == 0 {
      BothUnwrittenBreaks(env, s, p, q);
    } else if s.runs[p].stage == 0 {
      ReplaceBreaks(env, s, q, p);
    } else if s.runs[q].stage == 0 {
      ReplaceBreaks(env, s, p, q);
    } else {
      BothWrittenBreaks(env, s, p, q);
    }
  }

  lemma WrittenClashBreaks(env: Env, s: State, p: nat)
    requires p in s.runs && s.runs[p].stage > 0 && !Only(env, s, s.runs[p].version, Digest(env, s.runs[p]))
    ensures CanBreak(env, s)
  {
    var v, d := s.runs[p].version, Digest(env, s.runs[p]);
    if ParquetKey(v) in s.store && s.store[ParquetKey(v)].Parquet? && env.sha(s.store[ParquetKey(v)].rows) != d {
      FinishBreaks(env, s, p);
    } else {
      var q :| q in s.runs && s.runs[q].stage == 0 && s.runs[q].version == v && Digest(env, s.runs[q]) != d;
      ReplaceBreaks(env, s, p, q);
    }
  }

  lemma PointerClashBreaks(env: Env, s: State)
    requires !PointerAgrees(env, s)
    ensures CanBreak(env, s)
  {
    var v, d := s.store[CurrentKey].version, s.store[CurrentKey].sha;
    if ParquetKey(v) in s.store && s.store[ParquetKey(v)].Parquet? && env.sha(s.store[ParquetKey(v)].rows) != d {
      BreakNow(env, s);
    } else {
      var q :| q in s.runs && s.runs[q].stage == 0 && s.runs[q].version == v && Digest(env, s.runs[q]) != d;
      BreakNow(env, Next(env, false, s, Write(q, false)));
      BreakLater(env, s, Write(q, false));
    }
  }

  lemma ReaderClashRaises(env: Env, s: State, rid: nat)
    requires rid in s.readers && s.readers[rid].GotPointer?
    requires !Only(env, s, s.readers[rid].version, s.readers[rid].sha)
    ensures CanRaise(env, s)
  {
    var v, d := s.readers[rid].version, s.readers[rid].sha;
    if ParquetKey(v) in s.store && s.store[ParquetKey(v)].Parquet? && env.sha(s.store[ParquetKey(v)].rows) != d {
      RaiseNow(env, s, rid);
    } else {
      var q :| q in s.runs && s.runs[q].stage == 0 && s.runs[q].version == v && Digest(env, s.runs[q]) != d;
      RaiseNow(env, Next(env, false, s, Write(q, false)), rid);
      RaiseLater(env, s, Write(q, false));
    }
  }

  /** The exact condition: what is under way can make a reader raise the digest mismatch if
      and only if a digest that is wanted under some version meets another one there. */
  lemma RaisesExactlyWhenClash(env: Env, s: State)
    ensures CanRaise(env, s) <==> !NoClash(env, s)
  {
    if NoClash(env, s) {
      forall steps | NoStart(steps) ensures !Raised(s, RunAll(env, false, s, steps)) {
        NoClashNeverRaises(env, s, steps);
      }
    } else if !ReadersAgree(env, s) {
      var r :| r in s.readers && s.readers[r].GotPointer? && !Only(env, s, s.readers[r].version, s.readers[r].sha);
      ReaderClashRaises(env, s, r);
    } else {
      ClashBreaks(env, s);
      var steps :| NoStart(steps) && Broken(env, RunAll(env, false, s, steps));
      CanBreakRaises(env, s, steps);
    }
  }

  lemma ClashBreaks(env: Env, s: State)
    requires !PointerAgrees(env, s) || !WrittenAgree(env, s) || !UnwrittenAgree(env, s)
    ensures CanBreak(env, s)
  {
    if !PointerAgrees(env, s) {
      PointerClashBreaks(env, s);
    } else if !WrittenAgree(env, s) {
      var p :| p in s.runs && s.runs[p].stage > 0 && !Only(env, s, s.runs[p].version, Digest(env, s.runs[p]));
      WrittenClashBreaks(env, s, p);
    } else {
      var p, q :| p in s.runs && q in s.runs && SameTarget(s.runs[p], s.runs[q])
                  && Digest(env, s.runs[p]) != Digest(env, s.runs[q]);
      BothUnwrittenBreaks(env, s, p, q);
    }
  }

  // ---------------------------------------------------------------- at the start of a run

  /** Everyone who wants the version of this run, and every run at it, has its digest. */
  ghost predicate Compatible(env: Env, s: State, run: Run) {
    && (CurrentKey in s.store && s.store[CurrentKey].Pointer? && s.store[CurrentKey].version == run.version ==>
         s.store[CurrentKey].sha == Digest(env, run))
    && (forall r :: r in s.readers && s.readers[r].GotPointer? && s.readers[r].version == run.version ==>
         s.readers[r].sha == Digest(env, run))
    && (forall p :: p in s.runs && s.runs[p].version == run.version ==> Digest(env, s.runs[p]) == Digest(env, run))
  }

  lemma OnlyWithRun(env: Env, s: State, pid: nat, run: Run, v: nat, d: bytes)
    requires pid !in s.runs && run.stage == 0
    ensures Only(env, s.(runs := s.runs[pid := run]), v, d)
            <==> Only(env, s, v, d) && (run.version == v ==> Digest(env, run) == d)
  {
    var u := s.(runs := s.runs[pid := run]);
    assert pid in u.runs && u.runs[pid] == run;
    forall p | p in s.runs ensures p in u.runs && u.runs[p] == s.runs[p] {
    }
  }

  /** Starting a run introduces a clash exactly when it is not compatible: the check a
      publisher could make before its first write. */
  lemma StartClashesExactlyWhen(env: Env, s: State, pid: nat, run: Run)
    requires NoClash(env, s) && MayStart(env, false, s, pid, run)
    ensures NoClash(env, Next(env, false, s, Start(pid, run))) <==> Compatible(env, s, run)
  {
    var u := s.(runs := s.runs[pid := run]);
    assert Next(env, false, s, Start(pid, run)) == u;
    forall v, d ensures Only(env, u, v, d) <==> Only(env, s, v, d) && (run.version == v ==> Digest(env, run) == d) {
      OnlyWithRun(env, s, pid, run, v, d);
    }
    assert pid in u.runs && u.runs[pid] == run;
    forall p | p in s.runs ensures p in u.runs && u.runs[p] == s.runs[p] {
    }
    if Compatible(env, s, run) {
      StartAgrees(env, s, u, pid, run);
    } else if NoClash(env, u) {
      StartedCompatible(env, s, u, pid, run);
    }
  }

  lemma StartAgrees(env: Env, s: State, u: State, pid: nat, run: Run)
    requires NoClash(env, s) && Compatible(env, s, run) && run.stage == 0 && u == s.(runs := s.runs[pid := run])
    requires forall v, d :: Only(env, u, v, d) <==> Only(env, s, v, d) && (run.version == v ==> Digest(env, run) == d)
    ensures NoClash(env, u)
  {
  }

  lemma StartedCompatible(env: Env, s: State, u: State, pid: nat, run: Run)
    requires NoClash(env, u) && run.stage == 0 && pid !in s.runs && u == s.(runs := s.runs[pid := run])
    requires forall v, d :: Only(env, u, v, d) <==> Only(env, s, v, d) && (run.version == v ==> Digest(env, run) == d)
    ensures Compatible(env, s, run)
  {
    forall p | p in s.runs && s.runs[p].version == run.version
      ensures Digest(env, s.runs[p]) == Digest(env, run)
    {
      assert p in u.runs && u.runs[p] == s.runs[p] && u.runs[pid] == run;
    }
  }

  /** Every run that starts is compatible at its start. */
  ghost predicate AllCompatible(env: Env, s: State, steps: seq<Step>)
    decreases |steps|
  {
    steps == []
    || (&& (steps[0].Start? && MayStart(env, false, s, steps[0].pid, steps[0].run) ==> Compatible(env, s, steps[0].run))
        && AllCompatible(env, Next(env, false, s, steps[0]), steps[1..]))
  }

  lemma NextCompatible(env: Env, s: State, step: Step)
    requires NoClash(env, s)
    requires step.Start? && MayStart(env, false, s, step.pid, step.run) ==> Compatible(env, s, step.run)
    ensures NoClash(env, Next(env, false, s, step)) && !Raised(s, Next(env, false, s, step))
  {
    if step.Start? {
      if MayStart(env, false, s, step.pid, step.run) {
        StartClashesExactlyWhen(env, s, step.pid, step.run);
      }
      assert Next(env, false, s, step).readers == s.readers;
    } else {
      NextKeepsNoClash(env, false, s, step);
    }
  }

  /** With any number of overlapping publishers no reader ever raises, as long as every run
      is compatible when it starts; an incompatible start can make one raise. */
  lemma {:induction false} CompatibleRunsNeverRaise(env: Env, s: State, steps: seq<Step>)
    requires NoClash(env, s) && AllCompatible(env, s, steps)
    ensures NoClash(env, RunAll(env, false, s, steps)) && !Raised(s, RunAll(env, false, s, steps))
    decreases |steps|
  {
    if steps != [] {
      var t := Next(env, false, s, steps[0]);
      NextCompatible(env, s, steps[0]);
      CompatibleRunsNeverRaise(env, t, steps[1..]);
      RaisedTransitive(s, t, RunAll(env, false, t, steps[1..]));
    }
  }

  lemma IncompatibleStartCanRaise(env: Env, s: State, pid: nat, run: Run)
    requires NoClash(env, s) && MayStart(env, false, s, pid, run)
    ensures CanRaise(env, Next(env, false, s, Start(pid, run))) <==> !Compatible(env, s, run)
  {
    StartClashesExactlyWhen(env, s, pid, run);
    RaisesExactlyWhenClash(env, Next(env, false, s, Start(pid, run)));
  }

  /** One publisher never clashes. */
  lemma SoloNeverClashes(env: Env, s: State)
    requires SoloInv(env, s)
    ensures NoClash(env, s)
  {
    forall v | v in s.published ensures Only(env, s, v, env.sha(s.published[v])) {
      assert VersionOk(env, s, v);
      forall p | p in s.runs ensures s.runs[p].version != v {
        assert SoloRunOk(env, s, s.runs[p]);
      }
    }
    forall r | r in s.readers && s.readers[r].GotPointer? ensures Only(env, s, s.readers[r].version, s.readers[r].sha) {
      assert SoloReaderOk(env, s, s.readers[r]);
    }
    forall p | p in s.runs && s.runs[p].stage > 0
      ensures Only(env, s, s.runs[p].version, Digest(env, s.runs[p]))
    {
      assert SoloRunOk(env, s, s.runs[p]);
    }
  }

  // ---------------------------------------------------------------- what is left

  lemma NextStaysBroken(env: Env, s: State, step: Step)
    requires Abandoned(env, s) && !step.Start?
    ensures Next(env, false, s, step).store == s.store && Next(env, false, s, step).runs == map[]
  {
  }

  /** Broken with nobody left to repair it. */
  ghost predicate Abandoned(env: Env, s: State) { Broken(env, s) && s.runs == map[] }

  ghost predicate CanLast(env: Env, s: State) {
    exists steps :: NoStart(steps) && Abandoned(env, RunAll(env, false, s, steps))
  }

  lemma LastLater(env: Env, s: State, step: Step)
    requires !step.Start? && CanLast(env, Next(env, false, s, step))
    ensures CanLast(env, s)
  {
    var t := Next(env, false, s, step);
    var steps :| NoStart(steps) && Abandoned(env, RunAll(env, false, t, steps));
    RunAllFirst(env, false, s, step, steps);
    assert NoStart([step] + steps);
  }

  /** The publishers may all crash. */
  lemma {:induction false} CrashAll(env: Env, s: State)
    requires Broken(env, s)
    ensures CanLast(env, s)
    decreases |s.runs|
  {
    if s.runs == map[] {
      var none: seq<Step> := [];
      assert NoStart(none) && RunAll(env, false, s, none) == s;
    } else {
      var p :| p in s.runs;
      var u := s.runs - {p};
      assert u.Keys == s.runs.Keys - {p};
      CrashAll(env, Next(env, false, s, Crash(p)));
      LastLater(env, s, Crash(p));
    }
  }

  lemma {:induction false} BreakLasts(env: Env, s: State, steps: seq<Step>)
    requires NoStart(steps) && Broken(env, RunAll(env, false, s, steps))
    ensures CanLast(env, s)
    decreases |steps|
  {
    if steps == [] {
      CrashAll(env, s);
    } else {
      BreakLasts(env, Next(env, false, s, steps[0]), steps[1..]);
      LastLater(env, s, steps[0]);
    }
  }

  /** The failure lasts: once the publishers are gone, every later load raises, or has not
      come to its second get.  An ingest run begins with a load, so none begins. */
  lemma {:induction false} BrokenForever(env: Env, s: State, steps: seq<Step>, rid: nat)
    requires Abandoned(env, s) && NoStart(steps)
    requires rid in s.readers ==> BeforeSecondGet(s, s.readers[rid]) || Mismatched(s.readers[rid])
    ensures var u := RunAll(env, false, s, steps);
            && u.store == s.store
            && (rid in u.readers ==> BeforeSecondGet(s, u.readers[rid]) || Mismatched(u.readers[rid]))
    decreases |steps|
  {
    if steps != [] {
      NextStaysBroken(env, s, steps[0]);
      BrokenForever(env, Next(env, false, s, steps[0]), steps[1..], rid);
    }
  }

  predicate BeforeSecondGet(s: State, r: Reader) {
    r.Opened? || (CurrentKey in s.store && s.store[CurrentKey].Pointer?
                  && r == GotPointer(s.store[CurrentKey].version, s.store[CurrentKey].sha))
  }

  // ---------------------------------------------------------------- a deployment

  function SampleDigest(k: nat): (d: bytes)
    requires k < 256
    ensures |d| == 64 && d[0] == k
  {
    seq(64, _ => k)
  }

  /** Two one-row corpora. */
  function SampleRows(k: nat): (rows: Rows)
    requires k < 256
    ensures |rows| == 1
  {
    [Row("a_0000", Some("x"), [k], Meta("a", k, "2026-01-01", {}))]
  }

  function SampleSaved(k: nat): Saved
    requires k < 256
  {
    Saved(INDEX_FORMAT, None, Index(K1, B, 0, 0.0, map[], [], []), SampleDigest(k), 1)
  }

  function SampleEnv(): Env {
    Env(Zip((b: bytes) => b, (b: bytes, n: nat) => Some(b)), (x: real) => x - 1.0,
        (r: Rows) => if r == SampleRows(1) then SampleDigest(1) else SampleDigest(2), (x: Saved) => x.sha,
        (b: bytes) => if b == SampleDigest(1) then Some(SampleSaved(1)) else Some(SampleSaved(2)),
        None, {SampleRows(1), SampleRows(2)}, {SampleSaved(1), SampleSaved(2)})
  }

  lemma SampleIsGood()
    ensures Good(SampleEnv())
    ensures SampleRows(1) != SampleRows(2) && SampleDigest(1) != SampleDigest(2)
  {
    assert SampleRows(1)[0].embedding[0] == 1 && SampleRows(2)[0].embedding[0] == 2;
    assert SampleDigest(1)[0] == 1 && SampleDigest(2)[0] == 2;
  }

  function SampleState(): State {
    State(map[ParquetKey(1) := Parquet(SampleRows(1)),
              ManifestKey(1) := ManifestObj(Manifest("m", 1, 1, SampleDigest(1))),
              CurrentKey := Pointer(1, SampleDigest(1))],
          map[], map[], map[1 := SampleRows(1)])
  }

  lemma SampleFrames()
    ensures FramesOk(SampleEnv(), SampleState().store)
  {
    forall k | k in SampleState().store ensures FrameOk(SampleEnv(), k, SampleState().store[k]) {
      assert k == ParquetKey(1) || k == ManifestKey(1) || k == CurrentKey;
    }
  }

  lemma SamplePublished()
    ensures PublishedOk(SampleEnv(), SampleState())
  {
    assert VersionOk(SampleEnv(), SampleState(), 1);
  }

  lemma SampleStarts()
    ensures SoloInit(SampleEnv(), SampleState())
  {
    SampleFrames();
    SamplePublished();
  }

  function SampleRun(k: nat): Run
    requires k < 256
  {
    Run(2, SampleRows(k), Manifest("m", 1, 1, SampleDigest(k)), SampleSaved(k), 0)
  }

  lemma SampleMayStart(k: nat, s: State, pid: nat, solo: bool)
    requires (k == 1 || k == 2) && pid !in s.runs
    requires solo ==> s == SampleState()
    ensures MayStart(SampleEnv(), solo, s, pid, SampleRun(k))
  {
    SampleIsGood();
  }

  /** A run under way can publish. */
  lemma {:induction false} RunCanFinish(env: Env, solo: bool, s: State, p: nat)
    requires p in s.runs
    ensures exists steps :: NoStart(steps)
              && var u := RunAll(env, solo, s, steps);
                 CurrentKey in u.store && u.store[CurrentKey] == Pointer(s.runs[p].version, Digest(env, s.runs[p]))
    decreases 5 - s.runs[p].stage
  {
    var v, d := s.runs[p].version, Digest(env, s.runs[p]);
    var u := Next(env, solo, s, Write(p, false));
    var steps: seq<Step> := [];
    if s.runs[p].stage >= 4 {
      assert RunAll(env, solo, u, steps) == u;
    } else {
      RunCanFinish(env, solo, u, p);
      steps :| NoStart(steps)
               && CurrentKey in RunAll(env, solo, u, steps).store
               && RunAll(env, solo, u, steps).store[CurrentKey] == Pointer(v, d);
    }
    RunAllFirst(env, solo, s, Write(p, false), steps);
    assert NoStart([Write(p, false)] + steps);
  }

  /** Version 2 is published. */
  ghost predicate AtTwo(s: State) {
    CurrentKey in s.store && s.store[CurrentKey].Pointer? && Top(s) == 2
  }

  lemma SamplePublishes() returns (steps: seq<Step>)
    ensures AtTwo(RunAll(SampleEnv(), true, SampleState(), steps))
  {
    var env, s := SampleEnv(), SampleState();
    SampleMayStart(2, s, 0, true);
    var t := Next(env, true, s, Start(0, SampleRun(2)));
    assert 0 in t.runs && t.runs[0] == SampleRun(2);
    RunCanFinish(env, true, t, 0);
    var rest :| NoStart(rest)
                && CurrentKey in RunAll(env, true, t, rest).store
                && RunAll(env, true, t, rest).store[CurrentKey] == Pointer(2, Digest(env, SampleRun(2)));
    steps := [Start(0, SampleRun(2))] + rest;
    RunAllFirst(env, true, s, Start(0, SampleRun(2)), rest);
  }

  /** The assumptions are consistent: an environment that meets them with two corpora, a
      deployment with one publisher, and a run of it that publishes the second corpus. */
  lemma AssumptionsCanHold()
    ensures exists env: Env, s: State, steps: seq<Step> ::
              Good(env) && SoloInit(env, s) && AtTwo(RunAll(env, true, s, steps))
  {
    SampleIsGood();
    SampleStarts();
    var steps := SamplePublishes();
    assert AtTwo(RunAll(SampleEnv(), true, SampleState(), steps));
  }

  lemma SampleBreaks() returns (steps: seq<Step>)
    ensures Abandoned(SampleEnv(), RunAll(SampleEnv(), false, SampleState(), steps))
  {
    var env, s := SampleEnv(), SampleState();
    var one, two := Start(0, SampleRun(1)), Start(1, SampleRun(2));
    SampleMayStart(1, s, 0, false);
    var t := Next(env, false, s, one);
    assert t.runs == map[0 := SampleRun(1)];
    SampleMayStart(2, t, 1, false);
    var u := Next(env, false, t, two);
    SampleClash(u);
    var rest :| NoStart(rest) && Abandoned(env, RunAll(env, false, u, rest));
    steps := [one] + ([two] + rest);
    RunAllFirst(env, false, t, two, rest);
    RunAllFirst(env, false, s, one, [two] + rest);
  }

  lemma SampleClash(u: State)
    requires 0 in u.runs && 1 in u.runs && u.runs[0] == SampleRun(1) && u.runs[1] == SampleRun(2)
    ensures CanLast(SampleEnv(), u)
  {
    SampleIsGood();
    TwoRunsBreak(SampleEnv(), u, 0, 1);
    var steps :| NoStart(steps) && Broken(SampleEnv(), RunAll(SampleEnv(), false, u, steps));
    BreakLasts(SampleEnv(), u, steps);
  }

  /** From a lawful deployment, two runs that overlap can leave the pointer broken for good. */
  lemma OverlapCanBreak()
    ensures exists env: Env, s: State, steps: seq<Step> ::
              Good(env) && SoloInit(env, s) && Abandoned(env, RunAll(env, false, s, steps))
  {
    SampleIsGood();
    SampleStarts();
    var steps := SampleBreaks();
    assert Abandoned(SampleEnv(), RunAll(SampleEnv(), false, SampleState(), steps));
  }
}
