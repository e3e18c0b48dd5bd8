/** The main results about one call of `execute_local_transfer`. */
module TransferTheorems {
  import opened FileBytes
  import opened Bitmap
  import opened Device
  import opened Manifest
  import opened Transfer
  import opened TransferSafety

  function Sources(job: Job): (paths: seq<Path>)
    ensures |paths| == |job.files|
  {
    seq(|job.files|, e requires 0 <= e < |job.files| =>
      if job.sourceIsFile then job.sourcePath else job.sourcePath + job.files[e].relativePath)
  }

  function Names(job: Job): (rels: seq<Path>)
    ensures |rels| == |job.files|
  {
    seq(|job.files|, e requires 0 <= e < |job.files| => job.files[e].relativePath)
  }

  /** A manifest built from a stable source with distinct relative paths is one that the results below
      speak of exactly when the build read every file in whole chunks; the bits it starts with always are. */
  lemma BuiltManifestIsReady(env: Env, t: nat, job: Job, snap: seq<Bytes>)
    requires job.chunkSize > 0 && |snap| == |job.files|
    requires SourceHolds(env, job, snap)
    requires forall i, j :: 0 <= i < j < |job.files| ==> job.files[i].relativePath != job.files[j].relativePath
    requires BuildAll(env, t, Sources(job), Names(job), job.chunkSize).1 == Entries(job.files)
    ensures Ready(job, snap) <==> PassesAreFull(env, t, Sources(job), Names(job), job.chunkSize, snap)
    ensures FullReads(env) ==> Ready(job, snap)
    ensures Covered(job, seq(|job.files|, e requires 0 <= e < |job.files| => ClearBits(job.files[e])))
  {
    forall e | 0 <= e < |job.files| ensures Stable(env, Sources(job)[e], snap[e]) {
    }
    BuildAllIsBuilt(env, t, Sources(job), Names(job), job.chunkSize, snap);
  }

  lemma StartIsHead(job: Job, snap: seq<Bytes>, d: DiskState, bits: seq<Bits>)
    requires Ready(job, snap) && Covered(job, bits)
    ensures var s := Start(job, d, bits); EntryHead(job, snap, s, s, 0)
  {
    TallyBound(InBytes, job.files, snap, job.chunkSize, bits, |job.files|);
  }

  /** Where the run stands when the entry loop is over. */
  lemma LoopOutcome(env: Env, job: Job, snap: seq<Bytes>, d: DiskState, bits: seq<Bits>)
    requires Ready(job, snap) && Covered(job, bits)
    ensures var start := Start(job, d, bits);
            var s := EntryLoop(env, job, start, 0);
            && (if s.outcome.Running? then EntryHead(job, snap, start, s, |job.files|)
                else exists k: nat :: k < |job.files| && EntryStopped(job, snap, start, s, k))
            && (Clean(env, job, snap) ==> s.outcome.Running?)
  {
    StartIsHead(job, snap, d, bits);
    EntryLoopRuns(env, job, snap, Start(job, d, bits), Start(job, d, bits), 0);
  }

  /** Every file is in its place and equals the snapshot, and every chunk bit is set. */
  ghost predicate Complete(job: Job, snap: seq<Bytes>, files: map<Path, Bytes>, bits: seq<Bits>)
  {
    && |job.files| == |snap| == |bits|
    && (forall e: nat, p: Path :: e < |job.files| && IsPlace(job, e, p) ==> p in files && files[p] == snap[e])
    && (forall e :: 0 <= e < |job.files| ==> AllSet(job.files[e], bits[e]))
  }

  lemma CompleteAt(job: Job, snap: seq<Bytes>, files: map<Path, Bytes>, bits: seq<Bits>, e: nat)
    requires Complete(job, snap, files, bits) && e < |job.files|
    ensures job.Dest(e) in files && files[job.Dest(e)] == snap[e] && AllSet(job.files[e], bits[e])
    ensures |job.files| == |snap| == |bits|
  {
    DestIsPlace(job, e, job.Dest(e));
  }

  /** The completed loop: all bytes counted, and that number was the last one reported. */
  lemma AllCounted(job: Job, snap: seq<Bytes>, start: RunState, s: RunState)
    requires Ready(job, snap) && EntryHead(job, snap, start, s, |job.files|)
    ensures Complete(job, snap, s.d.files, s.bits)
    ensures s.bytesDone == TotalSize(job.files) && s.filesCompleted == |job.files|
    ensures |s.events| > 0 && s.events[|s.events| - 1].bytesDone == TotalSize(job.files)
  {
    forall e: nat | e < |job.files| ensures AllSet(job.files[e], s.bits[e]) {
      assert EntryDone(job, snap, s, e);
    }
    forall e: nat, p: Path | e < |job.files| && IsPlace(job, e, p) ensures p in s.d.files && s.d.files[p] == snap[e] {
      assert EntryDone(job, snap, s, e);
      DestIsPlace(job, e, p);
    }
    TallyBound(InBytes, job.files, snap, job.chunkSize, s.bits, |job.files|);
  }

  function FullReport(job: Job): TransferReport {
    TransferReport(TotalSize(job.files), TotalSize(job.files), |job.files|, |job.files|)
  }

  /** Resume is correct from any start. Whatever the resume bits claim, whatever the target holds and
      whatever fails on the way: a run that returns Ok has delivered every file. */
  lemma ResumeIsCorrect(env: Env, job: Job, snap: seq<Bytes>, d: DiskState, bits: seq<Bits>)
    requires Ready(job, snap) && Covered(job, bits)
    ensures var s := Execute(env, job, d, bits);
            s.outcome.Finished? ==> Complete(job, snap, s.d.files, s.bits)
  {
    hide EntryLoop;
    FinalState(env, job, snap, d, bits);
  }

  /** Ok comes with a full report, whose total was also the last progress reported. */
  lemma OkReportIsFull(env: Env, job: Job, snap: seq<Bytes>, d: DiskState, bits: seq<Bits>)
    requires Ready(job, snap) && Covered(job, bits)
    ensures var s := Execute(env, job, d, bits);
            s.outcome.Finished? ==>
              && s.outcome.report == FullReport(job)
              && |s.events| > 0 && s.events[|s.events| - 1].bytesDone == TotalSize(job.files)
  {
    hide EntryLoop;
    FinalState(env, job, snap, d, bits);
  }

  lemma FinalState(env: Env, job: Job, snap: seq<Bytes>, d: DiskState, bits: seq<Bits>)
    requires Ready(job, snap) && Covered(job, bits)
    ensures var s := EntryLoop(env, job, Start(job, MakeDir(env, d).0, bits), 0);
            && !s.outcome.Finished?
            && (s.outcome.Running? ==>
                  && Complete(job, snap, s.d.files, s.bits)
                  && s.bytesDone == TotalSize(job.files) && s.filesCompleted == |job.files|
                  && |s.events| > 0 && s.events[|s.events| - 1].bytesDone == TotalSize(job.files))
  {
    hide EntryLoop;
    var d1 := MakeDir(env, d).0;
    LoopOutcome(env, job, snap, d1, bits);
    var s := EntryLoop(env, job, Start(job, d1, bits), 0);
    if s.outcome.Running? {
      AllCounted(job, snap, Start(job, d1, bits), s);
    }
  }

  /** A run in which no call fails and the source is unchanged returns Ok, from any start. */
  lemma CleanRunFinishes(env: Env, job: Job, snap: seq<Bytes>, d: DiskState, bits: seq<Bits>)
    requires Ready(job, snap) && Covered(job, bits) && Clean(env, job, snap)
    ensures Execute(env, job, d, bits).outcome.Finished?
  {
    LoopOutcome(env, job, snap, MakeDir(env, d).0, bits);
  }

  /** However the run ends, reported progress is monotone, never passes the total and has at most one
      event more than there are chunks. */
  lemma ProgressIsMonotone(env: Env, job: Job, snap: seq<Bytes>, d: DiskState, bits: seq<Bits>)
    requires Ready(job, snap) && Covered(job, bits)
    ensures EventsOk(job, Execute(env, job, d, bits).events, ChunkTotal(job.files))
  {
    hide EntryLoop;
    LoopOutcome(env, job, snap, MakeDir(env, d).0, bits);
  }

  /** Once its chunks are copied, a file of a built manifest has the right hash: "file hash mismatch" is
      never what ends a run. */
  lemma MismatchIsUnreachable(env: Env, job: Job, snap: seq<Bytes>, d: DiskState, bits: seq<Bits>)
    requires Ready(job, snap) && Covered(job, bits)
    ensures var s := Execute(env, job, d, bits);
            !(s.outcome.Failed? && s.outcome.error.FileHashMismatch?)
  {
    hide EntryLoop;
    LoopOutcome(env, job, snap, MakeDir(env, d).0, bits);
  }

  /** When the run gives up on a chunk: earlier entries are complete, later entries and all other files
      are as they were, earlier chunks of the entry are right and marked, the bit of the chunk is clear,
      and later chunks are as they were once the target had its final length. */
  lemma FailureFrame(env: Env, job: Job, snap: seq<Bytes>, d: DiskState, bits: seq<Bits>)
    requires Ready(job, snap) && Covered(job, bits)
    ensures var s := Execute(env, job, d, bits);
            var s0 := Start(job, d, bits);
            s.outcome.Failed? && s.outcome.error.CopyChunkFailed? ==>
              var e, c := s.outcome.error.e, s.outcome.error.c;
              e < |job.files| && Around(job, snap, s0, s, e) && FailedAt(job, snap, s0, s, e, c)
  {
    hide EntryLoop;
    var d1 := MakeDir(env, d).0;
    LoopOutcome(env, job, snap, d1, bits);
    var s0, s1 := Start(job, d, bits), Start(job, d1, bits);
    var s := EntryLoop(env, job, s1, 0);
    if s.outcome.Failed? && s.outcome.error.CopyChunkFailed? {
      var e, c := s.outcome.error.e, s.outcome.error.c;
      assert Around(job, snap, s1, s, e) && FailedAt(job, snap, s1, s, e, c);
      forall k: nat | c < k < |job.files[e].chunkHashes| ensures ChunkAsSized(job, s0, s, e, k) {
        assert ChunkAsSized(job, s1, s, e, k);
      }
      forall i: nat | e < i < |job.files| ensures EntryUntouched(job, s0, s, i) {
        assert EntryUntouched(job, s1, s, i);
      }
      forall p: Path | !Targets(job, p) ensures SameAt(s0.d.files, s.d.files, p) {
        assert SameAt(s1.d.files, s.d.files, p);
      }
    }
  }

  /** Whatever error about an entry ends a run: earlier entries are complete, later ones and all other files
      as they were, and so is the entry itself if its source could not be opened. */
  lemma ErrorFrame(env: Env, job: Job, snap: seq<Bytes>, d: DiskState, bits: seq<Bits>)
    requires Ready(job, snap) && Covered(job, bits)
    ensures var s := Execute(env, job, d, bits);
            var s0 := Start(job, d, bits);
            s.outcome.Failed? && s.outcome.error != TargetRootError && s.outcome.error != CheckpointError ==>
              var e := s.outcome.error.e;
              && e < |job.files| && Around(job, snap, s0, s, e)
              && (s.outcome.error.DirError? || s.outcome.error.SourceError? ==> EntryUntouched(job, s0, s, e))
  {
    hide EntryLoop;
    var d1 := MakeDir(env, d).0;
    LoopOutcome(env, job, snap, d1, bits);
    var s0, s1 := Start(job, d, bits), Start(job, d1, bits);
    var s := EntryLoop(env, job, s1, 0);
    if s.outcome.Failed? && s.outcome.error != CheckpointError && s.outcome.error != TargetRootError {
      var e := s.outcome.error.e;
      assert Around(job, snap, s1, s, e);
      forall i: nat | e < i < |job.files| ensures EntryUntouched(job, s0, s, i) {
        assert EntryUntouched(job, s1, s, i);
      }
      forall p: Path | !Targets(job, p) ensures SameAt(s0.d.files, s.d.files, p) {
        assert SameAt(s1.d.files, s.d.files, p);
      }
    }
  }

  /** However the run ends, files that are not targets of the manifest are as they were. */
  lemma OtherFilesUntouched(env: Env, job: Job, snap: seq<Bytes>, d: DiskState, bits: seq<Bits>, p: Path)
    requires Ready(job, snap) && Covered(job, bits) && !Targets(job, p)
    ensures SameAt(d.files, Execute(env, job, d, bits).d.files, p)
  {
    hide EntryLoop;
    LoopOutcome(env, job, snap, MakeDir(env, d).0, bits);
    assert SameAt(d.files, EntryLoop(env, job, Start(job, MakeDir(env, d).0, bits), 0).d.files, p);
  }

  // ---------------------------------------------------------------- running again

  /** `s'` is `s` except for the clock, the count of files checked, and how the run stands. */
  ghost predicate Idle(s: RunState, s': RunState)
  {
    && s'.d == s.d.(clock := s'.d.clock)
    && s'.bits == s.bits && s'.bytesDone == s.bytesDone && s'.events == s.events
  }

  lemma ChunkStepIdle(env: Env, job: Job, snap: seq<Bytes>, s: RunState, e: nat, c: nat)
    requires Ready(job, snap) && Complete(job, snap, s.d.files, s.bits)
    requires e < |job.files| && c < |job.files[e].chunkHashes|
    ensures Idle(s, ChunkStep(env, job, s, e, c))
    ensures ChunkStep(env, job, s, e, c).filesCompleted == s.filesCompleted
  {
    ChunkInFile(job, snap, e, c);
    CompleteAt(job, snap, s.d.files, s.bits, e);
    hide Complete, Ready;
  }

  lemma {:induction false} ChunkLoopIdle(env: Env, job: Job, snap: seq<Bytes>, s: RunState, e: nat, c: nat)
    requires Ready(job, snap) && Complete(job, snap, s.d.files, s.bits)
    requires e < |job.files| && c <= |job.files[e].chunkHashes|
    ensures Idle(s, ChunkLoop(env, job, s, e, c))
    ensures ChunkLoop(env, job, s, e, c).filesCompleted == s.filesCompleted
    decreases |job.files[e].chunkHashes| - c
  {
    hide ChunkStep;
    if s.outcome.Running? && c < |job.files[e].chunkHashes| {
      ChunkStepIdle(env, job, snap, s, e, c);
      ChunkLoopIdle(env, job, snap, ChunkStep(env, job, s, e, c), e, c + 1);
    }
  }

  /** Opening a target that already holds the snapshot changes nothing. */
  lemma OpenEntryIdle(env: Env, job: Job, snap: seq<Bytes>, d: DiskState, bits: seq<Bits>, e: nat)
    requires Ready(job, snap) && Complete(job, snap, d.files, bits) && e < |job.files|
    ensures OpenEntry(env, job, d, e).0 == d.(clock := OpenEntry(env, job, d, e).0.clock)
  {
    var path := job.Dest(e);
    assert Built(job.files[e], snap[e], job.chunkSize);
    assert d.files[path := Existing(d.files, path)] == d.files;
    assert SetLen(snap[e], |snap[e]|) == snap[e];
  }

  lemma EntryStepIdle(env: Env, job: Job, snap: seq<Bytes>, s: RunState, e: nat)
    requires Ready(job, snap) && Complete(job, snap, s.d.files, s.bits) && e < |job.files|
    ensures Idle(s, EntryStep(env, job, s, e))
  {
    OpenEntryIdle(env, job, snap, s.d, s.bits, e);
    var (d, outcome) := OpenEntry(env, job, s.d, e);
    ChunkLoopIdle(env, job, snap, s.(d := d, outcome := outcome), e, 0);
  }

  lemma {:induction false} EntryLoopIdle(env: Env, job: Job, snap: seq<Bytes>, s: RunState, e: nat)
    requires Ready(job, snap) && Complete(job, snap, s.d.files, s.bits) && e <= |job.files|
    ensures Idle(s, EntryLoop(env, job, s, e))
    decreases |job.files| - e
  {
    hide EntryStep;
    if s.outcome.Running? && e < |job.files| {
      EntryStepIdle(env, job, snap, s, e);
      EntryLoopIdle(env, job, snap, EntryStep(env, job, s, e), e + 1);
    }
  }

  /** A run on what a completed run left behind writes no file, copies no chunk and changes no bit,
      even if it is interrupted; if it returns Ok it has reported progress exactly once. */
  lemma CompleteStaysComplete(env: Env, job: Job, snap: seq<Bytes>, d: DiskState, bits: seq<Bits>)
    requires Ready(job, snap) && Complete(job, snap, d.files, bits)
    ensures var s := Execute(env, job, d, bits);
            && s.d.files == d.files && s.d.copies == d.copies && s.bits == bits
            && |s.events| <= 1 && (s.outcome.Finished? ==> |s.events| == 1)
  {
    var d1 := MakeDir(env, d).0;
    EntryLoopIdle(env, job, snap, Start(job, d1, bits), 0);
  }

  /** Running twice is running once: same files, same bits, same report. */
  lemma RerunIsIdle(env: Env, env': Env, job: Job, snap: seq<Bytes>, d: DiskState, bits: seq<Bits>)
    requires Ready(job, snap) && Covered(job, bits)
    requires Execute(env, job, d, bits).outcome.Finished?
    ensures var first := Execute(env, job, d, bits);
            var second := Execute(env', job, first.d, first.bits);
            && second.d.files == first.d.files && second.d.copies == first.d.copies && second.bits == first.bits
            && (second.outcome.Finished? ==> second.outcome == first.outcome && |second.events| == 1)
            && (Clean(env', job, snap) ==> second.outcome.Finished?)
  {
    var first := Execute(env, job, d, bits);
    ResumeIsCorrect(env, job, snap, d, bits);
    CompleteStaysComplete(env', job, snap, first.d, first.bits);
    OkReportIsFull(env, job, snap, d, bits);
    RunKeepsCovered(env, job, snap, d, bits);
    OkReportIsFull(env', job, snap, first.d, first.bits);
    if Clean(env', job, snap) {
      CleanRunFinishes(env', job, snap, first.d, first.bits);
    }
  }

  lemma RunKeepsCovered(env: Env, job: Job, snap: seq<Bytes>, d: DiskState, bits: seq<Bits>)
    requires Ready(job, snap) && Covered(job, bits)
    ensures Covered(job, Execute(env, job, d, bits).bits)
  {
    LoopOutcome(env, job, snap, MakeDir(env, d).0, bits);
  }

  // ---------------------------------------------------------------- manifests of any origin

  lemma {:induction false} AttemptsFrame(env: Env, d: DiskState, src: Path, dst: Path, off: nat, len: nat, expected: Digest, n: nat)
    requires n > 0
    ensures SameExcept(d.files, CopyAttempts(env, d, src, dst, off, len, expected, n).0.files, dst)
    decreases n
  {
    var (d1, first) := CopyChunk(env, d, src, dst, off, len, expected);
    if first.Refused? && n > 1 {
      AttemptsFrame(env, d1, src, dst, off, len, expected, n - 1);
      SameExceptTransitive(d.files, d1.files, CopyAttempts(env, d, src, dst, off, len, expected, n).0.files, dst);
    }
  }

  lemma CopyStepFrame(env: Env, job: Job, s: RunState, e: nat, c: nat)
    requires e < |job.files| == |s.bits| && c < |job.files[e].chunkHashes|
    ensures SameExcept(s.d.files, CopyStep(env, job, s, e, c).d.files, job.Dest(e))
    ensures !CopyStep(env, job, s, e, c).outcome.Finished?
  {
    hide CopyAttempts;
    AttemptsFrame(env, s.d, job.Source(e), job.Dest(e), Offset(job.chunkSize, c), job.Len(e, c),
                  job.files[e].chunkHashes[c], job.Retries());
  }

  lemma ChunkStepFrame(env: Env, job: Job, s: RunState, e: nat, c: nat)
    requires e < |job.files| == |s.bits| && c < |job.files[e].chunkHashes|
    ensures SameExcept(s.d.files, ChunkStep(env, job, s, e, c).d.files, job.Dest(e))
    ensures !s.outcome.Finished? ==> !ChunkStep(env, job, s, e, c).outcome.Finished?
  {
    hide CopyStep;
    CopyStepFrame(env, job, s, e, c);
    var d := VerifyChunkAt(env, s.d, job.Dest(e), Offset(job.chunkSize, c), job.Len(e, c), job.files[e].chunkHashes[c]).0;
    CopyStepFrame(env, job, Cleared(job, s, d, e, c), e, c);
  }

  lemma {:induction false} ChunkLoopFrame(env: Env, job: Job, s: RunState, e: nat, c: nat)
    requires e < |job.files| == |s.bits| && c <= |job.files[e].chunkHashes|
    ensures SameExcept(s.d.files, ChunkLoop(env, job, s, e, c).d.files, job.Dest(e))
    ensures !s.outcome.Finished? ==> !ChunkLoop(env, job, s, e, c).outcome.Finished?
    decreases |job.files[e].chunkHashes| - c
  {
    hide ChunkStep;
    if s.outcome.Running? && c < |job.files[e].chunkHashes| {
      var s' := ChunkStep(env, job, s, e, c);
      ChunkStepFrame(env, job, s, e, c);
      ChunkLoopFrame(env, job, s', e, c + 1);
      SameExceptTransitive(s.d.files, s'.d.files, ChunkLoop(env, job, s, e, c).d.files, job.Dest(e));
    }
  }

  /** With a chunk size of 0 every chunk has length 0 and is passed over. */
  lemma {:induction false} ChunkLoopOfZero(env: Env, job: Job, s: RunState, e: nat, c: nat)
    requires e < |job.files| == |s.bits| && c <= |job.files[e].chunkHashes| && job.chunkSize == 0
    ensures ChunkLoop(env, job, s, e, c) == s
    decreases |job.files[e].chunkHashes| - c
  {
    if s.outcome.Running? && c < |job.files[e].chunkHashes| {
      ChunkLoopOfZero(env, job, s, e, c + 1);
    }
  }

  lemma OpenEntryFrame(env: Env, job: Job, d: DiskState, e: nat)
    requires e < |job.files|
    ensures SameExcept(d.files, OpenEntry(env, job, d, e).0.files, job.Dest(e))
  {
  }

  ghost predicate Verified(job: Job, files: map<Path, Bytes>, e: nat)
    requires e < |job.files|
  {
    job.Dest(e) in files && Hash(files[job.Dest(e)]) == job.files[e].fileHash
  }

  /** What the check at the end of an entry has found out: the hash of the target, or with a chunk size
      of 0, which makes the read loop stop at once, only that the manifest asks for the empty hash. */
  ghost predicate Passed(job: Job, files: map<Path, Bytes>, e: nat)
    requires e < |job.files|
  {
    if job.chunkSize > 0 then Verified(job, files, e)
    else
      && job.Dest(e) in files && |files[job.Dest(e)]| == job.files[e].size
      && job.files[e].fileHash == Hash([])
  }

  lemma CheckFilePasses(env: Env, job: Job, s: RunState, e: nat)
    requires e < |job.files| == |s.bits| && s.outcome.Running?
    requires job.chunkSize == 0 ==> job.Dest(e) in s.d.files && |s.d.files[job.Dest(e)]| == job.files[e].size
    ensures var s' := CheckFile(env, job, s, e);
            && s'.d.files == s.d.files && !s'.outcome.Finished? && (s'.outcome.Running? ==> Passed(job, s.d.files, e))
  {
    if job.chunkSize > 0 && job.Dest(e) in s.d.files {
      HashFileWhole(env, s.d.clock, s.d.files[job.Dest(e)], job.chunkSize);
    }
  }

  /** An entry step writes no file but its own target, and goes on only if that file passed the check. */
  lemma EntryStepFrame(env: Env, job: Job, s: RunState, e: nat)
    requires e < |job.files| == |s.bits|
    ensures var s' := EntryStep(env, job, s, e);
            && SameExcept(s.d.files, s'.d.files, job.Dest(e))
            && (s'.outcome.Running? ==> Passed(job, s'.d.files, e))
            && (!s.outcome.Finished? ==> !s'.outcome.Finished?)
  {
    hide ChunkLoop, CheckFile;
    var (d, outcome) := OpenEntry(env, job, s.d, e);
    OpenEntryFrame(env, job, s.d, e);
    if outcome.Running? {
      var s1 := s.(d := d, outcome := outcome);
      var s2 := ChunkLoop(env, job, s1, e, 0);
      ChunkLoopFrame(env, job, s1, e, 0);
      SameExceptTransitive(s.d.files, d.files, s2.d.files, job.Dest(e));
      if s2.outcome.Running? {
        if job.chunkSize == 0 {
          ChunkLoopOfZero(env, job, s1, e, 0);
        }
        CheckFilePasses(env, job, s2, e);
      }
    }
  }

  lemma {:induction false} EntryLoopPassed(env: Env, job: Job, s: RunState, e: nat)
    requires e <= |job.files| == |s.bits|
    requires forall i: nat, j: nat :: i < j < |job.files| ==> job.Dest(i) != job.Dest(j)
    requires forall i: nat :: i < e ==> Passed(job, s.d.files, i)
    ensures !s.outcome.Finished? ==> !EntryLoop(env, job, s, e).outcome.Finished?
    ensures var s' := EntryLoop(env, job, s, e);
            s'.outcome.Running? ==> forall i: nat :: i < |job.files| ==> Passed(job, s'.d.files, i)
    decreases |job.files| - e
  {
    hide EntryStep;
    if s.outcome.Running? && e < |job.files| {
      EntryStepFrame(env, job, s, e);
      var s' := EntryStep(env, job, s, e);
      if !s'.outcome.Running? {
        assert EntryLoop(env, job, s, e) == s';
      } else {
        forall i: nat | i < e + 1 ensures Passed(job, s'.d.files, i) {
          if i < e {
            assert Passed(job, s.d.files, i);
            assert SameAt(s.d.files, s'.d.files, job.Dest(i));
          }
        }
        EntryLoopPassed(env, job, s', e + 1);
      }
    }
  }

  /** Whatever the manifest and however the run ends, nothing outside the root's name in the target
      directory is touched. */
  lemma NothingOutsideTarget(env: Env, job: Job, d: DiskState, bits: seq<Bits>, p: Path)
    requires |bits| == |job.files| && !(job.targetRoot + [job.rootName] <= p)
    ensures SameAt(d.files, Execute(env, job, d, bits).d.files, p)
  {
    hide EntryLoop;
    LoopKeepsOutside(env, job, Start(job, MakeDir(env, d).0, bits), 0, p);
  }

  lemma {:induction false} LoopKeepsOutside(env: Env, job: Job, s: RunState, e: nat, p: Path)
    requires e <= |job.files| == |s.bits| && !(job.targetRoot + [job.rootName] <= p)
    ensures SameAt(s.d.files, EntryLoop(env, job, s, e).d.files, p)
    decreases |job.files| - e
  {
    hide EntryStep;
    if s.outcome.Running? && e < |job.files| {
      EntryStepFrame(env, job, s, e);
      assert job.targetRoot + [job.rootName] <= job.Dest(e);
      assert SameAt(s.d.files, EntryStep(env, job, s, e).d.files, p);
      LoopKeepsOutside(env, job, EntryStep(env, job, s, e), e + 1, p);
    }
  }

  /** For a manifest of any origin, with any sizes, hashes, bits and chunk size: after a run that returns
      Ok, a target has the recorded hash exactly when the chunk size is not 0 or the entry is empty. */
  lemma AnyManifestIsVerified(env: Env, job: Job, d: DiskState, bits: seq<Bits>)
    requires |bits| == |job.files|
    requires forall i: nat, j: nat :: i < j < |job.files| ==> job.Dest(i) != job.Dest(j)
    ensures var s := Execute(env, job, d, bits);
            s.outcome.Finished? ==> forall e: nat :: e < |job.files| ==>
              (Verified(job, s.d.files, e) <==> job.chunkSize > 0 || job.files[e].size == 0)
  {
    hide EntryLoop;
    var start := Start(job, MakeDir(env, d).0, bits);
    EntryLoopPassed(env, job, start, 0);
    var s := EntryLoop(env, job, start, 0);
    if s.outcome.Running? {
      forall e: nat | e < |job.files|
        ensures Verified(job, s.d.files, e) <==> job.chunkSize > 0 || job.files[e].size == 0
      {
        assert Passed(job, s.d.files, e);
      }
    }
  }

  /** A manifest with chunk size 0 that asks for one byte with the hash of none: nothing is copied and
      nothing is hashed, and the run returns Ok over a target with another hash. */
  lemma ZeroChunkSizeIsNotVerified()
    ensures exists env: Env, job: Job, d: DiskState, bits: seq<Bits> ::
      && FaultFree(env) && job.chunkSize == 0 && |job.files| == |bits| == 1
      && var s := Execute(env, job, d, bits); s.outcome.Finished? && !Verified(job, s.d.files, 0)
  {
    hide ChunkStep, ChunkLoop, Verified;
    var env := Env(t => Fine, (t, p) => Some([7]), t => None);
    var job := Job([FileInfo(["f"], 1, Hash([]), [])], 0, "r", ["r"], false, ["t"], true, 3);
    var d, bits := DiskState(map[], NoFile, 0, 0, 0), [[]];
    var d1 := MakeDir(env, d).0;
    var start := Start(job, d1, bits);
    var (d2, outcome) := OpenEntry(env, job, d1, 0);
    var opened' := start.(d := d2, outcome := outcome);
    ChunkLoopOfZero(env, job, opened', 0, 0);
    var s1 := EntryStep(env, job, start, 0);
    assert s1 == CheckFile(env, job, opened', 0);
    assert s1.outcome.Running?;
    assert EntryLoop(env, job, start, 0) == EntryLoop(env, job, s1, 1) == s1;
    AnyManifestIsVerified(env, job, d, bits);
  }
}
