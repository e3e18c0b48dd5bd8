/** How a run ends: which call ended it, with which error, and what it had reported and saved by then. None
    of this asks anything of the manifest, except where a source was edited after the build. */
module TransferOutcome {
  import opened FileBytes
  import opened Bitmap
  import opened Device
  import opened Manifest
  import opened Transfer
  import opened TransferSafety
  import opened TransferTheorems

  // ---------------------------------------------------------------- the call that ends a run

  /** From tick `t0` to tick `t` no call killed the process, except that the last one did if `killed`. */
  ghost predicate Lived(env: Env, t0: nat, t: nat, killed: bool)
  {
    && t0 <= t && (killed ==> t0 < t)
    && forall k :: t0 <= k < t ==> (env.fault(k).Kill? <==> killed && k == t - 1)
  }

  /** From tick `t0` to tick `t` no call failed or killed, except perhaps the last one. */
  ghost predicate FineBefore(env: Env, t0: nat, t: nat) {
    t0 < t && forall k :: t0 <= k < t - 1 ==> env.fault(k).Fine?
  }

  lemma LivedOn(env: Env, t0: nat, t1: nat, t2: nat, killed: bool)
    requires Lived(env, t0, t1, false) && Lived(env, t1, t2, killed)
    ensures Lived(env, t0, t2, killed)
  {
  }

  lemma FineIsLived(env: Env, t0: nat, t: nat, killed: bool)
    requires FineBefore(env, t0, t) && (env.fault(t - 1).Kill? <==> killed)
    ensures Lived(env, t0, t, killed)
  {
    forall k | t0 <= k < t ensures env.fault(k).Kill? <==> killed && k == t - 1 {
      if k < t - 1 {
        assert env.fault(k).Fine?;
      }
    }
  }

  lemma CopyChunkTicks(env: Env, d: DiskState, src: Path, dst: Path, off: nat, len: nat, expected: Digest)
    ensures var (d', reply) := CopyChunk(env, d, src, dst, off, len, expected);
            && Lived(env, d.clock, d'.clock, reply.Died?) && d.clock < d'.clock
            && d'.checkpoint == d.checkpoint && d'.copies == d.copies + (if reply.Done? then 1 else 0)
  {
    hide WriteAt;
  }

  lemma {:induction false} AttemptTicks(env: Env, d: DiskState, src: Path, dst: Path, off: nat, len: nat, expected: Digest, n: nat)
    requires n > 0
    ensures var (d', reply) := CopyAttempts(env, d, src, dst, off, len, expected, n);
            && Lived(env, d.clock, d'.clock, reply.Died?) && d.clock < d'.clock
            && d'.checkpoint == d.checkpoint && d'.copies == d.copies + (if reply.Done? then 1 else 0)
    decreases n
  {
    hide CopyChunk;
    var (d1, first) := CopyChunk(env, d, src, dst, off, len, expected);
    CopyChunkTicks(env, d, src, dst, off, len, expected);
    if first.Refused? && n > 1 {
      AttemptTicks(env, d1, src, dst, off, len, expected, n - 1);
    }
  }

  lemma {:induction false} HashLoopTicks(env: Env, t: nat, content: Bytes, pos: nat, cs: nat, fed: Bytes, hashes: seq<Digest>)
    requires pos <= |content|
    ensures var (t', reply) := HashLoop(env, t, content, pos, cs, fed, hashes);
            && FineBefore(env, t, t')
            && (match reply case Hashed(_, _) => env.fault(t' - 1).Fine?
                            case HashRefused => env.fault(t' - 1).Fail?
                            case HashDied => env.fault(t' - 1).Kill?)
    decreases |content| - pos
  {
    var n := ReadSize(env.shortRead(t), cs, |content| - pos);
    if env.fault(t).Fine? && n > 0 {
      var piece := content[pos..pos + n];
      HashLoopTicks(env, t + 1, content, pos + n, cs, fed + piece, hashes + [Hash(piece)]);
    }
  }

  /** Hashing stops at the first call that does not succeed, or if there is no file. */
  lemma HashFileTicks(env: Env, t: nat, file: Option<Bytes>, cs: nat)
    ensures var (t', reply) := HashFile(env, t, file, cs);
            && FineBefore(env, t, t') && Lived(env, t, t', reply.HashDied?)
            && (reply.HashRefused? <==> env.fault(t' - 1).Fail? || (env.fault(t' - 1).Fine? && file.None?))
  {
    if env.fault(t).Fine? && file.Some? {
      HashLoopTicks(env, t + 1, file.value, 0, cs, [], []);
    }
    var (t', reply) := HashFile(env, t, file, cs);
    FineIsLived(env, t, t', reply.HashDied?);
  }

  /** What a part of a run does that works on entry `e`: it is alive unless its last call killed it; what it
      reports names entry `e`, once for each chunk copied, except that a run that stops may have copied one
      chunk that it did not report; and without checkpointing it saves nothing. */
  ghost predicate Worked(env: Env, job: Job, s: RunState, s': RunState, e: nat)
    requires e < |job.files|
  {
    && Lived(env, s.d.clock, s'.d.clock, s'.outcome.Killed?)
    && !s'.outcome.Finished?
    && s.events <= s'.events
    && (forall i :: |s.events| <= i < |s'.events| ==> s'.events[i].currentFile == job.files[e].relativePath)
    && |s'.events| - |s.events| <= s'.d.copies - s.d.copies <= |s'.events| - |s.events| + 1
    && (s'.outcome.Running? ==> s'.d.copies - s.d.copies == |s'.events| - |s.events|)
    && (!job.checkpointing ==> s'.d.checkpoint == s.d.checkpoint)
  }

  lemma WorkedOn(env: Env, job: Job, s: RunState, s1: RunState, s2: RunState, e: nat)
    requires e < |job.files| && Worked(env, job, s, s1, e) && s1.outcome.Running? && Worked(env, job, s1, s2, e)
    ensures Worked(env, job, s, s2, e)
  {
    assert forall i :: |s.events| <= i < |s1.events| ==> s2.events[i] == s1.events[i];
  }

  lemma CopyStepWorks(env: Env, job: Job, s: RunState, e: nat, c: nat)
    requires e < |job.files| == |s.bits| && c < |job.files[e].chunkHashes| && s.outcome.Running?
    ensures Worked(env, job, s, CopyStep(env, job, s, e, c), e)
  {
    hide CopyAttempts, RecordCopy, WithBit, TotalSize;
    AttemptTicks(env, s.d, job.Source(e), job.Dest(e), Offset(job.chunkSize, c), job.Len(e, c),
                 job.files[e].chunkHashes[c], job.Retries());
    var (d, reply) := CopyAttempts(env, s.d, job.Source(e), job.Dest(e), Offset(job.chunkSize, c), job.Len(e, c),
                                   job.files[e].chunkHashes[c], job.Retries());
    if reply.Done? {
      var s1 := s.(d := d);
      var s2 := RecordCopy(env, job, s1, e, c);
      RecordCopyWorks(env, job, s1, e, c);
      assert CopyStep(env, job, s, e, c) == s2;
      LivedOn(env, s.d.clock, d.clock, s2.d.clock, s2.outcome.Killed?);
    }
  }

  lemma RecordCopyWorks(env: Env, job: Job, s: RunState, e: nat, c: nat)
    requires e < |job.files| == |s.bits| && s.outcome.Running?
    ensures var s' := RecordCopy(env, job, s, e, c);
            && Lived(env, s.d.clock, s'.d.clock, s'.outcome.Killed?) && !s'.outcome.Finished?
            && s'.d.copies == s.d.copies && (!job.checkpointing ==> s'.d.checkpoint == s.d.checkpoint)
            && (if s'.outcome.Running? then |s'.events| == |s.events| + 1 && s.events <= s'.events else s'.events == s.events)
            && (s'.outcome.Running? ==> s'.events[|s.events|].currentFile == job.files[e].relativePath)
  {
    hide WithBit, TotalSize;
  }

  lemma ChunkStepWorks(env: Env, job: Job, s: RunState, e: nat, c: nat)
    requires e < |job.files| == |s.bits| && c < |job.files[e].chunkHashes| && s.outcome.Running?
    ensures Worked(env, job, s, ChunkStep(env, job, s, e, c), e)
  {
    hide CopyStep, WithBit, ReadExact;
    var d := VerifyChunkAt(env, s.d, job.Dest(e), Offset(job.chunkSize, c), job.Len(e, c), job.files[e].chunkHashes[c]).0;
    CopyStepWorks(env, job, s, e, c);
    CopyStepWorks(env, job, Cleared(job, s, d, e, c), e, c);
  }

  lemma {:induction false} ChunkLoopWorks(env: Env, job: Job, s: RunState, e: nat, c: nat)
    requires e < |job.files| == |s.bits| && c <= |job.files[e].chunkHashes| && s.outcome.Running?
    ensures Worked(env, job, s, ChunkLoop(env, job, s, e, c), e)
    decreases |job.files[e].chunkHashes| - c
  {
    hide ChunkStep;
    if c < |job.files[e].chunkHashes| {
      var s1 := ChunkStep(env, job, s, e, c);
      ChunkStepWorks(env, job, s, e, c);
      if s1.outcome.Running? {
        ChunkLoopWorks(env, job, s1, e, c + 1);
        WorkedOn(env, job, s, s1, ChunkLoop(env, job, s1, e, c + 1), e);
      } else {
        assert ChunkLoop(env, job, s, e, c) == s1;
      }
    }
  }

  lemma OpenEntryTicks(env: Env, job: Job, d: DiskState, e: nat)
    requires e < |job.files|
    ensures var (d', outcome) := OpenEntry(env, job, d, e);
            && Lived(env, d.clock, d'.clock, outcome.Killed?) && !outcome.Finished?
            && d'.checkpoint == d.checkpoint && d'.copies == d.copies
  {
    hide SetLen;
  }

  lemma EntryStepWorks(env: Env, job: Job, s: RunState, e: nat)
    requires e < |job.files| == |s.bits| && s.outcome.Running?
    ensures Worked(env, job, s, EntryStep(env, job, s, e), e)
  {
    hide OpenEntry, ChunkLoop, HashFile;
    OpenEntryTicks(env, job, s.d, e);
    var (d, outcome) := OpenEntry(env, job, s.d, e);
    var s1 := s.(d := d, outcome := outcome);
    if outcome.Running? {
      ChunkLoopWorks(env, job, s1, e, 0);
      var s2 := ChunkLoop(env, job, s1, e, 0);
      WorkedOn(env, job, s, s1, s2, e);
      if s2.outcome.Running? {
        CheckFileWorks(env, job, s2, e);
        WorkedOn(env, job, s, s2, CheckFile(env, job, s2, e), e);
      }
    }
  }

  lemma CheckFileWorks(env: Env, job: Job, s: RunState, e: nat)
    requires e < |job.files| == |s.bits| && s.outcome.Running?
    ensures Worked(env, job, s, CheckFile(env, job, s, e), e)
  {
    hide HashFile;
    var path := job.Dest(e);
    var file := if path in s.d.files then Some(s.d.files[path]) else None;
    HashFileTicks(env, s.d.clock, file, job.chunkSize);
    var (t, reply) := HashFile(env, s.d.clock, file, job.chunkSize);
    var s' := CheckFile(env, job, s, e);
    assert s'.d == s.d.(clock := t) && s'.events == s.events;
    assert s'.outcome.Killed? <==> reply.HashDied?;
  }

  // ---------------------------------------------------------------- a whole run

  /** Events `i` and `j` are about entries in this order, none before entry `e`. */
  ghost predicate NamedInOrder(job: Job, events: seq<ProgressEvent>, i: nat, j: nat, e: nat)
    requires i < |events| && j < |events|
  {
    exists a: nat, b: nat :: e <= a <= b < |job.files|
      && events[i].currentFile == job.files[a].relativePath && events[j].currentFile == job.files[b].relativePath
  }

  /** The same for the loop over the entries from `e` on. */
  ghost predicate LoopWorked(env: Env, job: Job, s: RunState, s': RunState, e: nat)
  {
    && Lived(env, s.d.clock, s'.d.clock, s'.outcome.Killed?)
    && !s'.outcome.Finished?
    && s.events <= s'.events
    && (forall i, j :: |s.events| <= i <= j < |s'.events| ==> NamedInOrder(job, s'.events, i, j, e))
    && |s'.events| - |s.events| <= s'.d.copies - s.d.copies <= |s'.events| - |s.events| + 1
    && (s'.outcome.Running? ==> s'.d.copies - s.d.copies == |s'.events| - |s.events|)
    && (!job.checkpointing ==> s'.d.checkpoint == s.d.checkpoint)
  }

  lemma LoopWorkedFirst(env: Env, job: Job, s: RunState, s1: RunState, e: nat)
    requires e < |job.files| && Worked(env, job, s, s1, e)
    ensures LoopWorked(env, job, s, s1, e)
  {
    forall i, j | |s.events| <= i <= j < |s1.events| ensures NamedInOrder(job, s1.events, i, j, e) {
      assert s1.events[i].currentFile == job.files[e].relativePath && s1.events[j].currentFile == job.files[e].relativePath;
    }
  }

  lemma LoopWorkedOn(env: Env, job: Job, s: RunState, s1: RunState, s2: RunState, e: nat)
    requires e < |job.files| && Worked(env, job, s, s1, e) && s1.outcome.Running? && LoopWorked(env, job, s1, s2, e + 1)
    ensures LoopWorked(env, job, s, s2, e)
  {
    forall i, j | |s.events| <= i <= j < |s2.events| ensures NamedInOrder(job, s2.events, i, j, e) {
      assert i < |s1.events| ==> s2.events[i] == s1.events[i];
      assert j < |s1.events| ==> s2.events[j] == s1.events[j];
      if j >= |s1.events| {
        assert NamedInOrder(job, s2.events, if i < |s1.events| then j else i, j, e + 1);
      }
    }
  }

  lemma {:induction false} EntryLoopWorks(env: Env, job: Job, s: RunState, e: nat)
    requires e <= |job.files| == |s.bits| && s.outcome.Running?
    ensures LoopWorked(env, job, s, EntryLoop(env, job, s, e), e)
    decreases |job.files| - e
  {
    hide EntryStep;
    if e < |job.files| {
      var s1 := EntryStep(env, job, s, e);
      EntryStepWorks(env, job, s, e);
      if s1.outcome.Running? {
        EntryLoopWorks(env, job, s1, e + 1);
        LoopWorkedOn(env, job, s, s1, EntryLoop(env, job, s1, e + 1), e);
      } else {
        LoopWorkedFirst(env, job, s, s1, e);
        assert EntryLoop(env, job, s, e) == s1;
      }
    }
  }

  /** A run ends, and it is killed exactly when its last call kills it; no call before that one does. */
  lemma KilledByLastCall(env: Env, job: Job, d: DiskState, bits: seq<Bits>)
    requires |bits| == |job.files|
    ensures var s := Execute(env, job, d, bits);
            && !s.outcome.Running? && d.clock < s.d.clock
            && forall k :: d.clock <= k < s.d.clock ==> (env.fault(k).Kill? <==> s.outcome.Killed? && k == s.d.clock - 1)
  {
    hide EntryLoop;
    EntryLoopWorks(env, job, Start(job, MakeDir(env, d).0, bits), 0);
  }

  /** Where no call kills the process, the run returns: Ok or an error. */
  lemma RunReturns(env: Env, job: Job, d: DiskState, bits: seq<Bits>)
    requires |bits| == |job.files| && forall t :: !env.fault(t).Kill?
    ensures var s := Execute(env, job, d, bits); s.outcome.Finished? || s.outcome.Failed?
  {
    KilledByLastCall(env, job, d, bits);
    assert !env.fault(Execute(env, job, d, bits).d.clock - 1).Kill?;
  }

  /** What a run reports: first the bytes it starts with, then once for each chunk it copied, naming the
      files in the order of the manifest. A run that stops may have copied one chunk it did not report. */
  lemma OneReportForEachCopy(env: Env, job: Job, d: DiskState, bits: seq<Bits>)
    requires |bits| == |job.files|
    ensures var s := Execute(env, job, d, bits);
            && (s.events == [] ==> s.d.copies == d.copies)
            && (s.events != [] ==>
                  && s.events[0] == ProgressEvent(TotalSize(job.files), DoneSize(job.files, job.chunkSize, bits), [])
                  && (forall i, j :: 1 <= i <= j < |s.events| ==> NamedInOrder(job, s.events, i, j, 0))
                  && |s.events| - 1 <= s.d.copies - d.copies <= |s.events|)
            && (s.outcome.Finished? ==> |s.events| == 1 + s.d.copies - d.copies)
  {
    hide EntryLoop;
    EntryLoopWorks(env, job, Start(job, MakeDir(env, d).0, bits), 0);
  }

  /** Without a checkpoint path nothing is saved. */
  lemma NoCheckpointWithoutPath(env: Env, job: Job, d: DiskState, bits: seq<Bits>)
    requires |bits| == |job.files| && !job.checkpointing
    ensures Execute(env, job, d, bits).d.checkpoint == d.checkpoint
  {
    hide EntryLoop;
    EntryLoopWorks(env, job, Start(job, MakeDir(env, d).0, bits), 0);
  }

  // ---------------------------------------------------------------- which error

  /** Opening an entry makes four calls, and the first that fails gives its own error. The target is not
      touched before the source is open, and keeps its bytes before its length is set. */
  lemma OpenEntryErrors(env: Env, job: Job, d: DiskState, e: nat)
    requires e < |job.files|
    ensures var (d', outcome) := OpenEntry(env, job, d, e);
            var t, src := d.clock, if job.sourceIsFile then job.sourcePath else job.sourcePath + job.files[e].relativePath;
            var made := env.fault(t).Fine?;
            var opened' := made && env.fault(t + 1).Fine? && env.source(t + 1, src).Some?;
            var created := opened' && env.fault(t + 2).Fine?;
            && (outcome == Failed(DirError(e)) <==> env.fault(t).Fail?)
            && (outcome == Failed(SourceError(e)) <==>
                  made && (env.fault(t + 1).Fail? || (env.fault(t + 1).Fine? && env.source(t + 1, src).None?)))
            && (outcome == Failed(TargetError(e)) <==> opened' && env.fault(t + 2).Fail?)
            && (outcome == Failed(SizeError(e)) <==> created && env.fault(t + 3).Fail?)
            && (outcome.Running? <==> created && env.fault(t + 3).Fine?)
            && (!opened' ==> d'.files == d.files)
            && (!created ==> forall p :: Existing(d'.files, p) == Existing(d.files, p))
  {
    hide SetLen;
  }

  /** One attempt is refused when a call fails, when the source is gone or too short, or when its bytes do
      not have the expected hash. Unless the write itself failed, nothing was written. */
  lemma WhenRefused(env: Env, d: DiskState, src: Path, dst: Path, off: nat, len: nat, expected: Digest)
    ensures var (d', reply) := CopyChunk(env, d, src, dst, off, len, expected);
            var t, content := d.clock, env.source(d.clock, src);
            var right := content.Some? && off + len <= |content.value| && Hash(content.value[off..off + len]) == expected;
            && (reply.Refused? <==> env.fault(t).Fail? || (env.fault(t).Fine? && (!right || env.fault(t + 1).Fail?)))
            && (reply.Done? <==> env.fault(t).Fine? && right && env.fault(t + 1).Fine?)
            && (!(env.fault(t).Fine? && right) ==> d'.files == d.files)
  {
    hide WriteAt;
  }

  /** Every one of `n` attempts at a chunk is refused. */
  ghost predicate AllRefused(env: Env, d: DiskState, src: Path, dst: Path, off: nat, len: nat, expected: Digest, n: nat) {
    forall j: nat :: j < n ==>
      CopyChunk(env, AfterAttempts(env, d, src, dst, off, len, expected, j), src, dst, off, len, expected).1.Refused?
  }

  lemma RefusedExactly(env: Env, d: DiskState, src: Path, dst: Path, off: nat, len: nat, expected: Digest, n: nat)
    requires n > 0
    ensures var (d', reply) := CopyAttempts(env, d, src, dst, off, len, expected, n);
            && (reply.Refused? <==> AllRefused(env, d, src, dst, off, len, expected, n))
            && (reply.Refused? ==> d' == AfterAttempts(env, d, src, dst, off, len, expected, n))
  {
    hide CopyChunk, CopyAttempts;
    RetriesUntilSuccess(env, d, src, dst, off, len, expected, n);
    var k: nat :| LastAttempt(env, d, src, dst, off, len, expected, n, k);
    assert AfterAttempts(env, d, src, dst, off, len, expected, k + 1)
        == CopyChunk(env, AfterAttempts(env, d, src, dst, off, len, expected, k), src, dst, off, len, expected).0;
  }

  /** All the attempts that this job makes at chunk `c` of entry `e` are refused: `max_retries` of them, but
      at least one. */
  ghost predicate ChunkRefused(env: Env, job: Job, d: DiskState, e: nat, c: nat)
    requires e < |job.files| && c < |job.files[e].chunkHashes|
  {
    AllRefused(env, d, job.Source(e), job.Dest(e), c * job.chunkSize, job.Len(e, c), job.files[e].chunkHashes[c],
               if job.maxRetries < 1 then 1 else job.maxRetries)
  }

  function AfterRefusals(env: Env, job: Job, d: DiskState, e: nat, c: nat): DiskState
    requires e < |job.files| && c < |job.files[e].chunkHashes|
  {
    AfterAttempts(env, d, job.Source(e), job.Dest(e), c * job.chunkSize, job.Len(e, c), job.files[e].chunkHashes[c],
                  if job.maxRetries < 1 then 1 else job.maxRetries)
  }

  /** A chunk is given up, with "copy chunk failed", exactly when every attempt is refused. A copied chunk
      stops the run exactly when saving the checkpoint fails. */
  lemma GivesUpExactly(env: Env, job: Job, s: RunState, e: nat, c: nat)
    requires e < |job.files| == |s.bits| && c < |job.files[e].chunkHashes| && s.outcome.Running?
    ensures var s' := CopyStep(env, job, s, e, c);
            && s.d.clock < s'.d.clock
            && (s'.outcome == Failed(CopyChunkFailed(e, c)) <==> ChunkRefused(env, job, s.d, e, c))
            && (ChunkRefused(env, job, s.d, e, c) ==> s'.d == AfterRefusals(env, job, s.d, e, c) && s'.bits == s.bits)
            && (s'.d.copies > s.d.copies ==>
                  && (s'.outcome == Failed(CheckpointError) <==> job.checkpointing && env.fault(s'.d.clock - 1).Fail?)
                  && (s'.outcome.Running? <==> !job.checkpointing || env.fault(s'.d.clock - 1).Fine?))
            && (s'.outcome.Running? ==> s'.d.copies > s.d.copies)
            && (s'.outcome.Failed? ==> s'.outcome.error == CopyChunkFailed(e, c) || s'.outcome.error == CheckpointError)
  {
    hide CopyAttempts, AllRefused, AfterAttempts, WithBit, TotalSize;
    OffsetIsProduct(job.chunkSize, c);
    RefusedExactly(env, s.d, job.Source(e), job.Dest(e), Offset(job.chunkSize, c), job.Len(e, c),
                   job.files[e].chunkHashes[c], job.Retries());
    AttemptTicks(env, s.d, job.Source(e), job.Dest(e), Offset(job.chunkSize, c), job.Len(e, c),
                 job.files[e].chunkHashes[c], job.Retries());
  }

  /** A marked chunk is read back first. If that cannot be done the run stops with "verify"; if the chunk is
      as it should be nothing happens; and otherwise it is copied like one that was not marked. */
  lemma MarkedChunk(env: Env, job: Job, s: RunState, e: nat, c: nat)
    requires e < |job.files| == |s.bits| && c < |job.files[e].chunkHashes| && s.outcome.Running?
    requires job.Len(e, c) > 0 && GetBit(s.bits[e], c)
    ensures var s' := ChunkStep(env, job, s, e, c);
            var fault, f, off, len := env.fault(s.d.clock), Existing(s.d.files, job.Dest(e)), Offset(job.chunkSize, c), job.Len(e, c);
            && (s'.outcome == Failed(VerifyError(e, c)) <==> fault.Fail? || (fault.Fine? && |f| < off + len))
            && (fault.Fail? || (fault.Fine? && |f| < off + len) ==> s' == s.(d := s'.d, outcome := s'.outcome) && s'.d == Tick(s.d))
            && (fault.Fine? && off + len <= |f| ==>
                  if Hash(f[off..off + len]) == job.files[e].chunkHashes[c] then s' == s.(d := Tick(s.d))
                  else s' == CopyStep(env, job, Cleared(job, s, Tick(s.d), e, c), e, c))
  {
    hide CopyStep, WithBit;
    var s' := ChunkStep(env, job, s, e, c);
    var d, check := Tick(s.d), VerifyChunkAt(env, s.d, job.Dest(e), Offset(job.chunkSize, c), job.Len(e, c),
                                             job.files[e].chunkHashes[c]).1;
    if check.Mismatch? {
      CopyErrors(env, job, Cleared(job, s, d, e, c), e, c);
    }
  }

  lemma CopyErrors(env: Env, job: Job, s: RunState, e: nat, c: nat)
    requires e < |job.files| == |s.bits| && c < |job.files[e].chunkHashes| && s.outcome.Running?
    ensures CopyStep(env, job, s, e, c).outcome != Failed(VerifyError(e, c))
  {
    hide CopyStep;
    GivesUpExactly(env, job, s, e, c);
  }

  /** The check at the end of an entry: an error if the target could not be hashed, another if it has a
      different hash. */
  lemma CheckErrors(env: Env, job: Job, s: RunState, e: nat)
    requires e < |job.files| == |s.bits| && s.outcome.Running? && job.Dest(e) in s.d.files && job.chunkSize > 0
    ensures var s' := CheckFile(env, job, s, e);
            && s.d.clock < s'.d.clock
            && var last, same := env.fault(s'.d.clock - 1), Hash(s.d.files[job.Dest(e)]) == job.files[e].fileHash;
               && (s'.outcome == Failed(HashError(e)) <==> last.Fail?)
               && (s'.outcome == Failed(FileHashMismatch(e)) <==> last.Fine? && !same)
               && (s'.outcome.Running? <==> last.Fine? && same)
  {
    hide HashFile;
    HashFileTicks(env, s.d.clock, Some(s.d.files[job.Dest(e)]), job.chunkSize);
    HashFileWhole(env, s.d.clock, s.d.files[job.Dest(e)], job.chunkSize);
  }

  /** The first call of a run and the last save. */
  lemma FirstAndLastCall(env: Env, job: Job, d: DiskState, bits: seq<Bits>)
    requires |bits| == |job.files|
    ensures var s := Execute(env, job, d, bits);
            && (env.fault(d.clock).Fail? ==> s == RunState(Tick(d), bits, 0, 0, [], Failed(TargetRootError)))
            && (env.fault(d.clock).Fine? <==> s.events != [])
    ensures var s0 := EntryLoop(env, job, Start(job, MakeDir(env, d).0, bits), 0);
            env.fault(d.clock).Fine? && s0.outcome.Running? ==>
              var s := Execute(env, job, d, bits);
              && (s.outcome.Finished? <==> !job.checkpointing || env.fault(s0.d.clock).Fine?)
              && (s.outcome == Failed(CheckpointError) <==> job.checkpointing && env.fault(s0.d.clock).Fail?)
              && s.d.files == s0.d.files && s.bits == s0.bits
  {
    hide EntryLoop;
    EntryLoopWorks(env, job, Start(job, MakeDir(env, d).0, bits), 0);
  }

  // ---------------------------------------------------------------- giving up, over a whole run

  /** If `s` has given up on a chunk, then on a disk from which every attempt at it was refused. */
  ghost predicate GaveUpRightly(env: Env, job: Job, s: RunState) {
    s.outcome.Failed? && s.outcome.error.CopyChunkFailed? ==>
      var e, c := s.outcome.error.e, s.outcome.error.c;
      && e < |job.files| && c < |job.files[e].chunkHashes|
      && exists d :: ChunkRefused(env, job, d, e, c) && s.d == AfterRefusals(env, job, d, e, c)
  }

  lemma CopyGaveUp(env: Env, job: Job, s: RunState, e: nat, c: nat)
    requires e < |job.files| == |s.bits| && c < |job.files[e].chunkHashes| && s.outcome.Running?
    ensures GaveUpRightly(env, job, CopyStep(env, job, s, e, c))
  {
    hide CopyStep, ChunkRefused, AfterRefusals;
    GivesUpExactly(env, job, s, e, c);
  }

  lemma ChunkGaveUp(env: Env, job: Job, s: RunState, e: nat, c: nat)
    requires e < |job.files| == |s.bits| && c < |job.files[e].chunkHashes| && s.outcome.Running?
    ensures GaveUpRightly(env, job, ChunkStep(env, job, s, e, c))
  {
    hide CopyStep, ChunkRefused, AfterRefusals, WithBit, ReadExact;
    var d := VerifyChunkAt(env, s.d, job.Dest(e), Offset(job.chunkSize, c), job.Len(e, c), job.files[e].chunkHashes[c]).0;
    CopyGaveUp(env, job, s, e, c);
    CopyGaveUp(env, job, Cleared(job, s, d, e, c), e, c);
  }

  lemma {:induction false} ChunkLoopGaveUp(env: Env, job: Job, s: RunState, e: nat, c: nat)
    requires e < |job.files| == |s.bits| && c <= |job.files[e].chunkHashes| && GaveUpRightly(env, job, s)
    ensures GaveUpRightly(env, job, ChunkLoop(env, job, s, e, c))
    decreases |job.files[e].chunkHashes| - c
  {
    hide ChunkStep, GaveUpRightly;
    if s.outcome.Running? && c < |job.files[e].chunkHashes| {
      ChunkGaveUp(env, job, s, e, c);
      ChunkLoopGaveUp(env, job, ChunkStep(env, job, s, e, c), e, c + 1);
    }
  }

  lemma EntryGaveUp(env: Env, job: Job, s: RunState, e: nat)
    requires e < |job.files| == |s.bits| && s.outcome.Running?
    ensures GaveUpRightly(env, job, EntryStep(env, job, s, e))
  {
    hide ChunkLoop, ChunkRefused, AfterRefusals, HashFile;
    var (d, outcome) := OpenEntry(env, job, s.d, e);
    ChunkLoopGaveUp(env, job, s.(d := d, outcome := outcome), e, 0);
  }

  lemma {:induction false} EntryLoopGaveUp(env: Env, job: Job, s: RunState, e: nat)
    requires e <= |job.files| == |s.bits| && GaveUpRightly(env, job, s)
    ensures GaveUpRightly(env, job, EntryLoop(env, job, s, e))
    decreases |job.files| - e
  {
    hide EntryStep, GaveUpRightly;
    if s.outcome.Running? && e < |job.files| {
      EntryGaveUp(env, job, s, e);
      EntryLoopGaveUp(env, job, EntryStep(env, job, s, e), e + 1);
    }
  }

  /** A run that ends in "copy chunk failed" has made all its attempts at that chunk, every one was refused,
      and they were the last thing it did. */
  lemma GivesUpOnlyWhenRefused(env: Env, job: Job, d: DiskState, bits: seq<Bits>)
    requires |bits| == |job.files|
    ensures GaveUpRightly(env, job, Execute(env, job, d, bits))
  {
    hide EntryLoop, ChunkRefused, AfterRefusals;
    EntryLoopGaveUp(env, job, Start(job, MakeDir(env, d).0, bits), 0);
  }

  // ---------------------------------------------------------------- a source that was edited after the build

  /** Chunk `c` of entry `e` can be had: the source still has it, or it is marked and already in its place in
      the target, brought to its final length. */
  ghost predicate Available(job: Job, snap: seq<Bytes>, now: seq<Bytes>, files: map<Path, Bytes>, bits: seq<Bits>, e: nat, c: nat)
    requires |job.files| == |snap| == |now| == |bits| && e < |job.files|
  {
    || ChunkAgrees(now[e], snap[e], job.chunkSize, c)
    || (GetBit(bits[e], c) && ChunkAgrees(SetLen(Existing(files, job.Dest(e)), job.files[e].size), snap[e], job.chunkSize, c))
  }

  lemma {:induction false} EditedAttempts(env: Env, d: DiskState, src: Path, dst: Path, off: nat, len: nat, chunk: Bytes,
                                          now: Bytes, n: nat)
    requires FaultFree(env) && Stable(env, src, now) && n > 0
    ensures CopyAttempts(env, d, src, dst, off, len, Hash(chunk), n).1
         == if ReadExact(now, off, len) == Some(chunk) then Done else Refused
    decreases n
  {
    hide WriteAt;
    var (d1, first) := CopyChunk(env, d, src, dst, off, len, Hash(chunk));
    if first.Refused? && n > 1 {
      EditedAttempts(env, d1, src, dst, off, len, chunk, now, n - 1);
    }
  }

  lemma EditedCopy(env: Env, job: Job, snap: seq<Bytes>, now: seq<Bytes>, s: RunState, e: nat, c: nat)
    requires Ready(job, snap) && |now| == |snap| == |s.bits| && FaultFree(env) && SourceHolds(env, job, now)
    requires e < |job.files| && c < |job.files[e].chunkHashes| && s.outcome.Running?
    ensures CopyStep(env, job, s, e, c).outcome
         == if ChunkAgrees(now[e], snap[e], job.chunkSize, c) then Running else Failed(CopyChunkFailed(e, c))
  {
    hide CopyAttempts, WithBit, TotalSize;
    ChunkInFile(job, snap, e, c);
    EditedAttempts(env, s.d, job.Source(e), job.Dest(e), Offset(job.chunkSize, c), job.Len(e, c),
                   Chunk(snap[e], job.chunkSize, c), now[e], job.Retries());
  }

  /** What a chunk turn comes to when no call fails: `s0` is the entry as it was opened. */
  lemma EditedChunk(env: Env, job: Job, snap: seq<Bytes>, now: seq<Bytes>, s0: RunState, s: RunState, e: nat, c: nat)
    requires Ready(job, snap) && |now| == |snap| && FaultFree(env) && SourceHolds(env, job, now)
    requires e < |job.files| && c < |job.files[e].chunkHashes| && ChunkHead(job, snap, s0, s, e, c)
    ensures ChunkStep(env, job, s, e, c).outcome
         == if ChunkAgrees(now[e], snap[e], job.chunkSize, c) || (GetBit(s0.bits[e], c) && ChunkRight(job, snap, s0.d.files, e, c))
            then Running else Failed(CopyChunkFailed(e, c))
  {
    hide CopyStep, WithBit;
    ChunkInFile(job, snap, e, c);
    assert ChunkKept(job, s0, s, e, c);
    var d := VerifyChunkAt(env, s.d, job.Dest(e), Offset(job.chunkSize, c), job.Len(e, c), job.files[e].chunkHashes[c]).0;
    EditedCopy(env, job, snap, now, s, e, c);
    EditedCopy(env, job, snap, now, Cleared(job, s, d, e, c), e, c);
  }

  /** Chunks of entry `e` that can be had from the entry as it was opened. */
  ghost predicate HasChunk(job: Job, snap: seq<Bytes>, now: seq<Bytes>, s0: RunState, e: nat, c: nat)
    requires |job.files| == |snap| == |now| == |s0.bits| && e < |job.files|
  {
    ChunkAgrees(now[e], snap[e], job.chunkSize, c) || (GetBit(s0.bits[e], c) && ChunkRight(job, snap, s0.d.files, e, c))
  }

  /** How the loop over the chunks from `c` on ends when no call fails. */
  ghost predicate EditedChunks(job: Job, snap: seq<Bytes>, now: seq<Bytes>, s0: RunState, e: nat, c: nat, outcome: Outcome)
    requires |job.files| == |snap| == |now| == |s0.bits| && e < |job.files|
  {
    var n := |job.files[e].chunkHashes|;
    || (outcome.Running? && forall k: nat :: c <= k < n ==> HasChunk(job, snap, now, s0, e, k))
    || exists k: nat :: c <= k < n && outcome == Failed(CopyChunkFailed(e, k)) && !HasChunk(job, snap, now, s0, e, k)
                        && forall j: nat :: c <= j < k ==> HasChunk(job, snap, now, s0, e, j)
  }

  lemma EditedChunksMore(job: Job, snap: seq<Bytes>, now: seq<Bytes>, s0: RunState, e: nat, c: nat, outcome: Outcome)
    requires |job.files| == |snap| == |now| == |s0.bits| && e < |job.files| && c < |job.files[e].chunkHashes|
    ensures !HasChunk(job, snap, now, s0, e, c) ==> EditedChunks(job, snap, now, s0, e, c, Failed(CopyChunkFailed(e, c)))
    ensures HasChunk(job, snap, now, s0, e, c) && EditedChunks(job, snap, now, s0, e, c + 1, outcome) ==>
              EditedChunks(job, snap, now, s0, e, c, outcome)
  {
    hide HasChunk;
  }

  lemma EditedChunksReached(job: Job, snap: seq<Bytes>, now: seq<Bytes>, s0: RunState, e: nat)
    requires |job.files| == |snap| == |now| == |s0.bits| && e < |job.files|
    ensures EditedChunks(job, snap, now, s0, e, |job.files[e].chunkHashes|, Running)
  {
  }

  lemma EditedTurn(env: Env, job: Job, snap: seq<Bytes>, now: seq<Bytes>, s0: RunState, s: RunState, e: nat, c: nat)
    requires Ready(job, snap) && |now| == |snap| == |s0.bits| && FaultFree(env) && SourceHolds(env, job, now)
    requires e < |job.files| && c < |job.files[e].chunkHashes| && ChunkHead(job, snap, s0, s, e, c)
    ensures s.outcome.Running? && |s.bits| == |job.files|
    ensures var next := ChunkStep(env, job, s, e, c);
            if next.outcome.Running? then HasChunk(job, snap, now, s0, e, c) && ChunkHead(job, snap, s0, next, e, c + 1)
            else EditedChunks(job, snap, now, s0, e, c, next.outcome)
  {
    HeadRuns(job, snap, s0, s, e, c);
    hide ChunkStep, ChunkHead, ChunkStopped, EditedChunks, ChunkAgrees, ChunkRight;
    EditedChunk(env, job, snap, now, s0, s, e, c);
    ChunkStepRuns(env, job, snap, s0, s, e, c);
    EditedChunksMore(job, snap, now, s0, e, c, Running);
  }

  lemma {:induction false} EditedChunkLoop(env: Env, job: Job, snap: seq<Bytes>, now: seq<Bytes>, s0: RunState, s: RunState, e: nat, c: nat)
    requires Ready(job, snap) && |now| == |snap| == |s0.bits| == |job.files| && FaultFree(env) && SourceHolds(env, job, now)
    requires e < |job.files| && c <= |job.files[e].chunkHashes| && ChunkHead(job, snap, s0, s, e, c)
    ensures EditedChunks(job, snap, now, s0, e, c, ChunkLoop(env, job, s, e, c).outcome)
    decreases |job.files[e].chunkHashes| - c
  {
    hide ChunkStep, ChunkHead, EditedChunks, HasChunk, Ready, SourceHolds, FaultFree;
    HeadRuns(job, snap, s0, s, e, c);
    if c == |job.files[e].chunkHashes| {
      EditedChunksReached(job, snap, now, s0, e);
      assert s.outcome == Running && ChunkLoop(env, job, s, e, c) == s;
    } else {
      EditedTurn(env, job, snap, now, s0, s, e, c);
      var next := ChunkStep(env, job, s, e, c);
      if next.outcome.Running? {
        EditedChunkLoop(env, job, snap, now, s0, next, e, c + 1);
        EditedChunksMore(job, snap, now, s0, e, c, ChunkLoop(env, job, next, e, c + 1).outcome);
        assert ChunkLoop(env, job, s, e, c) == ChunkLoop(env, job, next, e, c + 1);
      } else {
        assert ChunkLoop(env, job, s, e, c) == next;
      }
    }
  }

  lemma HeadRuns(job: Job, snap: seq<Bytes>, s0: RunState, s: RunState, e: nat, c: nat)
    requires e < |job.files| == |snap| && ChunkHead(job, snap, s0, s, e, c)
    ensures s.outcome.Running? && |s.bits| == |job.files|
  {
  }

  /** What can be had once the entry is open is what could be had before the run. */
  lemma HasWhatIsAvailable(job: Job, snap: seq<Bytes>, now: seq<Bytes>, start: RunState, s: RunState, s0: RunState, e: nat, c: nat)
    requires Ready(job, snap) && |now| == |snap| == |start.bits| == |s.bits| == |s0.bits| && e < |job.files|
    requires EntryUntouched(job, start, s, e) && s0.bits == s.bits
    requires Existing(s0.d.files, job.Dest(e)) == SetLen(Existing(s.d.files, job.Dest(e)), job.files[e].size)
    ensures HasChunk(job, snap, now, s0, e, c) <==> Available(job, snap, now, start.d.files, start.bits, e, c)
  {
    hide ChunkAgrees, SetLen;
  }

  /** The first chunk of entry `e` that cannot be had is `c`. */
  ghost predicate FirstMissing(job: Job, snap: seq<Bytes>, now: seq<Bytes>, files: map<Path, Bytes>, bits: seq<Bits>, e: nat, c: nat)
    requires |job.files| == |snap| == |now| == |bits| && e < |job.files|
  {
    && c < |job.files[e].chunkHashes| && !Available(job, snap, now, files, bits, e, c)
    && forall k: nat :: k < c ==> Available(job, snap, now, files, bits, e, k)
  }

  ghost predicate AllAvailable(job: Job, snap: seq<Bytes>, now: seq<Bytes>, files: map<Path, Bytes>, bits: seq<Bits>, e: nat)
    requires |job.files| == |snap| == |now| == |bits| && e < |job.files|
  {
    forall k: nat :: k < |job.files[e].chunkHashes| ==> Available(job, snap, now, files, bits, e, k)
  }

  lemma EditedEntry(env: Env, job: Job, snap: seq<Bytes>, now: seq<Bytes>, start: RunState, s: RunState, e: nat)
    requires Ready(job, snap) && |now| == |snap| && FaultFree(env) && SourceHolds(env, job, now)
    requires e < |job.files| && EntryHead(job, snap, start, s, e) && |start.bits| == |job.files|
    ensures var outcome := EntryStep(env, job, s, e).outcome;
            || (outcome.Running? && AllAvailable(job, snap, now, start.d.files, start.bits, e))
            || exists c: nat :: outcome == Failed(CopyChunkFailed(e, c)) && FirstMissing(job, snap, now, start.d.files, start.bits, e, c)
  {
    OpenEntryEffect(env, job, snap, s.d, e);
    OpenEntryErrors(env, job, s.d, e);
    var (d, outcome) := OpenEntry(env, job, s.d, e);
    var s0 := s.(d := d, outcome := outcome);
    assert outcome.Running?;
    OpenedEntry(job, snap, start, s, d, e);
    assert s0 == s.(d := d);
    ChunkLoopRuns(env, job, snap, s0, s0, e, 0);
    EditedChunkLoop(env, job, snap, now, s0, s0, e, 0);
    forall k: nat
      ensures HasChunk(job, snap, now, s0, e, k) <==> Available(job, snap, now, start.d.files, start.bits, e, k)
    {
      HasWhatIsAvailable(job, snap, now, start, s, s0, e, k);
    }
    var looped := ChunkLoop(env, job, s0, e, 0);
    if looped.outcome.Running? {
      ChunkLoopFinished(job, snap, s0, looped, e);
      CheckFileRuns(env, job, snap, looped, e);
    } else {
      var c: nat :| looped.outcome == Failed(CopyChunkFailed(e, c)) && !HasChunk(job, snap, now, s0, e, c)
                    && c < |job.files[e].chunkHashes| && forall j: nat :: j < c ==> HasChunk(job, snap, now, s0, e, j);
      assert FirstMissing(job, snap, now, start.d.files, start.bits, e, c);
    }
  }

  /** How the loop over the entries from `e` on ends when no call fails. */
  ghost predicate EditedEnd(job: Job, snap: seq<Bytes>, now: seq<Bytes>, files: map<Path, Bytes>, bits: seq<Bits>, e: nat, outcome: Outcome)
    requires |job.files| == |snap| == |now| == |bits| && e <= |job.files|
  {
    || (outcome.Running? && forall k: nat :: e <= k < |job.files| ==> AllAvailable(job, snap, now, files, bits, k))
    || exists k: nat, c: nat :: e <= k < |job.files|
         && outcome == Failed(CopyChunkFailed(k, c)) && FirstMissing(job, snap, now, files, bits, k, c)
         && forall j: nat :: e <= j < k ==> AllAvailable(job, snap, now, files, bits, j)
  }

  lemma EditedEndStops(job: Job, snap: seq<Bytes>, now: seq<Bytes>, files: map<Path, Bytes>, bits: seq<Bits>, e: nat, c: nat)
    requires |job.files| == |snap| == |now| == |bits| && e < |job.files| && FirstMissing(job, snap, now, files, bits, e, c)
    ensures EditedEnd(job, snap, now, files, bits, e, Failed(CopyChunkFailed(e, c)))
  {
    hide AllAvailable, FirstMissing;
  }

  lemma EditedEndOn(job: Job, snap: seq<Bytes>, now: seq<Bytes>, files: map<Path, Bytes>, bits: seq<Bits>, e: nat, outcome: Outcome)
    requires |job.files| == |snap| == |now| == |bits| && e < |job.files|
    requires AllAvailable(job, snap, now, files, bits, e) && EditedEnd(job, snap, now, files, bits, e + 1, outcome)
    ensures EditedEnd(job, snap, now, files, bits, e, outcome)
  {
    hide AllAvailable, FirstMissing;
  }

  lemma EditedEndReached(job: Job, snap: seq<Bytes>, now: seq<Bytes>, files: map<Path, Bytes>, bits: seq<Bits>)
    requires |job.files| == |snap| == |now| == |bits|
    ensures EditedEnd(job, snap, now, files, bits, |job.files|, Running)
  {
  }

  lemma EditedEntryTurn(env: Env, job: Job, snap: seq<Bytes>, now: seq<Bytes>, start: RunState, s: RunState, e: nat)
    requires Ready(job, snap) && |now| == |snap| && FaultFree(env) && SourceHolds(env, job, now)
    requires e < |job.files| && EntryHead(job, snap, start, s, e) && |start.bits| == |job.files|
    ensures var next := EntryStep(env, job, s, e);
            if next.outcome.Running?
            then AllAvailable(job, snap, now, start.d.files, start.bits, e) && EntryHead(job, snap, start, next, e + 1)
            else EditedEnd(job, snap, now, start.d.files, start.bits, e, next.outcome)
  {
    EntryHeadRuns(env, job, snap, start, s, e);
    hide EntryStep, EntryHead, EntryStopped, AllAvailable, FirstMissing, EditedEnd;
    EditedEntry(env, job, snap, now, start, s, e);
    EntryStepRuns(env, job, snap, start, s, e);
    var next := EntryStep(env, job, s, e);
    if !next.outcome.Running? {
      var c: nat :| next.outcome == Failed(CopyChunkFailed(e, c)) && FirstMissing(job, snap, now, start.d.files, start.bits, e, c);
      EditedEndStops(job, snap, now, start.d.files, start.bits, e, c);
    }
  }

  lemma EditedLoopOn(env: Env, job: Job, snap: seq<Bytes>, now: seq<Bytes>, files: map<Path, Bytes>, bits: seq<Bits>, s: RunState, e: nat)
    requires |job.files| == |snap| == |now| == |bits| == |s.bits| && e < |job.files| && s.outcome.Running?
    requires AllAvailable(job, snap, now, files, bits, e)
    requires EditedEnd(job, snap, now, files, bits, e + 1, EntryLoop(env, job, EntryStep(env, job, s, e), e + 1).outcome)
    ensures EditedEnd(job, snap, now, files, bits, e, EntryLoop(env, job, s, e).outcome)
  {
    hide EntryStep, AllAvailable, EditedEnd;
    EditedEndOn(job, snap, now, files, bits, e, EntryLoop(env, job, EntryStep(env, job, s, e), e + 1).outcome);
  }

  lemma {:induction false} EditedLoop(env: Env, job: Job, snap: seq<Bytes>, now: seq<Bytes>, start: RunState, s: RunState, e: nat)
    requires Ready(job, snap) && |now| == |snap| == |job.files| && FaultFree(env) && SourceHolds(env, job, now)
    requires e <= |job.files| && EntryHead(job, snap, start, s, e) && |start.bits| == |job.files|
    ensures EditedEnd(job, snap, now, start.d.files, start.bits, e, EntryLoop(env, job, s, e).outcome)
    decreases |job.files| - e
  {
    hide EntryStep, EntryHead, EntryLoopEnd, EditedEnd, AllAvailable, Ready, SourceHolds, FaultFree;
    EntryHeadRuns(env, job, snap, start, s, e);
    if e == |job.files| {
      EditedEndReached(job, snap, now, start.d.files, start.bits);
      assert s.outcome == Running && EntryLoop(env, job, s, e) == s;
    } else {
      EditedEntryTurn(env, job, snap, now, start, s, e);
      var next := EntryStep(env, job, s, e);
      if next.outcome.Running? {
        EditedLoop(env, job, snap, now, start, next, e + 1);
        EditedLoopOn(env, job, snap, now, start.d.files, start.bits, s, e);
      } else {
        assert EntryLoop(env, job, s, e) == next;
      }
    }
  }

  /** A run in which no call fails, but whose source may have been edited since the build: it returns Ok
      exactly when every chunk can be had, and otherwise it gives up on the first one that cannot. */
  lemma EditedSource(env: Env, job: Job, snap: seq<Bytes>, now: seq<Bytes>, d: DiskState, bits: seq<Bits>)
    requires Ready(job, snap) && Covered(job, bits) && |now| == |snap| && FaultFree(env) && SourceHolds(env, job, now)
    ensures var outcome := Execute(env, job, d, bits).outcome;
            if forall e: nat :: e < |job.files| ==> AllAvailable(job, snap, now, d.files, bits, e) then outcome.Finished?
            else exists e: nat, c: nat ::
                   e < |job.files| && outcome == Failed(CopyChunkFailed(e, c)) && FirstMissing(job, snap, now, d.files, bits, e, c)
                   && forall j: nat :: j < e ==> AllAvailable(job, snap, now, d.files, bits, j)
  {
    hide EntryLoop, AllAvailable;
    var d1 := MakeDir(env, d).0;
    StartIsHead(job, snap, d1, bits);
    EditedLoop(env, job, snap, now, Start(job, d1, bits), Start(job, d1, bits), 0);
    var s := EntryLoop(env, job, Start(job, d1, bits), 0);
    if !s.outcome.Running? {
      var e: nat, c: nat :| e < |job.files| && s.outcome == Failed(CopyChunkFailed(e, c))
                            && FirstMissing(job, snap, now, d.files, bits, e, c)
                            && forall j: nat :: j < e ==> AllAvailable(job, snap, now, d.files, bits, j);
      MissingIsNotAll(job, snap, now, d.files, bits, e, c);
    }
  }

  lemma MissingIsNotAll(job: Job, snap: seq<Bytes>, now: seq<Bytes>, files: map<Path, Bytes>, bits: seq<Bits>, e: nat, c: nat)
    requires |job.files| == |snap| == |now| == |bits| && e < |job.files| && FirstMissing(job, snap, now, files, bits, e, c)
    ensures !AllAvailable(job, snap, now, files, bits, e)
  {
  }
}
