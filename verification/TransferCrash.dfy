/** Runs that are interrupted and started again from the checkpoint. */
module TransferCrash {
  import opened FileBytes
  import opened Bitmap
  import opened Device
  import opened Manifest
  import opened Transfer
  import opened TransferSafety

  /** Every bit that is set marks a chunk whose target bytes are right. */
  ghost predicate Sound(job: Job, snap: seq<Bytes>, files: map<Path, Bytes>, bits: seq<Bits>)
    requires |job.files| == |snap| == |bits|
  {
    forall e: nat, c: nat :: e < |job.files| && c < |job.files[e].chunkHashes| && GetBit(bits[e], c) ==>
      ChunkRight(job, snap, files, e, c)
  }

  /** Every bit set in `b` is set in `bits`. */
  ghost predicate Within(job: Job, b: seq<Bits>, bits: seq<Bits>)
    requires |b| == |bits| == |job.files|
  {
    forall e: nat, c: nat :: e < |job.files| && c < |job.files[e].chunkHashes| && GetBit(b[e], c) ==> GetBit(bits[e], c)
  }

  function Marked(job: Job, bits: seq<Bits>): nat
    requires |bits| == |job.files|
  {
    Tally(InChunks, job.files, job.chunkSize, bits, |job.files|)
  }

  /** How many chunks a restart would find marked. */
  function MarkedIn(job: Job, checkpoint: Checkpoint): nat {
    if checkpoint.Readable? && |checkpoint.bits| == |job.files| then Marked(job, checkpoint.bits) else 0
  }

  /** Bits in memory are sound, and the checkpoint claims no more than they do. */
  ghost predicate Trusty(job: Job, snap: seq<Bytes>, s: RunState)
    requires |job.files| == |snap|
  {
    && Covered(job, s.bits)
    && Sound(job, snap, s.d.files, s.bits)
    && (s.d.checkpoint.Readable? ==> Covered(job, s.d.checkpoint.bits) && Within(job, s.d.checkpoint.bits, s.bits))
  }

  /** While the run is going, the checkpoint counts as many chunks as memory does; once it has stopped,
      at most one fewer, unless this run tore it. */
  ghost predicate Saved(job: Job, s0: RunState, s: RunState)
    requires |s.bits| == |job.files|
  {
    && (s.outcome.Running? ==> Marked(job, s.bits) == MarkedIn(job, s.d.checkpoint))
    && (s.outcome.Finished? ==> s.d.checkpoint == Readable(s.bits))
    && (s.d.torn == s0.d.torn ==> Marked(job, s.bits) <= MarkedIn(job, s.d.checkpoint) + 1)
  }

  /** A save that is torn is the last one of its run, which then does not return Ok. */
  ghost predicate TornOnce(env: Env, s0: RunState, s: RunState)
  {
    && s0.d.torn <= s.d.torn <= s0.d.torn + 1
    && (s.outcome.Running? || s.outcome.Finished? || NeverTorn(env) ==> s.d.torn == s0.d.torn)
  }

  /** What holds at every moment of a run that started as `s0` with sound bits. Each copied chunk
      is one more marked chunk: nothing is copied twice. */
  ghost predicate Crashproof(env: Env, job: Job, snap: seq<Bytes>, s0: RunState, s: RunState)
    requires |job.files| == |snap|
  {
    && |s0.bits| == |job.files|
    && Trusty(job, snap, s)
    && Saved(job, s0, s)
    && TornOnce(env, s0, s)
    && s.d.copies + Marked(job, s0.bits) == s0.d.copies + Marked(job, s.bits)
  }

  /** Chunks stay right under a change that keeps their bytes. */
  lemma SoundAfterPatch(job: Job, snap: seq<Bytes>, files: map<Path, Bytes>, files': map<Path, Bytes>, bits: seq<Bits>, e: nat, c: nat)
    requires Ready(job, snap) && |bits| == |job.files| && Sound(job, snap, files, bits)
    requires e < |job.files| && c < |job.files[e].chunkHashes| && !GetBit(bits[e], c)
    requires SameExcept(files, files', job.Dest(e))
    requires Patched(Existing(files, job.Dest(e)), Existing(files', job.Dest(e)), Offset(job.chunkSize, c), job.Len(e, c))
    ensures Sound(job, snap, files', bits)
  {
    forall i: nat, k: nat | i < |job.files| && k < |job.files[i].chunkHashes| && GetBit(bits[i], k)
      ensures ChunkRight(job, snap, files', i, k)
    {
      assert ChunkRight(job, snap, files, i, k);
      if i == e {
        RightAfterPatch(job, snap, files, files', e, c, k);
      } else {
        RightElsewhere(job, snap, files, files', e, i, k);
      }
    }
  }

  lemma RightElsewhere(job: Job, snap: seq<Bytes>, files: map<Path, Bytes>, files': map<Path, Bytes>, e: nat, i: nat, k: nat)
    requires Ready(job, snap) && e < |job.files| && i < |job.files| && i != e
    requires SameExcept(files, files', job.Dest(e)) && ChunkRight(job, snap, files, i, k)
    ensures ChunkRight(job, snap, files', i, k)
  {
    DestDistinct(job, snap, i, e);
    assert SameAt(files, files', job.Dest(i));
  }

  lemma RightAfterPatch(job: Job, snap: seq<Bytes>, files: map<Path, Bytes>, files': map<Path, Bytes>, e: nat, c: nat, k: nat)
    requires Ready(job, snap) && e < |job.files| && c < |job.files[e].chunkHashes| && k < |job.files[e].chunkHashes| && k != c
    requires Patched(Existing(files, job.Dest(e)), Existing(files', job.Dest(e)), Offset(job.chunkSize, c), job.Len(e, c))
    requires ChunkRight(job, snap, files, e, k)
    ensures ChunkRight(job, snap, files', e, k)
  {
    assert Built(job.files[e], snap[e], job.chunkSize);
    if k < c {
      ChunkRanges(job.files[e].size, job.chunkSize, k, c);
    } else {
      ChunkRanges(job.files[e].size, job.chunkSize, c, k);
    }
    PatchedElsewhere(Existing(files, job.Dest(e)), Existing(files', job.Dest(e)),
                     Offset(job.chunkSize, c), job.Len(e, c), Offset(job.chunkSize, k), job.Len(e, k));
  }

  lemma SoundAfterMark(job: Job, snap: seq<Bytes>, files: map<Path, Bytes>, bits: seq<Bits>, e: nat, c: nat)
    requires Ready(job, snap) && |bits| == |job.files| && Sound(job, snap, files, bits)
    requires e < |job.files| && c < |job.files[e].chunkHashes| && ChunkRight(job, snap, files, e, c)
    ensures Sound(job, snap, files, bits[e := WithBit(bits[e], c, true)])
  {
    forall i: nat, k: nat | i < |job.files| && k < |job.files[i].chunkHashes| && GetBit(bits[e := WithBit(bits[e], c, true)][i], k)
      ensures ChunkRight(job, snap, files, i, k)
    {
      GetAfterSet(bits[e], c, true, k);
    }
  }

  lemma WithinAfterMark(job: Job, b: seq<Bits>, bits: seq<Bits>, e: nat, c: nat)
    requires |b| == |bits| == |job.files| && e < |job.files| && Within(job, b, bits)
    ensures Within(job, b, bits[e := WithBit(bits[e], c, true)])
  {
    forall i: nat, k: nat | i < |job.files| && k < |job.files[i].chunkHashes| && GetBit(b[i], k)
      ensures GetBit(bits[e := WithBit(bits[e], c, true)][i], k)
    {
      assert GetBit(bits[i], k);
      GetAfterSet(bits[e], c, true, k);
    }
  }

  lemma MarkOne(job: Job, bits: seq<Bits>, e: nat, c: nat)
    requires Covered(job, bits) && e < |job.files| && c < |job.files[e].chunkHashes| && !GetBit(bits[e], c)
    ensures Covered(job, bits[e := WithBit(bits[e], c, true)])
    ensures Marked(job, bits[e := WithBit(bits[e], c, true)]) == Marked(job, bits) + 1
  {
    TallyUpdate(InChunks, job.files, job.chunkSize, bits, e, c, true, |job.files|);
  }

  /** The target of the entry being worked on exists and has its final length. */
  ghost predicate Sized(job: Job, s: RunState, e: nat)
    requires e < |job.files|
  {
    job.Dest(e) in s.d.files && |s.d.files[job.Dest(e)]| == job.files[e].size
  }

  lemma RecordCopySafe(env: Env, job: Job, snap: seq<Bytes>, s0: RunState, s: RunState, s': RunState, e: nat, c: nat)
    requires Ready(job, snap) && job.checkpointing && e < |job.files| && c < |job.files[e].chunkHashes|
    requires Crashproof(env, job, snap, s0, s) && s.outcome.Running? && !GetBit(s.bits[e], c)
    requires s'.outcome.Running? && s' == s.(d := s'.d) && s'.d.copies == s.d.copies + 1 && s'.d.checkpoint == s.d.checkpoint
    requires s'.d.torn == s.d.torn
    requires Sound(job, snap, s'.d.files, s.bits) && ChunkRight(job, snap, s'.d.files, e, c)
    ensures Crashproof(env, job, snap, s0, RecordCopy(env, job, s', e, c))
  {
    SoundAfterMark(job, snap, s'.d.files, s.bits, e, c);
    MarkOne(job, s.bits, e, c);
    if s.d.checkpoint.Readable? {
      WithinAfterMark(job, s.d.checkpoint.bits, s.bits, e, c);
    }
    hide Sound, Covered, Within, Marked;
    var marked := s'.(bits := s.bits[e := WithBit(s.bits[e], c, true)]);
    var (d, reply) := Save(env, marked.d, marked.bits);
    SaveSafe(env, job, snap, marked);
    var r := RecordCopy(env, job, s', e, c);
    assert r.d == d && r.bits == marked.bits;
    assert Trusty(job, snap, r);
  }

  /** Whatever becomes of a save, the checkpoint claims no more than memory does. */
  lemma SaveSafe(env: Env, job: Job, snap: seq<Bytes>, s: RunState)
    requires |job.files| == |snap| && Trusty(job, snap, s)
    ensures Trusty(job, snap, s.(d := Save(env, s.d, s.bits).0))
  {
  }

  lemma CopyStepSafe(env: Env, job: Job, snap: seq<Bytes>, s0: RunState, s: RunState, e: nat, c: nat)
    requires Ready(job, snap) && job.checkpointing && e < |job.files| && c < |job.files[e].chunkHashes|
    requires Crashproof(env, job, snap, s0, s) && s.outcome.Running? && Sized(job, s, e) && !GetBit(s.bits[e], c)
    ensures var s' := CopyStep(env, job, s, e, c);
            Crashproof(env, job, snap, s0, s') && Sized(job, s', e) && !s'.outcome.Finished?
  {
    ChunkInFile(job, snap, e, c);
    var (d, reply) := CopyAttempts(env, s.d, job.Source(e), job.Dest(e), Offset(job.chunkSize, c), job.Len(e, c),
                                   job.files[e].chunkHashes[c], job.Retries());
    AttemptsEffect(env, s.d, job.Source(e), job.Dest(e), Offset(job.chunkSize, c), job.Len(e, c),
                   Chunk(snap[e], job.chunkSize, c), job.Retries());
    SoundAfterPatch(job, snap, s.d.files, d.files, s.bits, e, c);
    if reply.Done? {
      RecordCopySafe(env, job, snap, s0, s, s.(d := d), e, c);
    } else {
      StoppedSafe(env, job, snap, s0, s, s.(d := d, outcome := OutcomeOf(reply, CopyChunkFailed(e, c))));
    }
  }

  /** Stopping, or going on with nothing marked or saved, keeps the picture if chunks stay right. */
  lemma StoppedSafe(env: Env, job: Job, snap: seq<Bytes>, s0: RunState, s: RunState, s': RunState)
    requires |job.files| == |snap| && Crashproof(env, job, snap, s0, s) && s.outcome.Running? && !s'.outcome.Finished?
    requires s'.bits == s.bits && s'.d.checkpoint == s.d.checkpoint && s'.d.copies == s.d.copies && s'.d.torn == s.d.torn
    requires Sound(job, snap, s'.d.files, s.bits)
    ensures Crashproof(env, job, snap, s0, s')
  {
  }

  lemma ChunkStepSafe(env: Env, job: Job, snap: seq<Bytes>, s0: RunState, s: RunState, e: nat, c: nat)
    requires Ready(job, snap) && job.checkpointing && e < |job.files| && c < |job.files[e].chunkHashes|
    requires Crashproof(env, job, snap, s0, s) && s.outcome.Running? && Sized(job, s, e)
    ensures var s' := ChunkStep(env, job, s, e, c);
            Crashproof(env, job, snap, s0, s') && Sized(job, s', e) && !s'.outcome.Finished?
  {
    ChunkInFile(job, snap, e, c);
    if GetBit(s.bits[e], c) {
      assert ChunkRight(job, snap, s.d.files, e, c);
      StoppedSafe(env, job, snap, s0, s, ChunkStep(env, job, s, e, c));
    } else {
      CopyStepSafe(env, job, snap, s0, s, e, c);
    }
  }

  lemma {:induction false} ChunkLoopSafe(env: Env, job: Job, snap: seq<Bytes>, s0: RunState, s: RunState, e: nat, c: nat)
    requires Ready(job, snap) && job.checkpointing && e < |job.files| && c <= |job.files[e].chunkHashes|
    requires Crashproof(env, job, snap, s0, s) && Sized(job, s, e) && !s.outcome.Finished?
    ensures var s' := ChunkLoop(env, job, s, e, c); Crashproof(env, job, snap, s0, s') && !s'.outcome.Finished?
    decreases |job.files[e].chunkHashes| - c
  {
    hide ChunkStep;
    if s.outcome.Running? && c < |job.files[e].chunkHashes| {
      ChunkStepSafe(env, job, snap, s0, s, e, c);
      ChunkLoopSafe(env, job, snap, s0, ChunkStep(env, job, s, e, c), e, c + 1);
    }
  }

  /** Bringing a target to its final length loses no right chunk. */
  lemma SoundAfterResize(job: Job, snap: seq<Bytes>, files: map<Path, Bytes>, files': map<Path, Bytes>, bits: seq<Bits>, e: nat)
    requires Ready(job, snap) && |bits| == |job.files| && Sound(job, snap, files, bits) && e < |job.files|
    requires SameExcept(files, files', job.Dest(e))
    requires var f, f' := Existing(files, job.Dest(e)), Existing(files', job.Dest(e));
             f' == f || f' == SetLen(f, job.files[e].size)
    ensures Sound(job, snap, files', bits)
  {
    forall i: nat, k: nat | i < |job.files| && k < |job.files[i].chunkHashes| && GetBit(bits[i], k)
      ensures ChunkRight(job, snap, files', i, k)
    {
      assert ChunkRight(job, snap, files, i, k);
      if i == e {
        ChunkInFile(job, snap, e, k);
        ReadAfterSetLen(Existing(files, job.Dest(e)), job.files[e].size, Offset(job.chunkSize, k), job.Len(e, k));
      } else {
        RightElsewhere(job, snap, files, files', e, i, k);
      }
    }
  }

  lemma OpenEntrySafe(env: Env, job: Job, snap: seq<Bytes>, d: DiskState, bits: seq<Bits>, e: nat)
    requires Ready(job, snap) && |bits| == |job.files| && Sound(job, snap, d.files, bits) && e < |job.files|
    ensures Sound(job, snap, OpenEntry(env, job, d, e).0.files, bits)
  {
    var d' := OpenEntry(env, job, d, e).0;
    OpenEntryEffect(env, job, snap, d, e);
    SoundAfterResize(job, snap, d.files, d'.files, bits, e);
  }

  lemma CheckFileSafe(env: Env, job: Job, snap: seq<Bytes>, s0: RunState, s: RunState, e: nat)
    requires Ready(job, snap) && e < |job.files| && Crashproof(env, job, snap, s0, s) && s.outcome.Running?
    ensures var s' := CheckFile(env, job, s, e); Crashproof(env, job, snap, s0, s') && !s'.outcome.Finished?
  {
    StoppedSafe(env, job, snap, s0, s, CheckFile(env, job, s, e));
  }

  lemma EntryStepSafe(env: Env, job: Job, snap: seq<Bytes>, s0: RunState, s: RunState, e: nat)
    requires Ready(job, snap) && job.checkpointing && e < |job.files|
    requires Crashproof(env, job, snap, s0, s) && s.outcome.Running?
    ensures var s' := EntryStep(env, job, s, e); Crashproof(env, job, snap, s0, s') && !s'.outcome.Finished?
  {
    var (d, outcome) := OpenEntry(env, job, s.d, e);
    var s1 := s.(d := d, outcome := outcome);
    OpenEntryEffect(env, job, snap, s.d, e);
    OpenEntrySafe(env, job, snap, s.d, s.bits, e);
    StoppedSafe(env, job, snap, s0, s, s1);
    if outcome.Running? {
      ChunkLoopSafe(env, job, snap, s0, s1, e, 0);
      var s2 := ChunkLoop(env, job, s1, e, 0);
      if s2.outcome.Running? {
        CheckFileSafe(env, job, snap, s0, s2, e);
      }
    }
  }

  lemma {:induction false} EntryLoopSafe(env: Env, job: Job, snap: seq<Bytes>, s0: RunState, s: RunState, e: nat)
    requires Ready(job, snap) && job.checkpointing && e <= |job.files|
    requires Crashproof(env, job, snap, s0, s) && !s.outcome.Finished?
    ensures var s' := EntryLoop(env, job, s, e); Crashproof(env, job, snap, s0, s') && !s'.outcome.Finished?
    decreases |job.files| - e
  {
    hide EntryStep;
    if s.outcome.Running? && e < |job.files| {
      EntryStepSafe(env, job, snap, s0, s, e);
      EntryLoopSafe(env, job, snap, s0, EntryStep(env, job, s, e), e + 1);
    }
  }

  // ---------------------------------------------------------------- many runs

  /** The bits a restart begins with: those of the checkpoint, or none if it cannot be read. */
  function Recovered(job: Job, checkpoint: Checkpoint): (bits: seq<Bits>)
    ensures |bits| == |job.files|
  {
    if checkpoint.Readable? && |checkpoint.bits| == |job.files| then checkpoint.bits
    else seq(|job.files|, e requires 0 <= e < |job.files| => ClearBits(job.files[e]))
  }

  lemma RecoveredMarked(job: Job, checkpoint: Checkpoint)
    ensures Marked(job, Recovered(job, checkpoint)) == MarkedIn(job, checkpoint)
  {
    if !(checkpoint.Readable? && |checkpoint.bits| == |job.files|) {
      forall e, c: nat | 0 <= e < |job.files| && c < |job.files[e].chunkHashes|
        ensures !GetBit(Recovered(job, checkpoint)[e], c)
      {
        ClearBitsAreClear(job.files[e], c);
      }
      TallyOfClear(InChunks, job.files, job.chunkSize, Recovered(job, checkpoint), |job.files|);
    }
  }

  /** What is known after a number of runs: the disk, the bits the last run held in memory, and how many
      runs did not return Ok. */
  datatype Ledger = Ledger(d: DiskState, bits: seq<Bits>, interruptions: nat)

  /** One run for each environment, each started from the checkpoint that the one before it left. */
  function Restarts(envs: seq<Env>, job: Job, d: DiskState): (l: Ledger)
    ensures |l.bits| == |job.files|
  {
    if envs == [] then Ledger(d, Recovered(job, d.checkpoint), 0)
    else
      var l := Restarts(envs[..|envs| - 1], job, d);
      var s := Execute(envs[|envs| - 1], job, l.d.(clock := 0), Recovered(job, l.d.checkpoint));
      Ledger(s.d, s.bits, l.interruptions + (if s.outcome.Finished? then 0 else 1))
  }

  /** The run of environment `k`, which starts from the checkpoint that the runs before it left. */
  function RunOf(envs: seq<Env>, job: Job, d: DiskState, k: nat): RunState
    requires k < |envs|
  {
    var l := Restarts(envs[..k], job, d);
    Execute(envs[k], job, l.d.(clock := 0), Recovered(job, l.d.checkpoint))
  }

  function Interrupted(envs: seq<Env>, job: Job, d: DiskState): set<nat> {
    set k: nat | k < |envs| && !RunOf(envs, job, d, k).outcome.Finished?
  }

  lemma RunOfFront(envs: seq<Env>, job: Job, d: DiskState, n: nat, k: nat)
    requires k < n <= |envs|
    ensures RunOf(envs[..n], job, d, k) == RunOf(envs, job, d, k)
  {
    hide Execute, Restarts;
    assert envs[..n][..k] == envs[..k];
  }

  lemma InterruptedNext(envs: seq<Env>, job: Job, d: DiskState)
    requires envs != []
    ensures var n := |envs| - 1;
            Interrupted(envs, job, d)
            == Interrupted(envs[..n], job, d) + if RunOf(envs, job, d, n).outcome.Finished? then {} else {n}
  {
    hide RunOf;
    var n := |envs| - 1;
    forall k: nat | k < n ensures RunOf(envs[..n], job, d, k) == RunOf(envs, job, d, k) {
      RunOfFront(envs, job, d, n, k);
    }
  }

  /** The interruptions are the runs that did not return Ok. */
  lemma {:induction false} InterruptionsAre(envs: seq<Env>, job: Job, d: DiskState)
    ensures Restarts(envs, job, d).interruptions == |Interrupted(envs, job, d)|
  {
    hide Execute, Interrupted;
    if envs == [] {
      NobodyInterrupted(job, d);
    } else {
      var n := |envs| - 1;
      InterruptionsAre(envs[..n], job, d);
      InterruptedNext(envs, job, d);
      InterruptedBelow(envs[..n], job, d);
    }
  }

  lemma NobodyInterrupted(job: Job, d: DiskState)
    ensures Interrupted([], job, d) == {}
  {
  }

  lemma InterruptedBelow(envs: seq<Env>, job: Job, d: DiskState)
    ensures |envs| !in Interrupted(envs, job, d)
  {
  }

  /** A disk on which a transfer may begin or resume: what the checkpoint claims is true. */
  ghost predicate Resumable(job: Job, snap: seq<Bytes>, d: DiskState)
    requires |job.files| == |snap|
  {
    && (d.checkpoint.Readable? ==> |d.checkpoint.bits| == |job.files|)
    && Covered(job, Recovered(job, d.checkpoint))
    && Sound(job, snap, d.files, Recovered(job, d.checkpoint))
  }

  /** Nothing is claimed before the first run, so any disk without a checkpoint will do. */
  lemma FreshIsResumable(job: Job, snap: seq<Bytes>, d: DiskState)
    requires |job.files| == |snap| && !d.checkpoint.Readable?
    ensures Resumable(job, snap, d)
  {
    forall e: nat, c: nat | e < |job.files| && c < |job.files[e].chunkHashes|
      ensures !GetBit(Recovered(job, d.checkpoint)[e], c)
    {
      ClearBitsAreClear(job.files[e], c);
    }
  }

  /** One run from a resumable disk: it is safe to stop it anywhere, and every copy is accounted for. */
  lemma RunIsCrashSafe(env: Env, job: Job, snap: seq<Bytes>, d: DiskState)
    requires Ready(job, snap) && job.checkpointing && Resumable(job, snap, d)
    ensures var bits := Recovered(job, d.checkpoint);
            var s := Execute(env, job, d, bits);
            && Trusty(job, snap, s)
            && (s.outcome.Finished? ==> s.d.checkpoint == Readable(s.bits))
            && d.torn <= s.d.torn <= d.torn + 1
            && (s.outcome.Finished? || NeverTorn(env) ==> s.d.torn == d.torn)
            && (s.d.torn == d.torn ==> Marked(job, s.bits) <= MarkedIn(job, s.d.checkpoint) + 1)
            && s.d.copies + Marked(job, bits) == d.copies + Marked(job, s.bits)
  {
    hide EntryLoop;
    var bits := Recovered(job, d.checkpoint);
    var d1 := MakeDir(env, d).0;
    RecoveredMarked(job, d.checkpoint);
    assert Crashproof(env, job, snap, Start(job, d1, bits), Start(job, d1, bits));
    EntryLoopSafe(env, job, snap, Start(job, d1, bits), Start(job, d1, bits), 0);
  }

  lemma SoundWithin(job: Job, snap: seq<Bytes>, files: map<Path, Bytes>, b: seq<Bits>, bits: seq<Bits>)
    requires |job.files| == |snap| == |bits| == |b|
    requires Sound(job, snap, files, bits) && Within(job, b, bits)
    ensures Sound(job, snap, files, b)
  {
  }

  /** After any number of runs, each stopped at any call, the bits in memory and the bits in the
      checkpoint mark only chunks whose target bytes are right. */
  lemma {:induction false} CrashSafety(envs: seq<Env>, job: Job, snap: seq<Bytes>, d: DiskState)
    requires Ready(job, snap) && job.checkpointing && Resumable(job, snap, d)
    ensures var l := Restarts(envs, job, d);
            Sound(job, snap, l.d.files, l.bits) && Resumable(job, snap, l.d)
  {
    if envs != [] {
      CrashSafety(envs[..|envs| - 1], job, snap, d);
      var l := Restarts(envs[..|envs| - 1], job, d);
      RunIsCrashSafe(envs[|envs| - 1], job, snap, l.d.(clock := 0));
      var l' := Restarts(envs, job, d);
      if l'.d.checkpoint.Readable? {
        SoundWithin(job, snap, l'.d.files, l'.d.checkpoint.bits, l'.bits);
      } else {
        FreshIsResumable(job, snap, l'.d);
      }
    }
  }

  lemma MarkedBound(job: Job, snap: seq<Bytes>, bits: seq<Bits>)
    requires Ready(job, snap) && |bits| == |job.files|
    ensures Marked(job, bits) <= ChunkTotal(job.files)
  {
    TallyBound(InChunks, job.files, snap, job.chunkSize, bits, |job.files|);
  }

  ghost predicate NoneTorn(envs: seq<Env>) {
    forall i :: 0 <= i < |envs| ==> NeverTorn(envs[i])
  }

  lemma OneMore(a: nat, b: nat, n: nat)
    requires a <= b <= a + 1
    ensures b * n == a * n + if a == b then 0 else n
  {
  }

  /** The running account behind the work bound. At most one save is torn in each interrupted run. */
  lemma {:induction false} WorkAccount(envs: seq<Env>, job: Job, snap: seq<Bytes>, d: DiskState)
    requires Ready(job, snap) && job.checkpointing && Resumable(job, snap, d)
    ensures var l := Restarts(envs, job, d);
            && d.torn <= l.d.torn <= d.torn + l.interruptions
            && l.d.copies + MarkedIn(job, d.checkpoint)
               <= d.copies + MarkedIn(job, l.d.checkpoint) + l.interruptions + (l.d.torn - d.torn) * ChunkTotal(job.files)
            && (NoneTorn(envs) ==> l.d.torn == d.torn)
  {
    hide Execute, Marked;
    if envs != [] {
      var front, env := envs[..|envs| - 1], envs[|envs| - 1];
      WorkAccount(front, job, snap, d);
      CrashSafety(front, job, snap, d);
      var l, l' := Restarts(front, job, d), Restarts(envs, job, d);
      RecoveredMarked(job, l.d.checkpoint);
      RunIsCrashSafe(env, job, snap, l.d.(clock := 0));
      MarkedBound(job, snap, l'.bits);
      OneMore(l.d.torn - d.torn, l'.d.torn - d.torn, ChunkTotal(job.files));
      assert NoneTorn(envs) ==> NeverTorn(env) && NoneTorn(front);
    }
  }

  /** Over any number of runs with `k` interruptions the successful chunk copies number at most the
      chunks of the manifest plus `k`, plus the chunks once more for each save that was torn. */
  lemma WorkBound(envs: seq<Env>, job: Job, snap: seq<Bytes>, d: DiskState)
    requires Ready(job, snap) && job.checkpointing && Resumable(job, snap, d)
    ensures var l, total := Restarts(envs, job, d), ChunkTotal(job.files);
            && d.torn <= l.d.torn
            && l.d.copies + MarkedIn(job, d.checkpoint) <= d.copies + total + l.interruptions + (l.d.torn - d.torn) * total
  {
    hide Restarts, Ready, Resumable, Marked, ChunkTotal, NeverTorn;
    var l := Restarts(envs, job, d);
    WorkAccount(envs, job, snap, d);
    RecoveredMarked(job, l.d.checkpoint);
    MarkedBound(job, snap, Recovered(job, l.d.checkpoint));
  }

  /** Where no save is torn, the copies number at most the chunks plus the interruptions. */
  lemma UntornWorkBound(envs: seq<Env>, job: Job, snap: seq<Bytes>, d: DiskState)
    requires Ready(job, snap) && job.checkpointing && Resumable(job, snap, d)
    requires NoneTorn(envs)
    ensures var l := Restarts(envs, job, d);
            l.d.copies + MarkedIn(job, d.checkpoint) <= d.copies + ChunkTotal(job.files) + l.interruptions
  {
    hide Restarts, Ready, Resumable, Marked, ChunkTotal, NeverTorn;
    WorkAccount(envs, job, snap, d);
    WorkBound(envs, job, snap, d);
  }
}
