/** What one run of a transfer guarantees, from any resume bits and any contents of the target, under
    any pattern of failures. */
module TransferSafety {
  import opened FileBytes
  import opened Bitmap
  import opened Device
  import opened Manifest
  import opened Transfer

  /** The manifest was built from the files `snap`, whose relative paths are pairwise distinct. */
  ghost predicate Ready(job: Job, snap: seq<Bytes>)
  {
    && AllBuilt(job.files, snap, job.chunkSize)
    && forall i, j :: 0 <= i < j < |job.files| ==> job.files[i].relativePath != job.files[j].relativePath
  }

  /** One bitmap an entry, each long enough for its chunks. What the bits say is arbitrary. */
  ghost predicate Covered(job: Job, bits: seq<Bits>)
  {
    |bits| == |job.files| && forall e :: 0 <= e < |bits| ==> Fits(job.files[e], bits[e])
  }

  /** The source holds these files at every tick: one file, or files under a directory. */
  ghost predicate SourceHolds(env: Env, job: Job, contents: seq<Bytes>)
    requires |contents| == |job.files|
  {
    forall e :: 0 <= e < |job.files| ==>
      Stable(env, if job.sourceIsFile then job.sourcePath else job.sourcePath + job.files[e].relativePath, contents[e])
  }

  /** No call fails, and the source still holds the files the manifest was built from. */
  ghost predicate Clean(env: Env, job: Job, snap: seq<Bytes>)
    requires |snap| == |job.files|
  {
    FaultFree(env) && SourceHolds(env, job, snap)
  }

  /** `p` is the place of file `e`: under the root's name in the target directory, and at that name itself
      if the root is a single file. */
  ghost predicate IsPlace(job: Job, e: nat, p: Path)
    requires e < |job.files|
  {
    if job.sourceIsFile && |job.files| == 1 && job.files[0].relativePath == [job.rootName]
    then p == job.targetRoot + [job.rootName]
    else p == job.targetRoot + [job.rootName] + job.files[e].relativePath
  }

  lemma DestIsPlace(job: Job, e: nat, p: Path)
    requires e < |job.files|
    ensures IsPlace(job, e, p) <==> p == job.Dest(e)
  {
  }

  lemma DestDistinct(job: Job, snap: seq<Bytes>, i: nat, j: nat)
    requires Ready(job, snap) && i < |job.files| && j < |job.files| && i != j
    ensures job.Dest(i) != job.Dest(j)
  {
    var base, a, b := job.targetRoot + [job.rootName], job.files[i].relativePath, job.files[j].relativePath;
    assert a != b;
    assert (base + a)[|base|..] == a && (base + b)[|base|..] == b;
  }

  // ---------------------------------------------------------------- frames

  /** `p` is in the same condition in both file systems. */
  ghost predicate SameAt(files: map<Path, Bytes>, files': map<Path, Bytes>, p: Path)
  {
    (p in files <==> p in files') && (p in files ==> files[p] == files'[p])
  }

  ghost predicate SameExcept(files: map<Path, Bytes>, files': map<Path, Bytes>, q: Path)
  {
    forall p: Path :: p != q ==> SameAt(files, files', p)
  }

  lemma SameExceptTransitive(f0: map<Path, Bytes>, f1: map<Path, Bytes>, f2: map<Path, Bytes>, q: Path)
    requires SameExcept(f0, f1, q) && SameExcept(f1, f2, q)
    ensures SameExcept(f0, f2, q)
  {
    forall p: Path | p != q ensures SameAt(f0, f2, p) {
      assert SameAt(f0, f1, p) && SameAt(f1, f2, p);
    }
  }

  /** `f'` is `f` with some bytes of the range `[off, off + len)` changed. */
  ghost predicate Patched(f: Bytes, f': Bytes, off: nat, len: nat)
  {
    |f'| == |f| && forall i :: 0 <= i < |f| && (i < off || off + len <= i) ==> f'[i] == f[i]
  }

  lemma PatchedElsewhere(f: Bytes, f': Bytes, off: nat, len: nat, off': nat, len': nat)
    requires Patched(f, f', off, len)
    requires off' + len' <= off || off + len <= off'
    ensures ReadExact(f', off', len') == ReadExact(f, off', len')
  {
    if off' + len' <= |f| {
      assert f'[off'..off' + len'] == f[off'..off' + len'];
    }
  }

  lemma WriteIsPatch(f: Bytes, off: nat, data: Bytes, len: nat)
    requires off + len <= |f| && |data| <= len
    ensures Patched(f, WriteAt(f, off, data), off, len)
  {
  }

  /** Up to `n` attempts at one chunk: nothing outside the chunk's range changes, and success means
      the range holds the chunk that was hashed when the manifest was built. */
  lemma {:induction false} AttemptsEffect(env: Env, d: DiskState, src: Path, dst: Path, off: nat, len: nat, chunk: Bytes, n: nat)
    requires n > 0 && |chunk| == len && dst in d.files && off + len <= |d.files[dst]|
    ensures var (d', reply) := CopyAttempts(env, d, src, dst, off, len, Hash(chunk), n);
            && dst in d'.files
            && SameExcept(d.files, d'.files, dst)
            && Patched(d.files[dst], d'.files[dst], off, len)
            && d'.checkpoint == d.checkpoint && d'.torn == d.torn
            && d'.copies == d.copies + (if reply.Done? then 1 else 0)
            && (reply.Done? ==> ReadExact(d'.files[dst], off, len) == Some(chunk))
    decreases n
  {
    var (d1, first) := CopyChunk(env, d, src, dst, off, len, Hash(chunk));
    CopyEffect(env, d, src, dst, off, len, chunk);
    if first.Refused? && n > 1 {
      AttemptsEffect(env, d1, src, dst, off, len, chunk, n - 1);
      var (d', reply) := CopyAttempts(env, d, src, dst, off, len, Hash(chunk), n);
      SameExceptTransitive(d.files, d1.files, d'.files, dst);
    }
  }

  lemma CopyEffect(env: Env, d: DiskState, src: Path, dst: Path, off: nat, len: nat, chunk: Bytes)
    requires |chunk| == len && dst in d.files && off + len <= |d.files[dst]|
    ensures var (d', reply) := CopyChunk(env, d, src, dst, off, len, Hash(chunk));
            && dst in d'.files
            && SameExcept(d.files, d'.files, dst)
            && Patched(d.files[dst], d'.files[dst], off, len)
            && d'.checkpoint == d.checkpoint && d'.torn == d.torn
            && d'.copies == d.copies + (if reply.Done? then 1 else 0)
            && (reply.Done? ==> ReadExact(d'.files[dst], off, len) == Some(chunk))
  {
    hide WriteAt;
    var f := d.files[dst];
    WriteIsPatch(f, off, chunk, len);
    ReadBackWrite(f, off, chunk);
    match env.fault(d.clock + 1) {
      case Fine =>
      case Fail(_, partial) => WriteIsPatch(f, off, partial[..Min(|partial|, len)], len);
      case Kill(_, partial) => WriteIsPatch(f, off, partial[..Min(|partial|, len)], len);
    }
  }

  lemma CleanCopySucceeds(env: Env, job: Job, snap: seq<Bytes>, d: DiskState, e: nat, c: nat)
    requires Ready(job, snap) && Clean(env, job, snap)
    requires e < |job.files| && c < |job.files[e].chunkHashes|
    ensures CopyAttempts(env, d, job.Source(e), job.Dest(e), Offset(job.chunkSize, c), job.Len(e, c),
                         job.files[e].chunkHashes[c], job.Retries()).1.Done?
  {
    assert Built(job.files[e], snap[e], job.chunkSize);
    assert Stable(env, job.Source(e), snap[e]);
    ChunkIndex(|snap[e]|, job.chunkSize, c);
  }

  // ---------------------------------------------------------------- the chunk loop

  /** Chunk `c` of entry `e` is right on disk. */
  ghost predicate ChunkRight(job: Job, snap: seq<Bytes>, files: map<Path, Bytes>, e: nat, c: nat)
    requires e < |job.files| == |snap|
  {
    ChunkAgrees(Existing(files, job.Dest(e)), snap[e], job.chunkSize, c)
  }

  ghost predicate ChunkDone(job: Job, snap: seq<Bytes>, s: RunState, e: nat, c: nat)
    requires e < |job.files| == |snap| && e < |s.bits|
  {
    GetBit(s.bits[e], c) && ChunkRight(job, snap, s.d.files, e, c)
  }

  /** Chunk `c` of entry `e` is as it was in `s0`, on disk and in the bitmap. */
  ghost predicate ChunkKept(job: Job, s0: RunState, s: RunState, e: nat, c: nat)
    requires e < |job.files| && e < |s0.bits| && e < |s.bits|
  {
    && GetBit(s.bits[e], c) == GetBit(s0.bits[e], c)
    && ReadExact(Existing(s.d.files, job.Dest(e)), Offset(job.chunkSize, c), job.Len(e, c))
       == ReadExact(Existing(s0.d.files, job.Dest(e)), Offset(job.chunkSize, c), job.Len(e, c))
  }

  /** Reported progress never goes back, never passes the total, and has at most `1 + n` events. */
  ghost predicate EventsOk(job: Job, events: seq<ProgressEvent>, n: nat)
  {
    && |events| <= 1 + n
    && (forall i :: 0 <= i < |events| ==>
          events[i].bytesTotal == TotalSize(job.files) && events[i].bytesDone <= TotalSize(job.files))
    && (forall i, j :: 0 <= i < j < |events| ==> events[i].bytesDone <= events[j].bytesDone)
  }

  function ChunksBefore(job: Job, e: nat): nat
    requires e <= |job.files|
  {
    Capacity(InChunks, job.files, e)
  }

  lemma {:induction false} CapacityMonotone(m: Measure, files: seq<FileInfo>, k: nat, n: nat)
    requires k <= n <= |files|
    ensures Capacity(m, files, k) <= Capacity(m, files, n)
  {
    if k < n {
      CapacityMonotone(m, files, k, n - 1);
    }
  }

  /** Only entry `e` has changed since `s0`, its target file exists and has its final length. */
  ghost predicate InEntry(job: Job, s0: RunState, s: RunState, e: nat)
    requires e < |job.files|
  {
    && Covered(job, s0.bits) && Covered(job, s.bits)
    && (forall i :: 0 <= i < |job.files| && i != e ==> s.bits[i] == s0.bits[i])
    && SameExcept(s0.d.files, s.d.files, job.Dest(e))
    && job.Dest(e) in s.d.files && |s.d.files[job.Dest(e)]| == job.files[e].size
  }

  /** The incremental counter is the recomputed one, and it was the last number reported. */
  ghost predicate Counted(job: Job, s: RunState)
  {
    && |s.bits| == |job.files|
    && s.bytesDone == DoneSize(job.files, job.chunkSize, s.bits)
    && |s.events| > 0 && s.events[|s.events| - 1].bytesDone == s.bytesDone
  }

  /** Somewhere in chunk `c`: earlier chunks are right and marked, later ones untouched since `s0`. */
  ghost predicate Partway(job: Job, snap: seq<Bytes>, s0: RunState, s: RunState, e: nat, c: nat)
    requires e < |job.files| == |snap|
  {
    && InEntry(job, s0, s, e)
    && (forall k: nat :: k < c ==> ChunkDone(job, snap, s, e, k))
    && (forall k: nat :: c < k < |job.files[e].chunkHashes| ==> ChunkKept(job, s0, s, e, k))
  }

  /** The head of the chunk loop, about to look at chunk `c`. */
  ghost predicate ChunkHead(job: Job, snap: seq<Bytes>, s0: RunState, s: RunState, e: nat, c: nat)
    requires e < |job.files| == |snap|
  {
    && s.outcome.Running? && s.filesCompleted == e
    && Partway(job, snap, s0, s, e, c)
    && (c < |job.files[e].chunkHashes| ==> ChunkKept(job, s0, s, e, c))
    && Counted(job, s)
    && EventsOk(job, s.events, ChunksBefore(job, e) + c)
  }

  /** The run ended in chunk `c`; if the copy itself gave up then the bit of `c` is clear. */
  ghost predicate ChunkStopped(job: Job, snap: seq<Bytes>, s0: RunState, s: RunState, e: nat, c: nat)
    requires e < |job.files| == |snap|
  {
    && (s.outcome.Killed? || s.outcome == Failed(VerifyError(e, c))
        || s.outcome == Failed(CopyChunkFailed(e, c)) || s.outcome == Failed(CheckpointError))
    && Partway(job, snap, s0, s, e, c)
    && EventsOk(job, s.events, ChunksBefore(job, e) + c)
    && (s.outcome == Failed(CopyChunkFailed(e, c)) ==> !GetBit(s.bits[e], c))
  }

  /** Between clearing a stale bit and copying: the counter is right, and may be one chunk below the
      last number reported. */
  ghost predicate BeforeCopy(job: Job, snap: seq<Bytes>, s0: RunState, s: RunState, e: nat, c: nat)
    requires e < |job.files| == |snap|
  {
    && s.outcome.Running? && s.filesCompleted == e
    && Partway(job, snap, s0, s, e, c)
    && s.bytesDone == DoneSize(job.files, job.chunkSize, s.bits)
    && |s.events| > 0 && s.events[|s.events| - 1].bytesDone <= s.bytesDone + job.Len(e, c)
    && EventsOk(job, s.events, ChunksBefore(job, e) + c)
    && !GetBit(s.bits[e], c)
  }

  /** `s'` differs from `s` at most by bytes inside chunk `c` of entry `e` and by the bit of that chunk. */
  ghost predicate Touches(job: Job, s: RunState, s': RunState, e: nat, c: nat, value: bool)
    requires e < |job.files| && e < |s.bits|
  {
    && (s'.bits == s.bits || s'.bits == s.bits[e := WithBit(s.bits[e], c, value)])
    && SameExcept(s.d.files, s'.d.files, job.Dest(e))
    && (job.Dest(e) in s.d.files ==> job.Dest(e) in s'.d.files)
    && Patched(Existing(s.d.files, job.Dest(e)), Existing(s'.d.files, job.Dest(e)),
               Offset(job.chunkSize, c), job.Len(e, c))
  }

  /** A patch inside chunk `c` and an update of bit `c` keep every other chunk. */
  lemma OtherChunksKept(job: Job, snap: seq<Bytes>, s: RunState, s': RunState, e: nat, c: nat, k: nat, value: bool)
    requires Ready(job, snap) && e < |job.files| && e < |s.bits|
    requires c < |job.files[e].chunkHashes| && k < |job.files[e].chunkHashes| && k != c
    requires Touches(job, s, s', e, c, value)
    ensures ChunkKept(job, s, s', e, k)
    ensures ChunkDone(job, snap, s, e, k) ==> ChunkDone(job, snap, s', e, k)
  {
    assert Built(job.files[e], snap[e], job.chunkSize);
    GetAfterSet(s.bits[e], c, value, k);
    if k < c {
      ChunkRanges(job.files[e].size, job.chunkSize, k, c);
    } else {
      ChunkRanges(job.files[e].size, job.chunkSize, c, k);
    }
    PatchedElsewhere(Existing(s.d.files, job.Dest(e)), Existing(s'.d.files, job.Dest(e)),
                     Offset(job.chunkSize, c), job.Len(e, c), Offset(job.chunkSize, k), job.Len(e, k));
  }

  lemma EarlierStayDone(job: Job, snap: seq<Bytes>, s: RunState, s': RunState, e: nat, c: nat, value: bool)
    requires Ready(job, snap) && e < |job.files| && e < |s.bits|
    requires c < |job.files[e].chunkHashes| && Touches(job, s, s', e, c, value)
    requires forall k: nat :: k < c ==> ChunkDone(job, snap, s, e, k)
    ensures forall k: nat :: k < c ==> ChunkDone(job, snap, s', e, k)
  {
    forall k: nat | k < c ensures ChunkDone(job, snap, s', e, k) {
      assert ChunkDone(job, snap, s, e, k);
      OtherChunksKept(job, snap, s, s', e, c, k, value);
    }
  }

  lemma LaterStayKept(job: Job, snap: seq<Bytes>, s0: RunState, s: RunState, s': RunState, e: nat, c: nat, value: bool)
    requires Ready(job, snap) && e < |job.files| && e < |s0.bits| && e < |s.bits|
    requires c < |job.files[e].chunkHashes| && Touches(job, s, s', e, c, value)
    requires forall k: nat :: c < k < |job.files[e].chunkHashes| ==> ChunkKept(job, s0, s, e, k)
    ensures forall k: nat :: c < k < |job.files[e].chunkHashes| ==> ChunkKept(job, s0, s', e, k)
  {
    forall k: nat | c < k < |job.files[e].chunkHashes| ensures ChunkKept(job, s0, s', e, k) {
      assert ChunkKept(job, s0, s, e, k);
      OtherChunksKept(job, snap, s, s', e, c, k, value);
    }
  }

  lemma PartwayKept(job: Job, snap: seq<Bytes>, s0: RunState, s: RunState, s': RunState, e: nat, c: nat, value: bool)
    requires Ready(job, snap) && e < |job.files| && c < |job.files[e].chunkHashes|
    requires Partway(job, snap, s0, s, e, c) && Touches(job, s, s', e, c, value)
    ensures Partway(job, snap, s0, s', e, c)
  {
    EarlierStayDone(job, snap, s, s', e, c, value);
    LaterStayKept(job, snap, s0, s, s', e, c, value);
    SameExceptTransitive(s0.d.files, s.d.files, s'.d.files, job.Dest(e));
  }

  /** Once chunk `c` is right and marked, the loop stands at the head of chunk `c + 1`. */
  lemma PartwayNext(job: Job, snap: seq<Bytes>, s0: RunState, s: RunState, e: nat, c: nat)
    requires e < |job.files| == |snap| && c < |job.files[e].chunkHashes|
    requires Partway(job, snap, s0, s, e, c) && ChunkDone(job, snap, s, e, c)
    ensures Partway(job, snap, s0, s, e, c + 1)
    ensures c + 1 < |job.files[e].chunkHashes| ==> ChunkKept(job, s0, s, e, c + 1)
  {
  }

  /** Chunk `c` lies inside the target file and its expected hash is that of the snapshot's chunk. */
  lemma ChunkInFile(job: Job, snap: seq<Bytes>, e: nat, c: nat)
    requires Ready(job, snap) && e < |job.files| && c < |job.files[e].chunkHashes|
    ensures Offset(job.chunkSize, c) <= |snap[e]|
    ensures job.files[e].chunkHashes[c] == Hash(Chunk(snap[e], job.chunkSize, c))
    ensures job.Len(e, c) == |Chunk(snap[e], job.chunkSize, c)| > 0
    ensures Offset(job.chunkSize, c) + job.Len(e, c) <= job.files[e].size == |snap[e]|
  {
    assert Built(job.files[e], snap[e], job.chunkSize);
    ChunkIndex(|snap[e]|, job.chunkSize, c);
  }

  /** Marking a clear bit puts exactly that chunk on the counter, which stays within the total. */
  lemma MarkCounts(job: Job, snap: seq<Bytes>, bits: seq<Bits>, e: nat, c: nat)
    requires Ready(job, snap) && Covered(job, bits)
    requires e < |job.files| && c < |job.files[e].chunkHashes| && !GetBit(bits[e], c)
    ensures var bits' := bits[e := WithBit(bits[e], c, true)];
            && Covered(job, bits') && GetBit(bits'[e], c)
            && DoneSize(job.files, job.chunkSize, bits') == DoneSize(job.files, job.chunkSize, bits) + job.Len(e, c)
            && DoneSize(job.files, job.chunkSize, bits') <= TotalSize(job.files)
  {
    GetAfterSet(bits[e], c, true, c);
    TallyUpdate(InBytes, job.files, job.chunkSize, bits, e, c, true, |job.files|);
    TallyBound(InBytes, job.files, snap, job.chunkSize, bits[e := WithBit(bits[e], c, true)], |job.files|);
  }

  lemma EmitKeepsEvents(job: Job, s: RunState, file: Path, n: nat)
    requires EventsOk(job, s.events, n) && s.bytesDone <= TotalSize(job.files)
    requires |s.events| > 0 ==> s.events[|s.events| - 1].bytesDone <= s.bytesDone
    ensures EventsOk(job, Emit(job, s, file).events, n + 1)
  {
  }

  lemma RecordCopyRuns(env: Env, job: Job, snap: seq<Bytes>, s0: RunState, s: RunState, e: nat, c: nat)
    requires Ready(job, snap) && e < |job.files| && c < |job.files[e].chunkHashes|
    requires BeforeCopy(job, snap, s0, s, e, c) && ChunkRight(job, snap, s.d.files, e, c)
    ensures var s' := RecordCopy(env, job, s, e, c);
            && (if s'.outcome.Running? then ChunkHead(job, snap, s0, s', e, c + 1) else ChunkStopped(job, snap, s0, s', e, c))
            && (Clean(env, job, snap) ==> s'.outcome.Running?)
  {
    var s' := RecordCopy(env, job, s, e, c);
    MarkCounts(job, snap, s.bits, e, c);
    EmitKeepsEvents(job, s.(bytesDone := s'.bytesDone), job.files[e].relativePath, ChunksBefore(job, e) + c);
    RecordCopyTouches(env, job, s, e, c);
    PartwayKept(job, snap, s0, s, s', e, c, true);
    hide Touches, WithBit, Partway, EventsOk, ChunkKept;
    if s'.outcome.Running? {
      PartwayNext(job, snap, s0, s', e, c);
    }
  }

  lemma RecordCopyTouches(env: Env, job: Job, s: RunState, e: nat, c: nat)
    requires e < |job.files| == |s.bits|
    ensures Touches(job, s, RecordCopy(env, job, s, e, c), e, c, true)
    ensures RecordCopy(env, job, s, e, c).d.files == s.d.files
  {
    hide WithBit;
  }

  lemma CopyStepRuns(env: Env, job: Job, snap: seq<Bytes>, s0: RunState, s: RunState, e: nat, c: nat)
    requires Ready(job, snap) && e < |job.files| && c < |job.files[e].chunkHashes|
    requires BeforeCopy(job, snap, s0, s, e, c)
    ensures var s' := CopyStep(env, job, s, e, c);
            && (if s'.outcome.Running? then ChunkHead(job, snap, s0, s', e, c + 1) else ChunkStopped(job, snap, s0, s', e, c))
            && (Clean(env, job, snap) ==> s'.outcome.Running?)
  {
    ChunkInFile(job, snap, e, c);
    var (d, reply) := CopyAttempts(env, s.d, job.Source(e), job.Dest(e), Offset(job.chunkSize, c), job.Len(e, c),
                                   job.files[e].chunkHashes[c], job.Retries());
    AttemptsEffect(env, s.d, job.Source(e), job.Dest(e), Offset(job.chunkSize, c), job.Len(e, c),
                   Chunk(snap[e], job.chunkSize, c), job.Retries());
    var copied := s.(d := d, outcome := OutcomeOf(reply, CopyChunkFailed(e, c)));
    PartwayKept(job, snap, s0, s, copied, e, c, true);
    if Clean(env, job, snap) {
      CleanCopySucceeds(env, job, snap, s.d, e, c);
    }
    if reply.Done? {
      RecordCopyRuns(env, job, snap, s0, copied, e, c);
    }
  }

  lemma ChunkStepRuns(env: Env, job: Job, snap: seq<Bytes>, s0: RunState, s: RunState, e: nat, c: nat)
    requires Ready(job, snap) && e < |job.files| && c < |job.files[e].chunkHashes|
    requires ChunkHead(job, snap, s0, s, e, c)
    ensures var s' := ChunkStep(env, job, s, e, c);
            && (if s'.outcome.Running? then ChunkHead(job, snap, s0, s', e, c + 1) else ChunkStopped(job, snap, s0, s', e, c))
            && (Clean(env, job, snap) ==> s'.outcome.Running?)
  {
    ChunkInFile(job, snap, e, c);
    if !GetBit(s.bits[e], c) {
      CopyStepRuns(env, job, snap, s0, s, e, c);
    } else {
      var (d, check) := VerifyChunkAt(env, s.d, job.Dest(e), Offset(job.chunkSize, c), job.Len(e, c),
                                      job.files[e].chunkHashes[c]);
      if check.Mismatch? {
        StaleBitCleared(job, snap, s0, s, d, e, c);
        CopyStepRuns(env, job, snap, s0, Cleared(job, s, d, e, c), e, c);
      } else {
        var s' := ChunkStep(env, job, s, e, c);
        PartwayKept(job, snap, s0, s, s', e, c, true);
        if check.Match? {
          PartwayNext(job, snap, s0, s', e, c);
        }
      }
    }
  }

  function Cleared(job: Job, s: RunState, d: DiskState, e: nat, c: nat): RunState
    requires e < |job.files| && e < |s.bits|
  {
    s.(d := d, bits := s.bits[e := WithBit(s.bits[e], c, false)], bytesDone := SaturatingSub(s.bytesDone, job.Len(e, c)))
  }

  /** Clearing a stale bit takes exactly that chunk off the counter: the subtraction never saturates. */
  lemma StaleBitCleared(job: Job, snap: seq<Bytes>, s0: RunState, s: RunState, d: DiskState, e: nat, c: nat)
    requires Ready(job, snap) && e < |job.files| && c < |job.files[e].chunkHashes|
    requires ChunkHead(job, snap, s0, s, e, c) && GetBit(s.bits[e], c) && d.files == s.d.files
    ensures job.Len(e, c) <= s.bytesDone
    ensures BeforeCopy(job, snap, s0, Cleared(job, s, d, e, c), e, c)
  {
    GetAfterSet(s.bits[e], c, false, c);
    TallyUpdate(InBytes, job.files, job.chunkSize, s.bits, e, c, false, |job.files|);
    PartwayKept(job, snap, s0, s, Cleared(job, s, d, e, c), e, c, false);
  }

  lemma {:induction false} ChunkLoopRuns(env: Env, job: Job, snap: seq<Bytes>, s0: RunState, s: RunState, e: nat, c: nat)
    requires Ready(job, snap) && e < |job.files| && c <= |job.files[e].chunkHashes|
    requires ChunkHead(job, snap, s0, s, e, c)
    ensures var s', n := ChunkLoop(env, job, s, e, c), |job.files[e].chunkHashes|;
            && (if s'.outcome.Running? then ChunkHead(job, snap, s0, s', e, n)
                else exists k: nat :: k < n && ChunkStopped(job, snap, s0, s', e, k))
            && (Clean(env, job, snap) ==> s'.outcome.Running?)
    decreases |job.files[e].chunkHashes| - c
  {
    assert |s.bits| == |job.files| && s.outcome.Running?;
    hide ChunkStep, ChunkHead, ChunkStopped, Clean;
    if c < |job.files[e].chunkHashes| {
      ChunkStepRuns(env, job, snap, s0, s, e, c);
      var next := ChunkStep(env, job, s, e, c);
      if next.outcome.Running? {
        ChunkLoopRuns(env, job, snap, s0, next, e, c + 1);
      } else {
        assert ChunkLoop(env, job, s, e, c) == next;
      }
    }
  }

  // ---------------------------------------------------------------- one entry

  /** Opening an entry touches only its own target, and leaves it with its final length and with
      every byte it already had inside that length. */
  lemma OpenEntryEffect(env: Env, job: Job, snap: seq<Bytes>, d: DiskState, e: nat)
    requires Ready(job, snap) && e < |job.files|
    ensures var (d', outcome) := OpenEntry(env, job, d, e);
            && SameExcept(d.files, d'.files, job.Dest(e))
            && d'.checkpoint == d.checkpoint && d'.copies == d.copies && d'.torn == d.torn
            && (outcome == Failed(DirError(e)) || outcome == Failed(SourceError(e)) ==> d'.files == d.files)
            && (outcome.Running? ==>
                  job.Dest(e) in d'.files
                  && d'.files[job.Dest(e)] == SetLen(Existing(d.files, job.Dest(e)), job.files[e].size))
            && (outcome.Running? || outcome.Killed? || outcome == Failed(DirError(e)) || outcome == Failed(SourceError(e))
                || outcome == Failed(TargetError(e)) || outcome == Failed(SizeError(e)))
            && (Clean(env, job, snap) ==> outcome.Running?)
  {
    if Clean(env, job, snap) {
      assert Stable(env, job.Source(e), snap[e]);
    }
  }

  /** When the chunk loop is through, the target is the snapshot, byte for byte. */
  lemma ChunkLoopFinished(job: Job, snap: seq<Bytes>, s0: RunState, s: RunState, e: nat)
    requires Ready(job, snap) && e < |job.files|
    requires ChunkHead(job, snap, s0, s, e, |job.files[e].chunkHashes|)
    ensures EntryDone(job, snap, s, e)
  {
    assert Built(job.files[e], snap[e], job.chunkSize);
    forall k: nat | k < |job.files[e].chunkHashes|
      ensures GetBit(s.bits[e], k) && ChunkAgrees(s.d.files[job.Dest(e)], snap[e], job.chunkSize, k)
    {
      assert ChunkDone(job, snap, s, e, k);
    }
    ChunkwiseEquality(s.d.files[job.Dest(e)], snap[e], job.chunkSize);
  }

  ghost predicate EntryDone(job: Job, snap: seq<Bytes>, s: RunState, e: nat)
    requires e < |job.files| == |snap| && e < |s.bits|
  {
    && job.Dest(e) in s.d.files && s.d.files[job.Dest(e)] == snap[e]
    && AllSet(job.files[e], s.bits[e])
  }

  ghost predicate EntryUntouched(job: Job, s0: RunState, s: RunState, e: nat)
    requires e < |job.files| && e < |s0.bits| && e < |s.bits|
  {
    s.bits[e] == s0.bits[e] && SameAt(s0.d.files, s.d.files, job.Dest(e))
  }

  /** Chunk `k` of entry `e` as `s0` had it, once the target was brought to its final length. */
  ghost predicate ChunkAsSized(job: Job, s0: RunState, s: RunState, e: nat, k: nat)
    requires e < |job.files| && e < |s0.bits| && e < |s.bits|
  {
    && GetBit(s.bits[e], k) == GetBit(s0.bits[e], k)
    && ReadExact(Existing(s.d.files, job.Dest(e)), Offset(job.chunkSize, k), job.Len(e, k))
       == ReadExact(SetLen(Existing(s0.d.files, job.Dest(e)), job.files[e].size), Offset(job.chunkSize, k), job.Len(e, k))
  }

  /** What a run that gave up on chunk `c` of entry `e` leaves of that entry. */
  ghost predicate FailedAt(job: Job, snap: seq<Bytes>, s0: RunState, s: RunState, e: nat, c: nat)
    requires e < |job.files| == |snap| && e < |s0.bits| && e < |s.bits|
  {
    && c < |job.files[e].chunkHashes|
    && !GetBit(s.bits[e], c)
    && (forall k: nat :: k < c ==> ChunkDone(job, snap, s, e, k))
    && (forall k: nat :: c < k < |job.files[e].chunkHashes| ==> ChunkAsSized(job, s0, s, e, k))
  }

  ghost predicate Targets(job: Job, p: Path) {
    exists e: nat :: e < |job.files| && IsPlace(job, e, p)
  }

  /** Entries before `e` are complete, entries after `e` and all other files are untouched. */
  ghost predicate Around(job: Job, snap: seq<Bytes>, s0: RunState, s: RunState, e: nat)
    requires |job.files| == |snap|
  {
    && Covered(job, s0.bits) && Covered(job, s.bits)
    && (forall i: nat :: i < e && i < |job.files| ==> EntryDone(job, snap, s, i))
    && (forall i: nat :: e < i < |job.files| ==> EntryUntouched(job, s0, s, i))
    && (forall p: Path :: !Targets(job, p) ==> SameAt(s0.d.files, s.d.files, p))
  }

  /** The head of the entry loop. */
  ghost predicate EntryHead(job: Job, snap: seq<Bytes>, s0: RunState, s: RunState, e: nat)
    requires e <= |job.files| == |snap|
  {
    && s.outcome.Running? && s.filesCompleted == e
    && Around(job, snap, s0, s, e)
    && (e < |job.files| ==> EntryUntouched(job, s0, s, e))
    && Counted(job, s)
    && EventsOk(job, s.events, ChunksBefore(job, e))
  }

  /** The run ended in entry `e`. */
  ghost predicate EntryStopped(job: Job, snap: seq<Bytes>, s0: RunState, s: RunState, e: nat)
    requires e < |job.files| == |snap|
  {
    && (s.outcome.Killed? || s.outcome.Failed?)
    && Around(job, snap, s0, s, e)
    && EventsOk(job, s.events, ChunkTotal(job.files))
    && !(s.outcome.Failed? && s.outcome.error.FileHashMismatch?)
    && (s.outcome.Failed? && s.outcome.error != CheckpointError ==>
          !s.outcome.error.TargetRootError? && s.outcome.error.e == e)
    && (s.outcome.Failed? && (s.outcome.error.DirError? || s.outcome.error.SourceError?) ==> EntryUntouched(job, s0, s, e))
    && (s.outcome.Failed? && s.outcome.error.CopyChunkFailed? ==>
          s.outcome.error.e == e && FailedAt(job, snap, s0, s, e, s.outcome.error.c))
  }

  /** A change to the target and the bits of entry `e` alone keeps the picture around `e`. */
  lemma AroundKept(job: Job, snap: seq<Bytes>, s0: RunState, s: RunState, s': RunState, e: nat)
    requires Ready(job, snap) && e < |job.files|
    requires Around(job, snap, s0, s, e) && Covered(job, s'.bits)
    requires SameExcept(s.d.files, s'.d.files, job.Dest(e))
    requires forall i :: 0 <= i < |job.files| && i != e ==> s'.bits[i] == s.bits[i]
    ensures Around(job, snap, s0, s', e)
  {
    forall i: nat | i < |job.files| && i != e
      ensures i < e ==> EntryDone(job, snap, s', i)
      ensures e < i ==> EntryUntouched(job, s0, s', i)
    {
      DestDistinct(job, snap, i, e);
      assert SameAt(s.d.files, s'.d.files, job.Dest(i));
      assert i < e ==> EntryDone(job, snap, s, i);
      assert e < i ==> EntryUntouched(job, s0, s, i);
    }
    forall p: Path | !Targets(job, p) ensures SameAt(s0.d.files, s'.d.files, p) {
      DestIsPlace(job, e, p);
      assert SameAt(s0.d.files, s.d.files, p) && SameAt(s.d.files, s'.d.files, p);
    }
  }

  /** The failure frame of the chunk loop, put in terms of the state before the entry was opened. */
  lemma FailureSinceStart(job: Job, snap: seq<Bytes>, start: RunState, s0: RunState, s: RunState, e: nat, c: nat)
    requires Ready(job, snap) && e < |job.files| && c < |job.files[e].chunkHashes|
    requires e < |start.bits| && e < |s0.bits| && s0.bits[e] == start.bits[e]
    requires Existing(s0.d.files, job.Dest(e)) == SetLen(Existing(start.d.files, job.Dest(e)), job.files[e].size)
    requires ChunkStopped(job, snap, s0, s, e, c) && s.outcome == Failed(CopyChunkFailed(e, c))
    ensures FailedAt(job, snap, start, s, e, c)
  {
    forall k: nat | c < k < |job.files[e].chunkHashes| ensures ChunkAsSized(job, start, s, e, k) {
      assert ChunkKept(job, s0, s, e, k);
    }
  }

  lemma EventsOkMore(job: Job, events: seq<ProgressEvent>, n: nat, m: nat)
    requires EventsOk(job, events, n) && n <= m
    ensures EventsOk(job, events, m)
  {
  }

  lemma ChunksWithin(job: Job, e: nat)
    requires e < |job.files|
    ensures ChunksBefore(job, e) + |job.files[e].chunkHashes| == ChunksBefore(job, e + 1) <= ChunkTotal(job.files)
  {
    CapacityMonotone(InChunks, job.files, e + 1, |job.files|);
  }

  /** The whole-file check of a completed chunk loop never reports a mismatch. */
  lemma CheckFileRuns(env: Env, job: Job, snap: seq<Bytes>, s: RunState, e: nat)
    requires Ready(job, snap) && e < |job.files| == |s.bits| && s.outcome.Running?
    requires EntryDone(job, snap, s, e)
    ensures var s' := CheckFile(env, job, s, e);
            && s' == s.(d := s.d.(clock := s'.d.clock), filesCompleted := s'.filesCompleted, outcome := s'.outcome)
            && (s'.outcome.Running? ==> s'.filesCompleted == s.filesCompleted + 1)
            && (s'.outcome.Running? || s'.outcome.Killed? || s'.outcome == Failed(HashError(e)))
            && (FaultFree(env) ==> s'.outcome.Running?)
  {
    assert Built(job.files[e], snap[e], job.chunkSize);
    HashFileWhole(env, s.d.clock, snap[e], job.chunkSize);
  }

  lemma OpenedEntry(job: Job, snap: seq<Bytes>, start: RunState, s: RunState, d: DiskState, e: nat)
    requires Ready(job, snap) && e < |job.files| && EntryHead(job, snap, start, s, e)
    requires SameExcept(s.d.files, d.files, job.Dest(e))
    requires job.Dest(e) in d.files && |d.files[job.Dest(e)]| == job.files[e].size
    ensures var s0 := s.(d := d); ChunkHead(job, snap, s0, s0, e, 0)
  {
  }

  /** An entry that could not be opened. */
  lemma OpenStops(env: Env, job: Job, snap: seq<Bytes>, start: RunState, s: RunState, e: nat)
    requires Ready(job, snap) && e < |job.files| && EntryHead(job, snap, start, s, e)
    requires !OpenEntry(env, job, s.d, e).1.Running?
    ensures EntryStopped(job, snap, start, EntryStep(env, job, s, e), e)
  {
    hide OpenEntry, ChunkLoop, CheckFile, SameExcept;
    OpenEntryEffect(env, job, snap, s.d, e);
    ChunksWithin(job, e);
    var (d, outcome) := OpenEntry(env, job, s.d, e);
    var s0 := s.(d := d, outcome := outcome);
    AroundKept(job, snap, start, s, s0, e);
    EventsOkMore(job, s0.events, ChunksBefore(job, e), ChunkTotal(job.files));
  }

  /** An entry whose chunk loop stopped; `s0` is the entry as it was opened. */
  lemma ChunksStop(job: Job, snap: seq<Bytes>, start: RunState, s0: RunState, s: RunState, e: nat, c: nat)
    requires Ready(job, snap) && e < |job.files| && c < |job.files[e].chunkHashes|
    requires Around(job, snap, start, s, e) && ChunkStopped(job, snap, s0, s, e, c)
    requires e < |start.bits| && e < |s0.bits| && s0.bits[e] == start.bits[e]
    requires Existing(s0.d.files, job.Dest(e)) == SetLen(Existing(start.d.files, job.Dest(e)), job.files[e].size)
    ensures EntryStopped(job, snap, start, s, e)
  {
    hide Around, FailedAt, Partway, SetLen;
    ChunksWithin(job, e);
    EventsOkMore(job, s.events, ChunksBefore(job, e) + c, ChunkTotal(job.files));
    if s.outcome == Failed(CopyChunkFailed(e, c)) {
      FailureSinceStart(job, snap, start, s0, s, e, c);
    }
  }

  lemma EntryStepRuns(env: Env, job: Job, snap: seq<Bytes>, start: RunState, s: RunState, e: nat)
    requires Ready(job, snap) && e < |job.files| && EntryHead(job, snap, start, s, e)
    ensures var s' := EntryStep(env, job, s, e);
            && (if s'.outcome.Running? then EntryHead(job, snap, start, s', e + 1) else EntryStopped(job, snap, start, s', e))
            && (Clean(env, job, snap) ==> s'.outcome.Running?)
  {
    hide OpenEntry, ChunkLoop, CheckFile, SameExcept, EntryStopped;
    OpenEntryEffect(env, job, snap, s.d, e);
    var (d, outcome) := OpenEntry(env, job, s.d, e);
    if outcome.Running? {
      var s0 := s.(d := d, outcome := outcome);
      AroundKept(job, snap, start, s, s0, e);
      OpenedEntry(job, snap, start, s, d, e);
      ChunkLoopRuns(env, job, snap, s0, s0, e, 0);
      var looped := ChunkLoop(env, job, s0, e, 0);
      AroundKept(job, snap, start, s0, looped, e);
      if looped.outcome.Running? {
        ChunkLoopFinished(job, snap, s0, looped, e);
        EntryEnds(env, job, snap, start, looped, e);
      } else {
        var c: nat :| c < |job.files[e].chunkHashes| && ChunkStopped(job, snap, s0, looped, e, c);
        ChunksStop(job, snap, start, s0, looped, e, c);
      }
    } else {
      OpenStops(env, job, snap, start, s, e);
    }
  }

  lemma EntryEnds(env: Env, job: Job, snap: seq<Bytes>, start: RunState, s: RunState, e: nat)
    requires Ready(job, snap) && e < |job.files| && s.outcome.Running? && s.filesCompleted == e
    requires Around(job, snap, start, s, e) && EntryDone(job, snap, s, e) && Counted(job, s)
    requires EventsOk(job, s.events, ChunksBefore(job, e) + |job.files[e].chunkHashes|)
    ensures var s' := CheckFile(env, job, s, e);
            && (if s'.outcome.Running? then EntryHead(job, snap, start, s', e + 1) else EntryStopped(job, snap, start, s', e))
            && (FaultFree(env) ==> s'.outcome.Running?)
  {
    CheckFileRuns(env, job, snap, s, e);
    ChunksWithin(job, e);
    var s' := CheckFile(env, job, s, e);
    AroundKept(job, snap, start, s, s', e);
    if !s'.outcome.Running? {
      EventsOkMore(job, s'.events, ChunksBefore(job, e + 1), ChunkTotal(job.files));
    } else {
      assert EntryDone(job, snap, s', e);
    }
  }

  /** How the entry loop ends: at its head with every entry done, or in some entry; with no failing call
      and an unchanged source, at its head. */
  ghost predicate EntryLoopEnd(env: Env, job: Job, snap: seq<Bytes>, start: RunState, s: RunState)
    requires |job.files| == |snap|
  {
    && (if s.outcome.Running? then EntryHead(job, snap, start, s, |job.files|)
        else exists k: nat :: k < |job.files| && EntryStopped(job, snap, start, s, k))
    && (Clean(env, job, snap) ==> s.outcome.Running?)
  }

  lemma EntryLoopStops(env: Env, job: Job, snap: seq<Bytes>, start: RunState, s: RunState, e: nat)
    requires Ready(job, snap) && e < |job.files| && EntryHead(job, snap, start, s, e)
    ensures var next := EntryStep(env, job, s, e);
            if next.outcome.Running? then EntryHead(job, snap, start, next, e + 1) else EntryLoopEnd(env, job, snap, start, next)
  {
    hide EntryStep, EntryHead, EntryStopped, Clean;
    EntryStepRuns(env, job, snap, start, s, e);
  }

  lemma EntryHeadRuns(env: Env, job: Job, snap: seq<Bytes>, start: RunState, s: RunState, e: nat)
    requires e <= |job.files| == |snap| && EntryHead(job, snap, start, s, e)
    ensures |s.bits| == |job.files| && s.outcome.Running?
    ensures e == |job.files| ==> EntryLoopEnd(env, job, snap, start, s)
  {
  }

  lemma {:induction false} EntryLoopRuns(env: Env, job: Job, snap: seq<Bytes>, start: RunState, s: RunState, e: nat)
    requires Ready(job, snap) && e <= |job.files| && EntryHead(job, snap, start, s, e)
    ensures EntryLoopEnd(env, job, snap, start, EntryLoop(env, job, s, e))
    decreases |job.files| - e
  {
    hide EntryStep, EntryHead, EntryLoopEnd;
    EntryHeadRuns(env, job, snap, start, s, e);
    if e < |job.files| {
      EntryLoopStops(env, job, snap, start, s, e);
      var next := EntryStep(env, job, s, e);
      if next.outcome.Running? {
        EntryLoopRuns(env, job, snap, start, next, e + 1);
      } else {
        assert EntryLoop(env, job, s, e) == next;
      }
    }
  }
}
