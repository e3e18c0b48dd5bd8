/** What `execute_local_transfer` computes: from a disk, a set of resume bits and an environment, the
    state in which the run ends. */
module Transfer {
  import opened FileBytes
  import opened Bitmap
  import opened Device
  import opened Manifest

  const DEFAULT_MAX_RETRIES: nat := 3

  /** A transfer to one target: the constant part of the manifest and the arguments of the call. */
  datatype Job = Job(
    files: seq<FileInfo>, chunkSize: nat, rootName: string,
    sourcePath: Path, sourceIsFile: bool, targetRoot: Path, checkpointing: bool, maxRetries: nat)
  {
    predicate SingleFile() {
      sourceIsFile && |files| == 1 && files[0].relativePath == [rootName]
    }

    function Source(e: nat): Path
      requires e < |files|
    {
      if sourceIsFile then sourcePath else sourcePath + files[e].relativePath
    }

    function Dest(e: nat): Path
      requires e < |files|
    {
      if SingleFile() then targetRoot + [rootName] else targetRoot + [rootName] + files[e].relativePath
    }

    function Len(e: nat, c: nat): nat
      requires e < |files|
    {
      ChunkLen(files[e].size, chunkSize, c)
    }

    function Retries(): (n: nat)
      ensures n > 0
    {
      if maxRetries == 0 then 1 else maxRetries
    }
  }

  datatype ProgressEvent = ProgressEvent(bytesTotal: nat, bytesDone: nat, currentFile: Path)

  datatype TransferReport = TransferReport(bytesTotal: nat, bytesDone: nat, filesTotal: nat, filesCompleted: nat)

  datatype TransferError =
    | TargetRootError
    | DirError(e: nat) | SourceError(e: nat) | TargetError(e: nat) | SizeError(e: nat)
    | VerifyError(e: nat, c: nat)
    | CopyChunkFailed(e: nat, c: nat)
    | CheckpointError
    | HashError(e: nat)
    | FileHashMismatch(e: nat)

  datatype Outcome = Running | Finished(report: TransferReport) | Failed(error: TransferError) | Killed

  /** The disk and everything the run holds in memory. `bits` is the resume bitmap of each entry. */
  datatype RunState = RunState(
    d: DiskState, bits: seq<Bits>, bytesDone: nat, filesCompleted: nat,
    events: seq<ProgressEvent>, outcome: Outcome)

  /** The outcome after a reply: a refused call ends the run with `err`, a lethal one kills it. */
  function OutcomeOf(reply: Reply, err: TransferError): Outcome {
    match reply
    case Done => Running
    case Refused => Failed(err)
    case Died => Killed
  }

  function Emit(job: Job, s: RunState, file: Path): RunState {
    s.(events := s.events + [ProgressEvent(TotalSize(job.files), s.bytesDone, file)])
  }

  /** A chunk that was copied: mark it, count it, save the checkpoint, report progress. */
  function RecordCopy(env: Env, job: Job, s: RunState, e: nat, c: nat): (s': RunState)
    requires e < |job.files| == |s.bits|
    ensures |s'.bits| == |s.bits|
  {
    var marked := s.(bits := s.bits[e := WithBit(s.bits[e], c, true)], bytesDone := s.bytesDone + job.Len(e, c));
    if !job.checkpointing then Emit(job, marked, job.files[e].relativePath)
    else
      var (d, reply) := Save(env, marked.d, marked.bits);
      var saved := marked.(d := d, outcome := OutcomeOf(reply, CheckpointError));
      if saved.outcome.Running? then Emit(job, saved, job.files[e].relativePath) else saved
  }

  function CopyStep(env: Env, job: Job, s: RunState, e: nat, c: nat): (s': RunState)
    requires e < |job.files| == |s.bits| && c < |job.files[e].chunkHashes|
    ensures |s'.bits| == |s.bits|
  {
    var (d, reply) := CopyAttempts(env, s.d, job.Source(e), job.Dest(e), Offset(job.chunkSize, c), job.Len(e, c),
                                   job.files[e].chunkHashes[c], job.Retries());
    var copied := s.(d := d, outcome := OutcomeOf(reply, CopyChunkFailed(e, c)));
    if copied.outcome.Running? then RecordCopy(env, job, copied, e, c) else copied
  }

  /** One turn of the chunk loop: a chunk claimed done is verified first, and copied if it is stale. */
  function ChunkStep(env: Env, job: Job, s: RunState, e: nat, c: nat): (s': RunState)
    requires e < |job.files| == |s.bits| && c < |job.files[e].chunkHashes|
    ensures |s'.bits| == |s.bits|
  {
    if job.Len(e, c) == 0 then s
    else if !GetBit(s.bits[e], c) then CopyStep(env, job, s, e, c)
    else
      var (d, check) := VerifyChunkAt(env, s.d, job.Dest(e), Offset(job.chunkSize, c), job.Len(e, c),
                                      job.files[e].chunkHashes[c]);
      match check
      case Match => s.(d := d)
      case Mismatch =>
        var cleared := s.(d := d, bits := s.bits[e := WithBit(s.bits[e], c, false)],
                          bytesDone := SaturatingSub(s.bytesDone, job.Len(e, c)));
        CopyStep(env, job, cleared, e, c)
      case CheckRefused => s.(d := d, outcome := Failed(VerifyError(e, c)))
      case CheckDied => s.(d := d, outcome := Killed)
  }

  function ChunkLoop(env: Env, job: Job, s: RunState, e: nat, c: nat): (s': RunState)
    requires e < |job.files| == |s.bits| && c <= |job.files[e].chunkHashes|
    ensures |s'.bits| == |s.bits|
    decreases |job.files[e].chunkHashes| - c
  {
    if !s.outcome.Running? || c == |job.files[e].chunkHashes| then s
    else ChunkLoop(env, job, ChunkStep(env, job, s, e, c), e, c + 1)
  }

  /** Parent directory, source handle, target handle without truncation, target length. */
  function OpenEntry(env: Env, job: Job, d: DiskState, e: nat): (DiskState, Outcome)
    requires e < |job.files|
  {
    var (d1, r1) := MakeDir(env, d);
    if !r1.Done? then (d1, OutcomeOf(r1, DirError(e))) else
    var (d2, r2) := OpenSource(env, d1, job.Source(e));
    if !r2.Done? then (d2, OutcomeOf(r2, SourceError(e))) else
    var (d3, r3) := OpenTarget(env, d2, job.Dest(e));
    if !r3.Done? then (d3, OutcomeOf(r3, TargetError(e))) else
    var (d4, r4) := SetTargetLen(env, d3, job.Dest(e), job.files[e].size);
    (d4, OutcomeOf(r4, SizeError(e)))
  }

  /** The whole-file check at the end of an entry. */
  function CheckFile(env: Env, job: Job, s: RunState, e: nat): (s': RunState)
    requires e < |job.files| == |s.bits|
    ensures |s'.bits| == |s.bits|
  {
    var path := job.Dest(e);
    var file := if path in s.d.files then Some(s.d.files[path]) else None;
    var (t, reply) := HashFile(env, s.d.clock, file, job.chunkSize);
    var hashed := s.(d := s.d.(clock := t));
    match reply
    case HashRefused => hashed.(outcome := Failed(HashError(e)))
    case HashDied => hashed.(outcome := Killed)
    case Hashed(fileHash, _) =>
      if fileHash != job.files[e].fileHash then hashed.(outcome := Failed(FileHashMismatch(e)))
      else hashed.(filesCompleted := hashed.filesCompleted + 1)
  }

  function EntryStep(env: Env, job: Job, s: RunState, e: nat): (s': RunState)
    requires e < |job.files| == |s.bits|
    ensures |s'.bits| == |s.bits|
  {
    var (d, outcome) := OpenEntry(env, job, s.d, e);
    var opened' := s.(d := d, outcome := outcome);
    if !outcome.Running? then opened' else
    var copied := ChunkLoop(env, job, opened', e, 0);
    if copied.outcome.Running? then CheckFile(env, job, copied, e) else copied
  }

  function EntryLoop(env: Env, job: Job, s: RunState, e: nat): (s': RunState)
    requires e <= |job.files| == |s.bits|
    ensures |s'.bits| == |s.bits|
    decreases |job.files| - e
  {
    if !s.outcome.Running? || e == |job.files| then s
    else EntryLoop(env, job, EntryStep(env, job, s, e), e + 1)
  }

  function Finish(env: Env, job: Job, s: RunState): (s': RunState)
    ensures |s'.bits| == |s.bits|
  {
    var (d, reply) := if job.checkpointing then Save(env, s.d, s.bits) else (s.d, Done);
    var report := TransferReport(TotalSize(job.files), s.bytesDone, |job.files|, s.filesCompleted);
    s.(d := d, outcome := if reply.Done? then Finished(report) else OutcomeOf(reply, CheckpointError))
  }

  /** The state at the head of the entry loop: the counter is recomputed and reported once. */
  function Start(job: Job, d: DiskState, bits: seq<Bits>): (s: RunState)
    requires |bits| == |job.files|
    ensures s.bits == bits
  {
    Emit(job, RunState(d, bits, DoneSize(job.files, job.chunkSize, bits), 0, [], Running), [])
  }

  function Execute(env: Env, job: Job, d: DiskState, bits: seq<Bits>): (s: RunState)
    requires |bits| == |job.files|
    ensures |s.bits| == |bits|
  {
    var (d1, reply) := MakeDir(env, d);
    if !reply.Done? then RunState(d1, bits, 0, 0, [], OutcomeOf(reply, TargetRootError)) else
    var s := EntryLoop(env, job, Start(job, d1, bits), 0);
    if s.outcome.Running? then Finish(env, job, s) else s
  }
}
