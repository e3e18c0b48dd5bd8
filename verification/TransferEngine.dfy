/** The transfer as it works on objects: a manifest whose resume bitmaps are updated in place, and a
    file system that it writes to. Each method is proved to do what the run functions compute. */
module TransferEngine {
  import opened FileBytes
  import opened Bitmap
  import opened Device
  import opened Manifest
  import opened Transfer

  class ManifestEntry {
    const info: FileInfo
    const resumeBitmap: array<bv8>

    constructor (info: FileInfo)
      ensures this.info == info && fresh(resumeBitmap) && resumeBitmap[..] == ClearBits(info)
    {
      this.info := info;
      resumeBitmap := new bv8[(|info.chunkHashes| + 7) / 8](_ => 0);
    }

    predicate IsChunkDone(c: nat)
      reads resumeBitmap
    {
      GetBit(resumeBitmap[..], c)
    }

    method MarkChunkDone(c: nat)
      modifies resumeBitmap
      ensures resumeBitmap[..] == WithBit(old(resumeBitmap[..]), c, true)
    {
      SetBitmap(resumeBitmap, c, true);
    }

    method ClearChunkDone(c: nat)
      modifies resumeBitmap
      ensures resumeBitmap[..] == WithBit(old(resumeBitmap[..]), c, false)
    {
      SetBitmap(resumeBitmap, c, false);
    }
  }

  class TransferManifest {
    const rootName: string
    const chunkSize: nat
    const entries: seq<ManifestEntry>

    constructor (rootName: string, chunkSize: nat, entries: seq<ManifestEntry>)
      ensures this.rootName == rootName && this.chunkSize == chunkSize && this.entries == entries
    {
      this.rootName, this.chunkSize, this.entries := rootName, chunkSize, entries;
    }

    /** Every entry owns its bitmap. */
    ghost predicate Valid() {
      forall i, j :: 0 <= i < j < |entries| ==> entries[i].resumeBitmap != entries[j].resumeBitmap
    }

    function Files(): (files: seq<FileInfo>)
      ensures |files| == |entries|
      ensures forall i :: 0 <= i < |files| ==> files[i] == entries[i].info
    {
      seq(|entries|, i requires 0 <= i < |entries| => entries[i].info)
    }

    ghost function Arrays(): set<object> {
      set i | 0 <= i < |entries| :: entries[i].resumeBitmap
    }

    function BitsNow(): (bits: seq<Bits>)
      reads Arrays()
      ensures |bits| == |entries|
      ensures forall i :: 0 <= i < |bits| ==> bits[i] == entries[i].resumeBitmap[..]
    {
      seq(|entries|, i requires 0 <= i < |entries| reads Arrays() => entries[i].resumeBitmap[..])
    }

    method Mark(e: nat, c: nat, value: bool)
      requires Valid() && e < |entries|
      modifies entries[e].resumeBitmap
      ensures BitsNow() == old(BitsNow())[e := WithBit(old(BitsNow())[e], c, value)]
    {
      if value {
        entries[e].MarkChunkDone(c);
      } else {
        entries[e].ClearChunkDone(c);
      }
      assert forall i :: 0 <= i < |entries| && i != e ==> entries[i].resumeBitmap[..] == old(entries[i].resumeBitmap[..]);
    }

    function JobTo(sourcePath: Path, sourceIsFile: bool, targetRoot: Path, checkpointing: bool, maxRetries: nat): Job {
      Job(Files(), chunkSize, rootName, sourcePath, sourceIsFile, targetRoot, checkpointing, maxRetries)
    }
  }

  /** `build_entry`. */
  method RecordFile(env: Env, t: nat, path: Path, rel: Path, cs: nat) returns (t': nat, reply: BuildReply)
    ensures (t', reply) == BuildEntry(env, t, path, rel, cs)
  {
    var seen := env.source(t, path);
    if env.fault(t).Kill? {
      return t + 1, BuildDied;
    }
    if env.fault(t).Fail? || seen.None? {
      return t + 1, BuildRefused;
    }
    var hash;
    t', hash := HashContent(env, t + 1, env.source(t + 1, path), cs);
    match hash {
      case Hashed(fileHash, chunkHashes) => reply := Entry(FileInfo(rel, |seen.value|, fileHash, chunkHashes));
      case HashRefused => reply := BuildRefused;
      case HashDied => reply := BuildDied;
    }
  }

  /** `build_manifest`. `paths` are the files found under the root and `rels` their relative paths;
      a chunk size of 0 stands for the default. */
  method BuildManifest(env: Env, rootName: string, paths: seq<Path>, rels: seq<Path>, requested: nat)
    returns (manifest: TransferManifest?)
    requires |paths| == |rels|
    ensures var cs := if requested == 0 then DEFAULT_CHUNK_SIZE else requested;
            var reply := BuildAll(env, 0, paths, rels, cs).1;
            && (manifest != null <==> reply.Entries?)
            && (manifest != null && requested == 0 ==> manifest.chunkSize == 1048576)
            && (manifest != null ==>
                  && fresh(manifest) && manifest.Valid() && manifest.rootName == rootName
                  && manifest.chunkSize == cs && manifest.Files() == reply.infos
                  && forall i :: 0 <= i < |manifest.entries| ==>
                       manifest.entries[i].resumeBitmap[..] == ClearBits(manifest.entries[i].info))
  {
    hide BuildEntry;
    var cs := if requested == 0 then DEFAULT_CHUNK_SIZE else requested;
    var entries: seq<ManifestEntry> := [];
    ghost var infos: seq<FileInfo> := [];
    var t := 0;
    for i := 0 to |paths|
      invariant |entries| == |infos| == i
      invariant forall k :: 0 <= k < i ==> infos[k] == entries[k].info
      invariant forall k :: 0 <= k < i ==> entries[k].resumeBitmap[..] == ClearBits(entries[k].info)
      invariant forall j, k :: 0 <= j < k < i ==> entries[j].resumeBitmap != entries[k].resumeBitmap
      invariant BuildAll(env, 0, paths[..i], rels[..i], cs) == (t, Entries(infos))
    {
      assert paths[..i + 1][..i] == paths[..i] && rels[..i + 1][..i] == rels[..i];
      var reply;
      t, reply := RecordFile(env, t, paths[i], rels[i], cs);
      if !reply.Entry? {
        BuildAllStops(env, 0, paths, rels, cs, i + 1);
        return null;
      }
      var entry := new ManifestEntry(reply.info);
      entries := entries + [entry];
      infos := infos + [reply.info];
    }
    assert paths[..|paths|] == paths && rels[..|paths|] == rels;
    manifest := new TransferManifest(rootName, cs, entries);
  }

  /** `verify_entry`. */
  method CheckEntry(env: Env, t: nat, root: Path, info: FileInfo, cs: nat) returns (v: Verdict)
    ensures v == VerifyEntry(env, t, root, info, cs)
  {
    var _, reply := RecordFile(env, t, root + info.relativePath, info.relativePath, cs);
    match reply {
      case Entry(again) => v := Verdict(again.fileHash == info.fileHash && again.chunkHashes == info.chunkHashes);
      case BuildRefused => v := VerifyRefused;
      case BuildDied => v := VerifyDied;
    }
  }

  /** The run as it stands: the disk, the manifest, and the local variables of the transfer. */
  ghost function Now(fs: FileSystem, manifest: TransferManifest, bytesDone: nat, filesCompleted: nat,
                     progress: seq<ProgressEvent>, outcome: Outcome): RunState
    reads fs, manifest.Arrays()
  {
    RunState(fs.State(), manifest.BitsNow(), bytesDone, filesCompleted, progress, outcome)
  }

  /** The retry loop. */
  method CopyWithRetries(env: Env, fs: FileSystem, src: Path, dst: Path, off: nat, len: nat, expected: Digest, n: nat)
    returns (reply: Reply)
    requires n > 0
    modifies fs
    ensures (fs.State(), reply) == CopyAttempts(env, old(fs.State()), src, dst, off, len, expected, n)
  {
    var left := n;
    while true
      invariant 0 < left <= n
      invariant CopyAttempts(env, fs.State(), src, dst, off, len, expected, left)
             == CopyAttempts(env, old(fs.State()), src, dst, off, len, expected, n)
      decreases left
    {
      reply := fs.Copy(env, src, dst, off, len, expected);
      if !reply.Refused? || left == 1 {
        return;
      }
      left := left - 1;
    }
  }

  /** Copy one chunk; on success mark it, count it, save the checkpoint and report progress. */
  method TransferChunk(env: Env, fs: FileSystem, manifest: TransferManifest, job: Job, e: nat, c: nat,
                       bytesDone0: nat, filesCompleted: nat, progress0: seq<ProgressEvent>)
    returns (bytesDone: nat, progress: seq<ProgressEvent>, outcome: Outcome)
    requires manifest.Valid() && job.files == manifest.Files()
    requires e < |job.files| && c < |job.files[e].chunkHashes|
    modifies fs, manifest.entries[e].resumeBitmap
    ensures Now(fs, manifest, bytesDone, filesCompleted, progress, outcome)
         == CopyStep(env, job, old(Now(fs, manifest, bytesDone0, filesCompleted, progress0, Running)), e, c)
  {
    bytesDone, progress := bytesDone0, progress0;
    ghost var s := Now(fs, manifest, bytesDone0, filesCompleted, progress0, Running);
    OffsetIsProduct(job.chunkSize, c);
    var reply := CopyWithRetries(env, fs, job.Source(e), job.Dest(e), c * job.chunkSize, job.Len(e, c),
                                 job.files[e].chunkHashes[c], job.Retries());
    outcome := OutcomeOf(reply, CopyChunkFailed(e, c));
    ghost var copied := s.(d := fs.State(), outcome := outcome);
    assert Now(fs, manifest, bytesDone, filesCompleted, progress, outcome) == copied;
    assert CopyStep(env, job, s, e, c) == if outcome.Running? then RecordCopy(env, job, copied, e, c) else copied;
    if outcome.Running? {
      manifest.Mark(e, c, true);
      bytesDone := bytesDone + job.Len(e, c);
      ghost var marked := copied.(bits := copied.bits[e := WithBit(copied.bits[e], c, true)], bytesDone := bytesDone);
      assert Now(fs, manifest, bytesDone, filesCompleted, progress, outcome) == marked;
      if job.checkpointing {
        var saved := fs.SaveManifest(env, manifest.BitsNow());
        outcome := OutcomeOf(saved, CheckpointError);
      }
      if outcome.Running? {
        progress := progress + [ProgressEvent(TotalSize(job.files), bytesDone, job.files[e].relativePath)];
      }
    }
  }

  /** One turn of the chunk loop. */
  method VisitChunk(env: Env, fs: FileSystem, manifest: TransferManifest, job: Job, e: nat, c: nat,
                    bytesDone0: nat, filesCompleted: nat, progress0: seq<ProgressEvent>)
    returns (bytesDone: nat, progress: seq<ProgressEvent>, outcome: Outcome)
    requires manifest.Valid() && job.files == manifest.Files()
    requires e < |job.files| && c < |job.files[e].chunkHashes|
    modifies fs, manifest.entries[e].resumeBitmap
    ensures Now(fs, manifest, bytesDone, filesCompleted, progress, outcome)
         == ChunkStep(env, job, old(Now(fs, manifest, bytesDone0, filesCompleted, progress0, Running)), e, c)
  {
    bytesDone, progress, outcome := bytesDone0, progress0, Running;
    ghost var s := Now(fs, manifest, bytesDone0, filesCompleted, progress0, Running);
    if job.Len(e, c) == 0 {
      return;
    }
    if manifest.entries[e].IsChunkDone(c) {
      OffsetIsProduct(job.chunkSize, c);
      var check := fs.Verify(env, job.Dest(e), c * job.chunkSize, job.Len(e, c), job.files[e].chunkHashes[c]);
      assert Now(fs, manifest, bytesDone, filesCompleted, progress, outcome) == s.(d := fs.State());
      if !check.Mismatch? {
        outcome := if check.Match? then Running else if check.CheckRefused? then Failed(VerifyError(e, c)) else Killed;
        return;
      }
      manifest.Mark(e, c, false);
      bytesDone := SaturatingSub(bytesDone, job.Len(e, c));
      assert Now(fs, manifest, bytesDone, filesCompleted, progress, outcome)
          == s.(d := fs.State(), bits := s.bits[e := WithBit(s.bits[e], c, false)], bytesDone := bytesDone);
    }
    bytesDone, progress, outcome := TransferChunk(env, fs, manifest, job, e, c, bytesDone, filesCompleted, progress);
  }

  /** Create the parent directory, open both files, give the target its final length. */
  method OpenFiles(env: Env, fs: FileSystem, job: Job, e: nat) returns (outcome: Outcome)
    requires e < |job.files|
    modifies fs
    ensures (fs.State(), outcome) == OpenEntry(env, job, old(fs.State()), e)
  {
    var fault, reply := fs.Call(env);
    if !reply.Done? {
      return OutcomeOf(reply, DirError(e));
    }
    var source := env.source(fs.clock, job.Source(e));
    fault, reply := fs.Call(env);
    if !reply.Done? || source.None? {
      return OutcomeOf(if reply.Done? then Refused else reply, SourceError(e));
    }
    reply := fs.Open(env, job.Dest(e));
    if !reply.Done? {
      return OutcomeOf(reply, TargetError(e));
    }
    reply := fs.Resize(env, job.Dest(e), job.files[e].size);
    outcome := OutcomeOf(reply, SizeError(e));
  }

  /** The body of the entry loop: open, visit every chunk, check the whole file. */
  method TransferEntry(env: Env, fs: FileSystem, manifest: TransferManifest, job: Job, e: nat,
                       bytesDone0: nat, filesCompleted0: nat, progress0: seq<ProgressEvent>)
    returns (bytesDone: nat, filesCompleted: nat, progress: seq<ProgressEvent>, outcome: Outcome)
    requires manifest.Valid() && job.files == manifest.Files() && e < |job.files|
    modifies fs, manifest.entries[e].resumeBitmap
    ensures Now(fs, manifest, bytesDone, filesCompleted, progress, outcome)
         == EntryStep(env, job, old(Now(fs, manifest, bytesDone0, filesCompleted0, progress0, Running)), e)
  {
    hide ChunkStep;
    bytesDone, filesCompleted, progress := bytesDone0, filesCompleted0, progress0;
    ghost var s := Now(fs, manifest, bytesDone0, filesCompleted0, progress0, Running);
    outcome := OpenFiles(env, fs, job, e);
    ghost var opened' := s.(d := fs.State(), outcome := outcome);
    assert Now(fs, manifest, bytesDone, filesCompleted, progress, outcome) == opened';
    if !outcome.Running? {
      return;
    }
    var c := 0;
    while c < |job.files[e].chunkHashes| && outcome.Running?
      invariant c <= |job.files[e].chunkHashes|
      invariant ChunkLoop(env, job, Now(fs, manifest, bytesDone, filesCompleted, progress, outcome), e, c)
             == ChunkLoop(env, job, opened', e, 0)
    {
      bytesDone, progress, outcome := VisitChunk(env, fs, manifest, job, e, c, bytesDone, filesCompleted, progress);
      c := c + 1;
    }
    ghost var copied := Now(fs, manifest, bytesDone, filesCompleted, progress, outcome);
    assert copied == ChunkLoop(env, job, opened', e, 0);
    if outcome.Running? {
      var path := job.Dest(e);
      var file := if path in fs.files then Some(fs.files[path]) else None;
      var t, reply := HashContent(env, fs.clock, file, job.chunkSize);
      fs.clock := t;
      assert Now(fs, manifest, bytesDone, filesCompleted, progress, outcome) == copied.(d := copied.d.(clock := t));
      match reply {
        case HashRefused => outcome := Failed(HashError(e));
        case HashDied => outcome := Killed;
        case Hashed(fileHash, _) =>
          if fileHash != job.files[e].fileHash {
            outcome := Failed(FileHashMismatch(e));
          } else {
            filesCompleted := filesCompleted + 1;
          }
      }
    }
  }

  /** `execute_local_transfer`. `progress` is what the callback was given, in order. */
  method ExecuteLocalTransfer(env: Env, fs: FileSystem, manifest: TransferManifest, sourcePath: Path, sourceIsFile: bool,
                              targetRoot: Path, checkpointing: bool, maxRetries: nat)
    returns (outcome: Outcome, progress: seq<ProgressEvent>)
    requires manifest.Valid()
    modifies fs, manifest.Arrays()
    ensures var job := manifest.JobTo(sourcePath, sourceIsFile, targetRoot, checkpointing, maxRetries);
            var s := Execute(env, job, old(fs.State()), old(manifest.BitsNow()));
            fs.State() == s.d && manifest.BitsNow() == s.bits && outcome == s.outcome && progress == s.events
  {
    hide EntryStep;
    var job := manifest.JobTo(sourcePath, sourceIsFile, targetRoot, checkpointing, maxRetries);
    progress := [];
    var _, reply := fs.Call(env);
    if !reply.Done? {
      return OutcomeOf(reply, TargetRootError), progress;
    }
    outcome := Running;
    var bytesTotal, bytesDone := TotalSize(job.files), DoneSize(job.files, job.chunkSize, manifest.BitsNow());
    var filesCompleted := 0;
    progress := progress + [ProgressEvent(bytesTotal, bytesDone, [])];

    ghost var start := Start(job, fs.State(), old(manifest.BitsNow()));
    assert Now(fs, manifest, bytesDone, filesCompleted, progress, outcome) == start;
    var e := 0;
    while e < |job.files| && outcome.Running?
      invariant e <= |job.files|
      invariant EntryLoop(env, job, Now(fs, manifest, bytesDone, filesCompleted, progress, outcome), e)
             == EntryLoop(env, job, start, 0)
    {
      bytesDone, filesCompleted, progress, outcome :=
        TransferEntry(env, fs, manifest, job, e, bytesDone, filesCompleted, progress);
      e := e + 1;
    }
    ghost var looped := Now(fs, manifest, bytesDone, filesCompleted, progress, outcome);
    assert looped == EntryLoop(env, job, start, 0);
    if outcome.Running? {
      reply := Done;
      if checkpointing {
        reply := fs.SaveManifest(env, manifest.BitsNow());
      }
      outcome := if reply.Done? then Finished(TransferReport(bytesTotal, bytesDone, |job.files|, filesCompleted))
                 else OutcomeOf(reply, CheckpointError);
    }
  }
}
