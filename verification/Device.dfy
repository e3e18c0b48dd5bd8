/** The file system under a transfer, one clock tick a system call, and an environment that decides
    for every tick whether the call succeeds, fails part-way, or is the moment the process dies. */
module Device {
  import opened FileBytes
  import opened Bitmap

  /** What a broken call leaves behind: the state before it, the state after it, or a torn file. */
  datatype Landing = Before | After | Torn

  /** `partial` is what a broken write put at the start of the range it was to fill. */
  datatype Fault =
    | Fine
    | Fail(landing: Landing, partial: Bytes)
    | Kill(landing: Landing, partial: Bytes)

  /** `source(t, p)` is what a read of source file `p` sees at tick `t`; `shortRead(t)` caps the
      bytes that one `read` returns at tick `t`. */
  datatype Env = Env(fault: nat -> Fault, source: (nat, Path) -> Option<Bytes>, shortRead: nat -> Option<nat>)

  ghost predicate FullReads(env: Env) {
    forall t :: env.shortRead(t).None?
  }

  /** No write of the checkpoint is cut off half-way. */
  ghost predicate NeverTorn(env: Env) {
    forall t :: env.fault(t).Fine? || !env.fault(t).landing.Torn?
  }

  ghost predicate FaultFree(env: Env) {
    forall t :: env.fault(t).Fine?
  }

  /** The checkpoint file. The constant part of the manifest is the same in every save, so only the
      bitmaps are kept here. */
  datatype Checkpoint = NoFile | Unreadable | Readable(bits: seq<Bits>)

  /** `copies` counts the chunk writes that succeeded in full, `torn` the saves that were torn. */
  datatype DiskState = DiskState(files: map<Path, Bytes>, checkpoint: Checkpoint, clock: nat, copies: nat, torn: nat)

  datatype Reply = Done | Refused | Died

  function Existing(files: map<Path, Bytes>, path: Path): Bytes {
    if path in files then files[path] else []
  }

  function Tick(d: DiskState): DiskState {
    d.(clock := d.clock + 1)
  }

  function ReplyTo(fault: Fault): Reply {
    match fault
    case Fine => Done
    case Fail(_, _) => Refused
    case Kill(_, _) => Died
  }

  /** `create_dir_all`: directories are not modelled, only the failure is. */
  function MakeDir(env: Env, d: DiskState): (DiskState, Reply) {
    (Tick(d), ReplyTo(env.fault(d.clock)))
  }

  function OpenSource(env: Env, d: DiskState, path: Path): (DiskState, Reply) {
    var reply := ReplyTo(env.fault(d.clock));
    (Tick(d), if reply.Done? && env.source(d.clock, path).None? then Refused else reply)
  }

  function Landed(fault: Fault): bool {
    fault.Fine? || fault.landing.After?
  }

  /** Open for reading and writing, creating the file if it is missing, never truncating it. */
  function OpenTarget(env: Env, d: DiskState, path: Path): (DiskState, Reply) {
    var fault := env.fault(d.clock);
    var files := if Landed(fault) then d.files[path := Existing(d.files, path)] else d.files;
    (Tick(d).(files := files), ReplyTo(fault))
  }

  function SetTargetLen(env: Env, d: DiskState, path: Path, n: nat): (DiskState, Reply)
  {
    var fault := env.fault(d.clock);
    var files := if Landed(fault) then d.files[path := SetLen(Existing(d.files, path), n)] else d.files;
    (Tick(d).(files := files), ReplyTo(fault))
  }

  datatype Check = Match | Mismatch | CheckRefused | CheckDied

  /** `verify_chunk_at`. */
  function VerifyChunkAt(env: Env, d: DiskState, path: Path, off: nat, len: nat, expected: Digest): (DiskState, Check)
  {
    var check :=
      match env.fault(d.clock)
      case Kill(_, _) => CheckDied
      case Fail(_, _) => CheckRefused
      case Fine =>
        match ReadExact(Existing(d.files, path), off, len)
        case None => CheckRefused
        case Some(buf) => if Hash(buf) == expected then Match else Mismatch;
    (Tick(d), check)
  }

  /** Seek and `write_all` on the target. A broken write leaves `partial` inside its own range. */
  function WriteTarget(env: Env, d: DiskState, path: Path, off: nat, buf: Bytes): (DiskState, Reply)
  {
    var f := Existing(d.files, path);
    match env.fault(d.clock)
    case Fine => (Tick(d).(files := d.files[path := WriteAt(f, off, buf)], copies := d.copies + 1), Done)
    case Fail(_, partial) =>
      (Tick(d).(files := d.files[path := WriteAt(f, off, partial[..Min(|partial|, |buf|)])]), Refused)
    case Kill(_, partial) =>
      (Tick(d).(files := d.files[path := WriteAt(f, off, partial[..Min(|partial|, |buf|)])]), Died)
  }

  /** `copy_chunk`: read the source range, check its hash, write it to the target. */
  function CopyChunk(env: Env, d: DiskState, src: Path, dst: Path, off: nat, len: nat, expected: Digest): (DiskState, Reply)
  {
    match env.fault(d.clock)
    case Kill(_, _) => (Tick(d), Died)
    case Fail(_, _) => (Tick(d), Refused)
    case Fine =>
      match env.source(d.clock, src)
      case None => (Tick(d), Refused)
      case Some(content) =>
        match ReadExact(content, off, len)
        case None => (Tick(d), Refused)
        case Some(buf) =>
          if Hash(buf) != expected then (Tick(d), Refused) else WriteTarget(env, Tick(d), dst, off, buf)
  }

  /** The retry loop around `copy_chunk`: up to `n` attempts, the first success ends it. */
  function CopyAttempts(env: Env, d: DiskState, src: Path, dst: Path, off: nat, len: nat, expected: Digest, n: nat)
    : (result: (DiskState, Reply))
    requires n > 0
    decreases n
  {
    var first := CopyChunk(env, d, src, dst, off, len, expected);
    if first.1.Refused? && n > 1
    then CopyAttempts(env, first.0, src, dst, off, len, expected, n - 1)
    else first
  }

  /** The disk after `k` attempts. */
  function AfterAttempts(env: Env, d: DiskState, src: Path, dst: Path, off: nat, len: nat, expected: Digest, k: nat): DiskState {
    if k == 0 then d
    else CopyChunk(env, AfterAttempts(env, d, src, dst, off, len, expected, k - 1), src, dst, off, len, expected).0
  }

  /** The result is that of the last attempt made; every attempt before it was refused; and attempts stop
      early only at one that was not refused. */
  ghost predicate LastAttempt(env: Env, d: DiskState, src: Path, dst: Path, off: nat, len: nat, expected: Digest, n: nat, k: nat)
    requires n > 0
  {
    var result := CopyAttempts(env, d, src, dst, off, len, expected, n);
    && k < n
    && (forall j :: 0 <= j < k ==>
          CopyChunk(env, AfterAttempts(env, d, src, dst, off, len, expected, j), src, dst, off, len, expected).1.Refused?)
    && result == CopyChunk(env, AfterAttempts(env, d, src, dst, off, len, expected, k), src, dst, off, len, expected)
    && (result.1.Refused? ==> k == n - 1)
  }

  lemma {:induction false} AfterFirst(env: Env, d: DiskState, src: Path, dst: Path, off: nat, len: nat, expected: Digest, k: nat)
    ensures AfterAttempts(env, CopyChunk(env, d, src, dst, off, len, expected).0, src, dst, off, len, expected, k)
         == AfterAttempts(env, d, src, dst, off, len, expected, k + 1)
  {
    if k > 0 {
      AfterFirst(env, d, src, dst, off, len, expected, k - 1);
    }
  }

  /** A chunk is given up only after all `n` attempts, and its first success is its last attempt. */
  lemma {:induction false} RetriesUntilSuccess(env: Env, d: DiskState, src: Path, dst: Path, off: nat, len: nat,
                                               expected: Digest, n: nat)
    requires n > 0
    ensures exists k :: 0 <= k && LastAttempt(env, d, src, dst, off, len, expected, n, k)
    decreases n
  {
    hide CopyChunk;
    var (d1, first) := CopyChunk(env, d, src, dst, off, len, expected);
    if first.Refused? && n > 1 {
      RetriesUntilSuccess(env, d1, src, dst, off, len, expected, n - 1);
      var k: nat :| LastAttempt(env, d1, src, dst, off, len, expected, n - 1, k);
      AfterFirst(env, d, src, dst, off, len, expected, k);
      forall j | 0 <= j < k + 1
        ensures CopyChunk(env, AfterAttempts(env, d, src, dst, off, len, expected, j), src, dst, off, len, expected).1.Refused?
      {
        if j > 0 {
          AfterFirst(env, d, src, dst, off, len, expected, j - 1);
        }
      }
      assert LastAttempt(env, d, src, dst, off, len, expected, n, k + 1);
    } else {
      assert LastAttempt(env, d, src, dst, off, len, expected, n, 0);
    }
  }

  /** `save_manifest`: a broken save leaves the old checkpoint, the new one, or an unreadable file. */
  function Save(env: Env, d: DiskState, bits: seq<Bits>): (DiskState, Reply) {
    var fault := env.fault(d.clock);
    var saved :=
      if Landed(fault) then d.(checkpoint := Readable(bits))
      else if fault.landing.Torn? then d.(checkpoint := Unreadable, torn := d.torn + 1)
      else d;
    (Tick(saved), ReplyTo(fault))
  }

  datatype HashReply = Hashed(fileHash: Digest, chunkHashes: seq<Digest>) | HashRefused | HashDied

  /** How many bytes one `read` returns into a buffer of `cs` bytes with `rest` bytes left. */
  function ReadSize(cap: Option<nat>, cs: nat, rest: nat): (n: nat)
    ensures n <= rest
  {
    var full := Min(cs, rest);
    if cap.None? || full == 0 then full else Min(full, if cap.value == 0 then 1 else cap.value)
  }

  /** The read loop of `hash_file`: `fed` is what the streaming hasher has taken in so far. */
  function HashLoop(env: Env, t: nat, content: Bytes, pos: nat, cs: nat, fed: Bytes, hashes: seq<Digest>): (nat, HashReply)
    requires pos <= |content|
    decreases |content| - pos
  {
    match env.fault(t)
    case Kill(_, _) => (t + 1, HashDied)
    case Fail(_, _) => (t + 1, HashRefused)
    case Fine =>
      var n := ReadSize(env.shortRead(t), cs, |content| - pos);
      if n == 0 then (t + 1, Hashed(Hash(fed), hashes))
      else
        var piece := content[pos..pos + n];
        HashLoop(env, t + 1, content, pos + n, cs, fed + piece, hashes + [Hash(piece)])
  }

  /** `hash_file` on a file that is stable while it is read. */
  function HashFile(env: Env, t: nat, file: Option<Bytes>, cs: nat): (nat, HashReply) {
    match env.fault(t)
    case Kill(_, _) => (t + 1, HashDied)
    case Fail(_, _) => (t + 1, HashRefused)
    case Fine =>
      match file
      case None => (t + 1, HashRefused)
      case Some(content) => HashLoop(env, t + 1, content, 0, cs, [], [])
  }

  /** Whatever the environment does, a hash that comes back is the hash of the whole content. */
  lemma {:induction false} HashLoopWhole(env: Env, t: nat, content: Bytes, pos: nat, cs: nat, fed: Bytes, hashes: seq<Digest>)
    requires pos <= |content| && cs > 0 && fed == content[..pos]
    ensures var reply := HashLoop(env, t, content, pos, cs, fed, hashes).1;
            reply.Hashed? ==> reply.fileHash == Hash(content)
    ensures FaultFree(env) ==> HashLoop(env, t, content, pos, cs, fed, hashes).1.Hashed?
    decreases |content| - pos
  {
    if env.fault(t).Fine? {
      var n := ReadSize(env.shortRead(t), cs, |content| - pos);
      if n > 0 {
        var piece := content[pos..pos + n];
        assert fed + piece == content[..pos + n];
        HashLoopWhole(env, t + 1, content, pos + n, cs, fed + piece, hashes + [Hash(piece)]);
      } else {
        assert content[..pos] == content;
      }
    }
  }

  lemma HashFileWhole(env: Env, t: nat, content: Bytes, cs: nat)
    requires cs > 0
    ensures var reply := HashFile(env, t, Some(content), cs).1;
            reply.Hashed? ==> reply.fileHash == Hash(content)
    ensures FaultFree(env) ==> HashFile(env, t, Some(content), cs).1.Hashed?
  {
    HashLoopWhole(env, t + 1, content, 0, cs, [], []);
  }

  /** Every read from `pos` on fills the buffer, or comes up to the end of the file. */
  ghost predicate AllFull(env: Env, t: nat, content: Bytes, pos: nat, cs: nat)
    requires pos <= |content| && cs > 0
    decreases |content| - pos
  {
    pos < |content| ==>
      var full := Min(cs, |content| - pos);
      ReadSize(env.shortRead(t), cs, |content| - pos) == full && AllFull(env, t + 1, content, pos + full, cs)
  }

  lemma {:induction false} FullReadsAreFull(env: Env, t: nat, content: Bytes, pos: nat, cs: nat)
    requires pos <= |content| && cs > 0 && FullReads(env)
    ensures AllFull(env, t, content, pos, cs)
    decreases |content| - pos
  {
    if pos < |content| {
      FullReadsAreFull(env, t + 1, content, pos + Min(cs, |content| - pos), cs);
    }
  }

  /** Hashes once pushed stay. */
  lemma {:induction false} HashLoopExtends(env: Env, t: nat, content: Bytes, pos: nat, cs: nat, fed: Bytes, hashes: seq<Digest>)
    requires pos <= |content|
    ensures var reply := HashLoop(env, t, content, pos, cs, fed, hashes).1; reply.Hashed? ==> hashes <= reply.chunkHashes
    decreases |content| - pos
  {
    var n := ReadSize(env.shortRead(t), cs, |content| - pos);
    if env.fault(t).Fine? && n > 0 {
      var piece := content[pos..pos + n];
      HashLoopExtends(env, t + 1, content, pos + n, cs, fed + piece, hashes + [Hash(piece)]);
    }
  }

  lemma ChunkHashesNext(content: Bytes, cs: nat, c: nat)
    requires forall k :: 0 <= k < c + 1 ==> Offset(cs, k) <= |content|
    ensures ChunkHashes(content, cs, c + 1) == ChunkHashes(content, cs, c) + [Hash(Chunk(content, cs, c))]
  {
    hide Chunk, Offset;
  }

  /** The first short read leaves the hash of a piece that is shorter than its chunk. */
  lemma ShortReadShows(env: Env, t: nat, content: Bytes, c: nat, cs: nat, fed: Bytes, hashes: seq<Digest>)
    requires cs > 0 && c < ChunkCount(|content|, cs) && Offset(cs, c) < |content| && |hashes| == c
    requires ReadSize(env.shortRead(t), cs, |content| - Offset(cs, c)) < ChunkLen(|content|, cs, c)
    ensures var reply := HashLoop(env, t, content, Offset(cs, c), cs, fed, hashes).1;
            reply.Hashed? ==> |reply.chunkHashes| > c && reply.chunkHashes[c] != Hash(Chunk(content, cs, c))
  {
    var pos := Offset(cs, c);
    var n := ReadSize(env.shortRead(t), cs, |content| - pos);
    var piece := content[pos..pos + n];
    assert |piece| != |Chunk(content, cs, c)|;
    HashLoopExtends(env, t + 1, content, pos + n, cs, fed + piece, hashes + [Hash(piece)]);
  }

  /** A full read hashes one chunk and comes to the next boundary. */
  lemma FullReadStep(env: Env, t: nat, content: Bytes, c: nat, cs: nat, fed: Bytes, hashes: seq<Digest>)
    requires cs > 0 && Offset(cs, c) < |content| && env.fault(t).Fine?
    requires ReadSize(env.shortRead(t), cs, |content| - Offset(cs, c)) == ChunkLen(|content|, cs, c)
    ensures var next := Min(Offset(cs, c + 1), |content|);
            && HashLoop(env, t, content, Offset(cs, c), cs, fed, hashes)
               == HashLoop(env, t + 1, content, next, cs, fed + Chunk(content, cs, c), hashes + [Hash(Chunk(content, cs, c))])
            && (AllFull(env, t, content, Offset(cs, c), cs) <==> AllFull(env, t + 1, content, next, cs))
  {
    OffsetNext(cs, c);
    hide Offset, ReadSize;
  }

  /** Standing at a chunk boundary with every chunk so far hashed, the loop ends with the hashes of all
      chunks exactly when the reads that are left are full. */
  lemma {:induction false} HashLoopChunks(env: Env, t: nat, content: Bytes, c: nat, cs: nat, fed: Bytes, hashes: seq<Digest>)
    requires cs > 0 && c <= ChunkCount(|content|, cs)
    requires forall k :: 0 <= k < ChunkCount(|content|, cs) ==> Offset(cs, k) <= |content|
    requires hashes == ChunkHashes(content, cs, c)
    ensures var pos := Min(Offset(cs, c), |content|);
            var reply := HashLoop(env, t, content, pos, cs, fed, hashes).1;
            reply.Hashed? ==>
              (reply.chunkHashes == ChunkHashes(content, cs, ChunkCount(|content|, cs)) <==> AllFull(env, t, content, pos, cs))
    decreases ChunkCount(|content|, cs) - c
  {
    var n := ChunkCount(|content|, cs);
    ChunkIndex(|content|, cs, c);
    hide Chunk, Offset, ReadSize;
    if env.fault(t).Fine? && c < n {
      var pos := Offset(cs, c);
      if ReadSize(env.shortRead(t), cs, |content| - pos) == ChunkLen(|content|, cs, c) {
        ChunkHashesNext(content, cs, c);
        FullReadStep(env, t, content, c, cs, fed, hashes);
        HashLoopChunks(env, t + 1, content, c + 1, cs, fed + Chunk(content, cs, c), ChunkHashes(content, cs, c + 1));
      } else {
        ShortReadShows(env, t, content, c, cs, fed, hashes);
        assert !AllFull(env, t, content, pos, cs);
        assert ChunkHashes(content, cs, n)[c] == Hash(Chunk(content, cs, c));
      }
    }
  }

  // ---------------------------------------------------------------- the file system as an object

  /** The disk that a transfer changes in place. Each call is one tick of the clock. */
  class FileSystem {
    var files: map<Path, Bytes>
    var checkpoint: Checkpoint
    var clock: nat
    var copies: nat
    var torn: nat

    constructor (files: map<Path, Bytes>, checkpoint: Checkpoint)
      ensures State() == DiskState(files, checkpoint, 0, 0, 0)
    {
      this.files, this.checkpoint, clock, copies, torn := files, checkpoint, 0, 0, 0;
    }

    function State(): DiskState
      reads this
    {
      DiskState(files, checkpoint, clock, copies, torn)
    }

    method Call(env: Env) returns (fault: Fault, reply: Reply)
      modifies this`clock
      ensures clock == old(clock) + 1
      ensures fault == env.fault(old(clock)) && reply == ReplyTo(fault)
    {
      fault := env.fault(clock);
      reply := ReplyTo(fault);
      clock := clock + 1;
    }

    method Open(env: Env, path: Path) returns (reply: Reply)
      modifies this
      ensures (State(), reply) == OpenTarget(env, old(State()), path)
    {
      var fault;
      fault, reply := Call(env);
      if Landed(fault) && path !in files {
        files := files[path := []];
      }
      assert path in old(files) ==> old(files)[path := old(files)[path]] == old(files);
    }

    method Resize(env: Env, path: Path, n: nat) returns (reply: Reply)
      modifies this
      ensures (State(), reply) == SetTargetLen(env, old(State()), path, n)
    {
      var fault;
      fault, reply := Call(env);
      if Landed(fault) {
        files := files[path := SetLen(Existing(files, path), n)];
      }
    }

    method Verify(env: Env, path: Path, off: nat, len: nat, expected: Digest) returns (check: Check)
      modifies this
      ensures (State(), check) == VerifyChunkAt(env, old(State()), path, off, len, expected)
    {
      var _, reply := Call(env);
      if reply.Died? {
        return CheckDied;
      }
      var buf := ReadExact(Existing(files, path), off, len);
      if reply.Refused? || buf.None? {
        return CheckRefused;
      }
      check := if Hash(buf.value) == expected then Match else Mismatch;
    }

    method Copy(env: Env, src: Path, dst: Path, off: nat, len: nat, expected: Digest) returns (reply: Reply)
      modifies this
      ensures (State(), reply) == CopyChunk(env, old(State()), src, dst, off, len, expected)
    {
      var content := env.source(clock, src);
      var fault;
      fault, reply := Call(env);
      if !reply.Done? {
        return;
      }
      if content.None? {
        return Refused;
      }
      var buf := ReadExact(content.value, off, len);
      if buf.None? || Hash(buf.value) != expected {
        return Refused;
      }
      fault, reply := Call(env);
      if reply.Done? {
        files := files[dst := WriteAt(Existing(files, dst), off, buf.value)];
        copies := copies + 1;
      } else {
        files := files[dst := WriteAt(Existing(files, dst), off, fault.partial[..Min(|fault.partial|, |buf.value|)])];
      }
    }

    method SaveManifest(env: Env, bits: seq<Bits>) returns (reply: Reply)
      modifies this
      ensures (State(), reply) == Save(env, old(State()), bits)
    {
      var fault;
      fault, reply := Call(env);
      if Landed(fault) {
        checkpoint := Readable(bits);
      } else if fault.landing.Torn? {
        checkpoint, torn := Unreadable, torn + 1;
      }
    }
  }

  /** The read loop of `hash_file`. `t` is the clock at its start, `t'` the clock at its end. */
  method HashContent(env: Env, t: nat, file: Option<Bytes>, cs: nat) returns (t': nat, reply: HashReply)
    ensures (t', reply) == HashFile(env, t, file, cs)
    ensures reply.Hashed? && cs > 0 ==> file.Some? && reply.fileHash == Hash(file.value)
  {
    t' := t + 1;
    if env.fault(t).Kill? {
      return t', HashDied;
    }
    if env.fault(t).Fail? || file.None? {
      return t', HashRefused;
    }
    var content := file.value;
    var pos, fed, hashes := 0, [], [];
    if cs > 0 {
      HashFileWhole(env, t, content, cs);
    }
    while true
      invariant pos <= |content|
      invariant HashLoop(env, t', content, pos, cs, fed, hashes) == HashFile(env, t, file, cs)
      decreases |content| - pos
    {
      if env.fault(t').Kill? {
        return t' + 1, HashDied;
      }
      if env.fault(t').Fail? {
        return t' + 1, HashRefused;
      }
      var n := ReadSize(env.shortRead(t'), cs, |content| - pos);
      t' := t' + 1;
      if n == 0 {
        return t', Hashed(Hash(fed), hashes);
      }
      var piece := content[pos..pos + n];
      fed := fed + piece;
      hashes := hashes + [Hash(piece)];
      pos := pos + n;
    }
  }
}
