/** Manifests: what a built entry says about a file, byte and chunk tallies of the resume bits, and
    the checks of an entry against a file. */
module Manifest {
  import opened FileBytes
  import opened Bitmap
  import opened Device

  const DEFAULT_CHUNK_SIZE: nat := 1024 * 1024

  /** The part of a manifest entry that a transfer never changes. */
  datatype FileInfo = FileInfo(relativePath: Path, size: nat, fileHash: Digest, chunkHashes: seq<Digest>)

  /** What `build_entry` records about `content`. */
  ghost predicate Built(info: FileInfo, content: Bytes, cs: nat)
  {
    && cs > 0
    && info.size == |content|
    && info.fileHash == Hash(content)
    && |info.chunkHashes| == ChunkCount(|content|, cs)
    && forall c :: 0 <= c < |info.chunkHashes| ==>
         Offset(cs, c) <= |content| && info.chunkHashes[c] == Hash(Chunk(content, cs, c))
  }

  ghost predicate AllBuilt(files: seq<FileInfo>, snap: seq<Bytes>, cs: nat)
  {
    |snap| == |files| && forall e :: 0 <= e < |files| ==> Built(files[e], snap[e], cs)
  }

  /** A bitmap long enough for every chunk of the entry. */
  predicate Fits(info: FileInfo, bm: Bits) {
    |info.chunkHashes| <= 8 * |bm|
  }

  function ClearBits(info: FileInfo): (bm: Bits)
    ensures Fits(info, bm)
  {
    seq((|info.chunkHashes| + 7) / 8, _ => 0)
  }

  lemma ClearBitsAreClear(info: FileInfo, c: nat)
    ensures !GetBit(ClearBits(info), c)
  {
    MaskIsTable(c % 8);
  }

  // ---------------------------------------------------------------- build_entry and verify_entry

  /** The source file reads as `content` at every tick. */
  ghost predicate Stable(env: Env, path: Path, content: Bytes) {
    forall t :: env.source(t, path) == Some(content)
  }

  datatype BuildReply = Entry(info: FileInfo) | BuildRefused | BuildDied

  function BuildEntry(env: Env, t: nat, path: Path, rel: Path, cs: nat): (nat, BuildReply) {
    match env.fault(t)
    case Kill(_, _) => (t + 1, BuildDied)
    case Fail(_, _) => (t + 1, BuildRefused)
    case Fine =>
      match env.source(t, path)
      case None => (t + 1, BuildRefused)
      case Some(seen) =>
        var (t', reply) := HashFile(env, t + 1, env.source(t + 1, path), cs);
        match reply
        case Hashed(fileHash, chunkHashes) => (t', Entry(FileInfo(rel, |seen|, fileHash, chunkHashes)))
        case HashRefused => (t', BuildRefused)
        case HashDied => (t', BuildDied)
  }

  /** All reads of the pass over `content` that `BuildEntry` makes when it is called at tick `t` are full. */
  ghost predicate PassIsFull(env: Env, t: nat, content: Bytes, cs: nat)
    requires cs > 0
  {
    AllFull(env, t + 2, content, 0, cs)
  }

  /** An entry built from a stable file records that file exactly when the reads of this pass were full. */
  lemma BuildEntryIsBuilt(env: Env, t: nat, path: Path, rel: Path, cs: nat, content: Bytes)
    requires cs > 0 && Stable(env, path, content)
    ensures var reply := BuildEntry(env, t, path, rel, cs).1;
            reply.Entry? ==> reply.info.relativePath == rel && (Built(reply.info, content, cs) <==> PassIsFull(env, t, content, cs))
    ensures FullReads(env) ==> PassIsFull(env, t, content, cs)
    ensures FaultFree(env) ==> BuildEntry(env, t, path, rel, cs).1.Entry?
  {
    ChunksInside(content, cs);
    HashFileWhole(env, t + 1, content, cs);
    HashLoopChunks(env, t + 2, content, 0, cs, [], []);
    if FullReads(env) {
      FullReadsAreFull(env, t + 2, content, 0, cs);
    }
    var reply := BuildEntry(env, t, path, rel, cs).1;
    if reply.Entry? && Built(reply.info, content, cs) {
      assert reply.info.chunkHashes == ChunkHashes(content, cs, ChunkCount(|content|, cs));
    }
  }

  datatype BuildAllReply = Entries(infos: seq<FileInfo>) | EntriesRefused | EntriesDied

  /** `build_manifest` over the files found under the root, in order. */
  function BuildAll(env: Env, t: nat, paths: seq<Path>, rels: seq<Path>, cs: nat): (nat, BuildAllReply)
    requires |paths| == |rels|
  {
    if paths == [] then (t, Entries([])) else
    var n := |paths| - 1;
    var (t1, front) := BuildAll(env, t, paths[..n], rels[..n], cs);
    if !front.Entries? then (t1, front) else
    var (t2, last) := BuildEntry(env, t1, paths[n], rels[n], cs);
    match last
    case Entry(info) => (t2, Entries(front.infos + [info]))
    case BuildRefused => (t2, EntriesRefused)
    case BuildDied => (t2, EntriesDied)
  }

  /** A refused or lethal file ends the build. */
  lemma {:induction false} BuildAllStops(env: Env, t: nat, paths: seq<Path>, rels: seq<Path>, cs: nat, k: nat)
    requires |paths| == |rels| && k <= |paths|
    requires !BuildAll(env, t, paths[..k], rels[..k], cs).1.Entries?
    ensures BuildAll(env, t, paths, rels, cs) == BuildAll(env, t, paths[..k], rels[..k], cs)
    decreases |paths| - k
  {
    if k < |paths| {
      var n := |paths| - 1;
      assert paths[..n][..k] == paths[..k] && rels[..n][..k] == rels[..k];
      BuildAllStops(env, t, paths[..n], rels[..n], cs, k);
    } else {
      assert paths[..k] == paths && rels[..k] == rels;
    }
  }

  /** The passes over all files were full, each from the tick at which its entry was built. */
  ghost predicate PassesAreFull(env: Env, t: nat, paths: seq<Path>, rels: seq<Path>, cs: nat, snap: seq<Bytes>)
    requires |paths| == |rels| == |snap| && cs > 0
  {
    forall i :: 0 <= i < |paths| ==> PassIsFull(env, BuildAll(env, t, paths[..i], rels[..i], cs).0, snap[i], cs)
  }

  lemma PassesNext(env: Env, t: nat, paths: seq<Path>, rels: seq<Path>, cs: nat, snap: seq<Bytes>)
    requires |paths| == |rels| == |snap| && cs > 0 && paths != []
    ensures var n := |paths| - 1;
            PassesAreFull(env, t, paths, rels, cs, snap) <==>
              && PassesAreFull(env, t, paths[..n], rels[..n], cs, snap[..n])
              && PassIsFull(env, BuildAll(env, t, paths[..n], rels[..n], cs).0, snap[n], cs)
  {
    hide BuildAll, PassIsFull;
    var n := |paths| - 1;
    assert forall i :: 0 <= i < n ==> paths[..n][..i] == paths[..i] && rels[..n][..i] == rels[..i];
  }

  /** A manifest made of stable files names them in order, and records every one of them exactly when the
      pass over each file was full. */
  lemma {:induction false} BuildAllIsBuilt(env: Env, t: nat, paths: seq<Path>, rels: seq<Path>, cs: nat, snap: seq<Bytes>)
    requires |paths| == |rels| == |snap| && cs > 0
    requires forall i :: 0 <= i < |paths| ==> Stable(env, paths[i], snap[i])
    ensures var reply := BuildAll(env, t, paths, rels, cs).1;
            reply.Entries? ==>
              && |reply.infos| == |rels|
              && (forall i :: 0 <= i < |rels| ==> reply.infos[i].relativePath == rels[i])
              && (AllBuilt(reply.infos, snap, cs) <==> PassesAreFull(env, t, paths, rels, cs, snap))
    ensures FullReads(env) ==> PassesAreFull(env, t, paths, rels, cs, snap)
    ensures FaultFree(env) ==> BuildAll(env, t, paths, rels, cs).1.Entries?
  {
    hide BuildEntry, PassIsFull, Built;
    if paths != [] {
      var n := |paths| - 1;
      var (t1, front) := BuildAll(env, t, paths[..n], rels[..n], cs);
      BuildAllIsBuilt(env, t, paths[..n], rels[..n], cs, snap[..n]);
      BuildEntryIsBuilt(env, t1, paths[n], rels[n], cs, snap[n]);
      PassesNext(env, t, paths, rels, cs, snap);
      var reply := BuildEntry(env, t1, paths[n], rels[n], cs).1;
      if front.Entries? && reply.Entry? {
        AllBuiltNext(front.infos, reply.info, snap, cs);
      }
    }
  }

  lemma AllBuiltNext(infos: seq<FileInfo>, info: FileInfo, snap: seq<Bytes>, cs: nat)
    requires |snap| == |infos| + 1
    ensures AllBuilt(infos + [info], snap, cs) <==> AllBuilt(infos, snap[..|infos|], cs) && Built(info, snap[|infos|], cs)
  {
    hide Built;
    var all := infos + [info];
    assert forall e :: 0 <= e < |infos| ==> all[e] == infos[e];
    assert all[|infos|] == info;
  }

  datatype Verdict = Verdict(same: bool) | VerifyRefused | VerifyDied

  function VerifyEntry(env: Env, t: nat, root: Path, info: FileInfo, cs: nat): Verdict {
    match BuildEntry(env, t, root + info.relativePath, info.relativePath, cs).1
    case Entry(again) => Verdict(again.fileHash == info.fileHash && again.chunkHashes == info.chunkHashes)
    case BuildRefused => VerifyRefused
    case BuildDied => VerifyDied
  }

  /** The verdict is "same" exactly when the file still holds the content it had when the entry was built
      and the reads of this pass were full. So a "same" verdict is always right, and an unchanged file is
      accepted exactly when the pass read it in whole chunks. */
  lemma VerifyDecidesEquality(env: Env, t: nat, root: Path, info: FileInfo, cs: nat, built: Bytes, current: Bytes)
    requires Built(info, built, cs) && Stable(env, root + info.relativePath, current)
    ensures var v := VerifyEntry(env, t, root, info, cs);
            && (v.Verdict? ==> (v.same <==> current == built && PassIsFull(env, t, current, cs)))
            && (FullReads(env) ==> PassIsFull(env, t, current, cs))
            && (FaultFree(env) ==> v.Verdict?)
  {
    var path := root + info.relativePath;
    HashFileWhole(env, t + 1, current, cs);
    BuildEntryIsBuilt(env, t, path, info.relativePath, cs, current);
    var reply := BuildEntry(env, t, path, info.relativePath, cs).1;
    if reply.Entry? && current == built && PassIsFull(env, t, current, cs) {
      assert reply.info.chunkHashes == info.chunkHashes;
    }
  }

  /** With short reads the other direction fails: a two-byte file read one byte at a time is cut at
      the wrong places, and its own fresh entry is rejected. */
  lemma ShortReadsRejectFreshEntry()
    ensures exists env: Env, info: FileInfo, content: Bytes ::
      && FaultFree(env) && Stable(env, ["r", "f"], content) && info.relativePath == ["f"]
      && Built(info, content, 2)
      && VerifyEntry(env, 0, ["r"], info, 2) == Verdict(false)
  {
    var content: Bytes := [0, 0];
    var env := Env(t => Fine, (t, p) => Some(content), t => Some(1));
    var info := FileInfo(["f"], 2, Hash(content), [Hash(content)]);
    assert ["r"] + ["f"] == ["r", "f"];
    assert Chunk(content, 2, 0) == content;
    assert Built(info, content, 2);
    var reply := HashFile(env, 1, Some(content), 2).1;
    assert reply == HashLoop(env, 2, content, 0, 2, [], []).1;
    assert content[0..1] == [0];
    assert reply == HashLoop(env, 3, content, 1, 2, [] + [0], [] + [Hash([0])]).1;
    assert content[1..2] == [0];
    assert reply == HashLoop(env, 4, content, 2, 2, [0] + [0], [Hash([0])] + [Hash([0])]).1;
    assert VerifyEntry(env, 0, ["r"], info, 2) == Verdict(false);
  }

  // ---------------------------------------------------------------- tallies of resume bits

  /** A tally counts the marked chunks, or the bytes in them. */
  datatype Measure = InBytes | InChunks

  function Weight(m: Measure, info: FileInfo, cs: nat, c: nat): nat {
    match m
    case InBytes => ChunkLen(info.size, cs, c)
    case InChunks => 1
  }

  /** The tally of the marked chunks among the first `n` chunks of one file. */
  function TallyFile(m: Measure, info: FileInfo, cs: nat, bm: Bits, n: nat): nat {
    if n == 0 then 0
    else TallyFile(m, info, cs, bm, n - 1) + if GetBit(bm, n - 1) then Weight(m, info, cs, n - 1) else 0
  }

  /** The tally of the first `k` files. */
  function Tally(m: Measure, files: seq<FileInfo>, cs: nat, bits: seq<Bits>, k: nat): nat
    requires k <= |files| && k <= |bits|
  {
    if k == 0 then 0
    else Tally(m, files, cs, bits, k - 1)
         + TallyFile(m, files[k - 1], cs, bits[k - 1], |files[k - 1].chunkHashes|)
  }

  /** What the tally is when every bit is set: `total_size`, or the number of chunks. */
  function Capacity(m: Measure, files: seq<FileInfo>, k: nat): nat
    requires k <= |files|
  {
    if k == 0 then 0
    else Capacity(m, files, k - 1) + if m.InBytes? then files[k - 1].size else |files[k - 1].chunkHashes|
  }

  function DoneSize(files: seq<FileInfo>, cs: nat, bits: seq<Bits>): nat
    requires |bits| == |files|
  {
    Tally(InBytes, files, cs, bits, |files|)
  }

  function TotalSize(files: seq<FileInfo>): nat {
    Capacity(InBytes, files, |files|)
  }

  function ChunkTotal(files: seq<FileInfo>): nat {
    Capacity(InChunks, files, |files|)
  }

  /** Bits at or past `n` do not matter to the tally of the first `n` chunks. */
  lemma {:induction false} TallyFileSame(m: Measure, info: FileInfo, cs: nat, bm: Bits, bm': Bits, n: nat)
    requires forall c: nat :: c < n ==> GetBit(bm, c) == GetBit(bm', c)
    ensures TallyFile(m, info, cs, bm, n) == TallyFile(m, info, cs, bm', n)
  {
    if n > 0 {
      TallyFileSame(m, info, cs, bm, bm', n - 1);
    }
  }

  lemma {:induction false} TallyFileUpdate(m: Measure, info: FileInfo, cs: nat, bm: Bits, c: nat, value: bool, n: nat)
    requires c < n && c < 8 * |bm| && GetBit(bm, c) != value
    ensures var before, after := TallyFile(m, info, cs, bm, n), TallyFile(m, info, cs, WithBit(bm, c, value), n);
            if value then after == before + Weight(m, info, cs, c) else before == after + Weight(m, info, cs, c)
  {
    GetAfterSet(bm, c, value, n - 1);
    if c < n - 1 {
      TallyFileUpdate(m, info, cs, bm, c, value, n - 1);
    } else {
      forall k: nat | k < n - 1 ensures GetBit(bm, k) == GetBit(WithBit(bm, c, value), k) {
        GetAfterSet(bm, c, value, k);
      }
      TallyFileSame(m, info, cs, bm, WithBit(bm, c, value), n - 1);
    }
  }

  lemma {:induction false} TallySame(m: Measure, files: seq<FileInfo>, cs: nat, bits: seq<Bits>, e: nat, bm: Bits, k: nat)
    requires k <= e < |bits| && k <= |files|
    ensures Tally(m, files, cs, bits[e := bm], k) == Tally(m, files, cs, bits, k)
  {
    if k > 0 {
      TallySame(m, files, cs, bits, e, bm, k - 1);
    }
  }

  /** Flipping one bit moves the tally by the weight of its chunk. */
  lemma {:induction false} TallyUpdate(m: Measure, files: seq<FileInfo>, cs: nat, bits: seq<Bits>, e: nat, c: nat, value: bool, k: nat)
    requires e < k <= |files| && k <= |bits|
    requires c < |files[e].chunkHashes| && Fits(files[e], bits[e]) && GetBit(bits[e], c) != value
    ensures var before, after := Tally(m, files, cs, bits, k), Tally(m, files, cs, bits[e := WithBit(bits[e], c, value)], k);
            if value then after == before + Weight(m, files[e], cs, c) else before == after + Weight(m, files[e], cs, c)
  {
    var bits' := bits[e := WithBit(bits[e], c, value)];
    if e < k - 1 {
      TallyUpdate(m, files, cs, bits, e, c, value, k - 1);
    } else {
      TallySame(m, files, cs, bits, e, WithBit(bits[e], c, value), k - 1);
      TallyFileUpdate(m, files[e], cs, bits[e], c, value, |files[e].chunkHashes|);
    }
  }

  /** With every bit set the tally reaches the capacity; otherwise it stays below it. */
  lemma {:induction false} TallyFileBound(m: Measure, info: FileInfo, cs: nat, bm: Bits, n: nat)
    requires cs > 0 && n <= ChunkCount(info.size, cs)
    ensures var full := if m.InBytes? then Min(Offset(cs, n), info.size) else n;
            && TallyFile(m, info, cs, bm, n) <= full
            && (TallyFile(m, info, cs, bm, n) == full <==> forall c: nat :: c < n ==> GetBit(bm, c))
  {
    hide GetBit, Weight, Offset;
    if n > 0 {
      TallyFileBound(m, info, cs, bm, n - 1);
      WeightFills(m, info, cs, n - 1);
    } else {
      OffsetIsProduct(cs, 0);
    }
  }

  /** The weight of a chunk in use is not 0, and takes the full tally one chunk further. */
  lemma WeightFills(m: Measure, info: FileInfo, cs: nat, n: nat)
    requires cs > 0 && n < ChunkCount(info.size, cs)
    ensures Weight(m, info, cs, n) > 0
    ensures m.InBytes? ==> Min(Offset(cs, n + 1), info.size) == Min(Offset(cs, n), info.size) + Weight(m, info, cs, n)
    ensures m.InChunks? ==> Weight(m, info, cs, n) == 1
  {
    ChunkIndex(info.size, cs, n);
    OffsetNext(cs, n);
  }

  predicate AllSet(info: FileInfo, bm: Bits) {
    forall c: nat :: c < |info.chunkHashes| ==> GetBit(bm, c)
  }

  lemma TallyEntryBound(m: Measure, info: FileInfo, content: Bytes, cs: nat, bm: Bits)
    requires Built(info, content, cs)
    ensures var tally, full := TallyFile(m, info, cs, bm, |info.chunkHashes|), if m.InBytes? then info.size else |info.chunkHashes|;
            tally <= full && (tally == full <==> AllSet(info, bm))
  {
    TallyFileBound(m, info, cs, bm, |info.chunkHashes|);
    ChunksReachEnd(info.size, cs);
  }

  /** `done_size <= total_size`, with equality exactly when every bit is set. */
  lemma {:induction false} TallyBound(m: Measure, files: seq<FileInfo>, snap: seq<Bytes>, cs: nat, bits: seq<Bits>, k: nat)
    requires AllBuilt(files, snap, cs) && |bits| == |files| && k <= |files|
    ensures Tally(m, files, cs, bits, k) <= Capacity(m, files, k)
    ensures Tally(m, files, cs, bits, k) == Capacity(m, files, k) <==>
            forall e :: 0 <= e < k ==> AllSet(files[e], bits[e])
  {
    hide TallyFile, AllSet, Built;
    if k > 0 {
      assert Built(files[k - 1], snap[k - 1], cs);
      TallyBound(m, files, snap, cs, bits, k - 1);
      TallyEntryBound(m, files[k - 1], snap[k - 1], cs, bits[k - 1]);
    }
  }

  lemma {:induction false} TallyOfClear(m: Measure, files: seq<FileInfo>, cs: nat, bits: seq<Bits>, k: nat)
    requires k <= |files| && k <= |bits|
    requires forall e, c: nat :: 0 <= e < k && c < |files[e].chunkHashes| ==> !GetBit(bits[e], c)
    ensures Tally(m, files, cs, bits, k) == 0
  {
    if k > 0 {
      TallyOfClear(m, files, cs, bits, k - 1);
      TallyFileOfClear(m, files[k - 1], cs, bits[k - 1], |files[k - 1].chunkHashes|);
    }
  }

  lemma {:induction false} TallyFileOfClear(m: Measure, info: FileInfo, cs: nat, bm: Bits, n: nat)
    requires forall c: nat :: c < n ==> !GetBit(bm, c)
    ensures TallyFile(m, info, cs, bm, n) == 0
  {
    if n > 0 {
      TallyFileOfClear(m, info, cs, bm, n - 1);
    }
  }

  // ---------------------------------------------------------------- done_size as a set of byte positions

  /** The byte positions below `bound` that lie in a marked chunk. */
  function MarkedBytes(bm: Bits, cs: nat, bound: nat): set<nat>
    requires cs > 0
  {
    set i: nat | i < bound && GetBit(bm, ChunkOf(cs, i))
  }

  function Interval(lo: nat, hi: nat): (r: set<nat>)
    requires lo <= hi
    ensures |r| == hi - lo
    ensures forall i: nat :: i in r <==> lo <= i < hi
    decreases hi
  {
    if lo == hi then {} else Interval(lo, hi - 1) + {hi - 1}
  }

  /** One more chunk adds its byte positions if it is marked, and nothing otherwise. */
  lemma MarkedBytesNext(bm: Bits, cs: nat, c: nat, hi: nat)
    requires cs > 0 && Offset(cs, c) <= hi <= Offset(cs, c) + cs
    ensures var below := MarkedBytes(bm, cs, Offset(cs, c));
            |MarkedBytes(bm, cs, hi)| == |below| + if GetBit(bm, c) then hi - Offset(cs, c) else 0
  {
    hide ChunkOf, Offset;
    var lo := Offset(cs, c);
    var below, last := MarkedBytes(bm, cs, lo), Interval(lo, hi);
    forall i: nat | lo <= i < hi ensures GetBit(bm, ChunkOf(cs, i)) == GetBit(bm, c) {
      InChunk(cs, c, i);
    }
    if GetBit(bm, c) {
      assert MarkedBytes(bm, cs, hi) == below + last;
      assert below !! last;
    } else {
      assert MarkedBytes(bm, cs, hi) == below;
    }
  }

  /** The byte tally of a file is the number of byte positions in the union of its marked chunks. */
  lemma {:induction false} TallyCountsMarkedBytes(info: FileInfo, cs: nat, bm: Bits, n: nat)
    requires cs > 0 && n <= ChunkCount(info.size, cs)
    ensures TallyFile(InBytes, info, cs, bm, n) == |MarkedBytes(bm, cs, Min(Offset(cs, n), info.size))|
  {
    if n == 0 {
      assert MarkedBytes(bm, cs, 0) == {};
    } else {
      TallyCountsMarkedBytes(info, cs, bm, n - 1);
      ChunkIndex(info.size, cs, n - 1);
      OffsetNext(cs, n - 1);
      MarkedBytesNext(bm, cs, n - 1, Min(Offset(cs, n), info.size));
    }
  }

  /** `done_size` of one built entry counts exactly the byte positions in marked chunks. */
  lemma DoneSizeOfEntry(info: FileInfo, content: Bytes, cs: nat, bm: Bits)
    requires Built(info, content, cs)
    ensures TallyFile(InBytes, info, cs, bm, |info.chunkHashes|) == |MarkedBytes(bm, cs, info.size)|
  {
    ChunksReachEnd(info.size, cs);
    TallyCountsMarkedBytes(info, cs, bm, |info.chunkHashes|);
  }
}
