/** Files as byte sequences, a collision-free digest, and the cut of a file into chunks. */
module FileBytes {

  datatype Option<+T> = None | Some(value: T)

  type Bytes = seq<bv8>

  /** A path is the sequence of its components. */
  type Path = seq<string>

  /** The digest of a byte string. Carrying its preimage makes it collision-free. */
  datatype Digest = Digest(preimage: Bytes)

  function Hash(b: Bytes): Digest {
    Digest(b)
  }

  function Min(a: int, b: int): int {
    if a < b then a else b
  }

  /** `u64::saturating_sub`. */
  function SaturatingSub(a: nat, b: nat): nat {
    if a < b then 0 else a - b
  }

  // ---------------------------------------------------------------- file operations

  /** `File::set_len`: truncates, or extends with zeros. */
  function SetLen(f: Bytes, n: nat): (g: Bytes)
    ensures |g| == n
  {
    if n <= |f| then f[..n] else f + seq(n - |f|, _ => 0)
  }

  /** A write at an offset. Bytes outside `[off, off + |data|)` stay, and the file never shrinks. */
  function WriteAt(f: Bytes, off: nat, data: Bytes): (g: Bytes)
    ensures |g| >= |f|
    ensures off + |data| <= |f| ==> |g| == |f|
  {
    var base := if |f| < off + |data| then SetLen(f, off + |data|) else f;
    base[..off] + data + base[off + |data|..]
  }

  /** `read_exact` after a seek: an error when the file ends too early. */
  function ReadExact(f: Bytes, off: nat, len: nat): Option<Bytes> {
    if off + len <= |f| then Some(f[off..off + len]) else None
  }

  /** Byte for byte: bytes inside the new length stay, and what is new is zero. */
  lemma SetLenBytes(f: Bytes, n: nat, i: nat)
    requires i < n
    ensures SetLen(f, n)[i] == if i < |f| then f[i] else 0
  {
  }

  /** Byte for byte: the data stands at its offset, every other byte stays, and a gap is zero. */
  lemma WriteAtBytes(f: Bytes, off: nat, data: Bytes, i: nat)
    requires i < off + |data| || i < |f|
    ensures |WriteAt(f, off, data)| == if |f| < off + |data| then off + |data| else |f|
    ensures WriteAt(f, off, data)[i] == if off <= i < off + |data| then data[i - off] else if i < |f| then f[i] else 0
  {
  }

  lemma ReadBackWrite(f: Bytes, off: nat, data: Bytes)
    ensures ReadExact(WriteAt(f, off, data), off, |data|) == Some(data)
  {
    var g := WriteAt(f, off, data);
    assert g[off..off + |data|] == data;
  }

  /** Changing the length keeps the ranges that lie inside both lengths. */
  lemma ReadAfterSetLen(f: Bytes, n: nat, off: nat, len: nat)
    requires off + len <= |f| && off + len <= n
    ensures ReadExact(SetLen(f, n), off, len) == ReadExact(f, off, len)
  {
    assert SetLen(f, n)[off..off + len] == f[off..off + len];
  }

  // ---------------------------------------------------------------- chunks

  /** Where chunk `c` begins: `c * cs`, written as a sum to keep proofs linear. */
  function Offset(cs: nat, c: nat): nat {
    if c == 0 then 0 else Offset(cs, c - 1) + cs
  }

  lemma {:induction false} OffsetIsProduct(cs: nat, c: nat)
    ensures Offset(cs, c) == c * cs
  {
    if c > 0 {
      OffsetIsProduct(cs, c - 1);
      assert c * cs == (c - 1) * cs + cs;
    }
  }

  /** The length of chunk `c`: the chunk size, cut at the end of the file, 0 past it. */
  function ChunkLen(size: nat, cs: nat, c: nat): nat {
    Min(SaturatingSub(size, Offset(cs, c)), cs)
  }

  /** How many chunks a file of this size has. */
  function ChunkCount(size: nat, cs: nat): nat {
    if size == 0 || cs == 0 then 0 else if size <= cs then 1 else 1 + ChunkCount(size - cs, cs)
  }

  /** The bytes of chunk `c` of `content`. */
  function Chunk(content: Bytes, cs: nat, c: nat): (b: Bytes)
    requires Offset(cs, c) <= |content|
    ensures |b| == ChunkLen(|content|, cs, c)
  {
    content[Offset(cs, c)..Offset(cs, c) + ChunkLen(|content|, cs, c)]
  }

  function ChunkHashes(content: Bytes, cs: nat, n: nat): (hs: seq<Digest>)
    requires forall c :: 0 <= c < n ==> Offset(cs, c) <= |content|
    ensures |hs| == n
  {
    seq(n, c requires 0 <= c < n => Hash(Chunk(content, cs, c)))
  }

  function Concat(pieces: seq<Bytes>): Bytes {
    if pieces == [] then [] else Concat(pieces[..|pieces| - 1]) + pieces[|pieces| - 1]
  }

  lemma OffsetNext(cs: nat, c: nat)
    ensures Offset(cs, c + 1) == Offset(cs, c) + cs
  {
  }

  lemma {:induction false} OffsetMonotone(cs: nat, c: nat, c': nat)
    requires c <= c'
    ensures Offset(cs, c) <= Offset(cs, c')
    ensures c < c' ==> Offset(cs, c) + cs <= Offset(cs, c')
    decreases c'
  {
    if c < c' {
      OffsetMonotone(cs, c, c' - 1);
    }
  }

  /** A chunk index is in use exactly when its offset lies inside the file. */
  lemma {:induction false} ChunkIndex(size: nat, cs: nat, c: nat)
    requires cs > 0
    ensures c < ChunkCount(size, cs) <==> Offset(cs, c) < size
    ensures c < ChunkCount(size, cs) <==> ChunkLen(size, cs, c) > 0
    decreases c
  {
    if c > 0 {
      if size > cs {
        ChunkIndex(size - cs, cs, c - 1);
      } else {
        OffsetMonotone(cs, 1, c);
        OffsetNext(cs, 0);
      }
    }
  }

  /** The chunks reach the end of the file, and all but the last end before it. */
  lemma ChunksReachEnd(size: nat, cs: nat)
    requires cs > 0
    ensures var n := ChunkCount(size, cs);
            Offset(cs, n) >= size && (n > 0 ==> Offset(cs, n - 1) < size)
  {
    ChunkIndex(size, cs, ChunkCount(size, cs));
    if ChunkCount(size, cs) > 0 {
      ChunkIndex(size, cs, ChunkCount(size, cs) - 1);
    }
  }

  /** The chunk that byte position `i` lies in. */
  function ChunkOf(cs: nat, i: nat): nat
    requires cs > 0
  {
    i / cs
  }

  lemma InChunk(cs: nat, c: nat, i: nat)
    requires cs > 0 && Offset(cs, c) <= i < Offset(cs, c) + cs
    ensures ChunkOf(cs, i) == c
  {
    var q := i / cs;
    OffsetIsProduct(cs, q);
    assert q * cs <= i < q * cs + cs;
    if q < c {
      OffsetMonotone(cs, q, c);
    } else if c < q {
      OffsetMonotone(cs, c, q);
    }
  }

  /** The number of chunks is the size divided by the chunk size, rounded up. */
  lemma ChunkCountIsCeil(size: nat, cs: nat)
    requires cs > 0
    ensures ChunkCount(size, cs) == (size + cs - 1) / cs
  {
    var n := ChunkCount(size, cs);
    ChunksReachEnd(size, cs);
    InChunk(cs, n, size + cs - 1);
  }

  /** Chunks `c` and `c'` never overlap, each in-use chunk is nonempty and lies inside the file,
      and consecutive chunks touch. */
  lemma ChunkRanges(size: nat, cs: nat, c: nat, c': nat)
    requires cs > 0 && c < c' < ChunkCount(size, cs)
    ensures 0 < ChunkLen(size, cs, c) && 0 < ChunkLen(size, cs, c')
    ensures Offset(cs, c) + ChunkLen(size, cs, c) <= Offset(cs, c')
    ensures c' == c + 1 ==> Offset(cs, c) + ChunkLen(size, cs, c) == Offset(cs, c')
    ensures Offset(cs, c') + ChunkLen(size, cs, c') <= size
    ensures c' == ChunkCount(size, cs) - 1 ==> Offset(cs, c') + ChunkLen(size, cs, c') == size
  {
    ChunkIndex(size, cs, c);
    ChunkIndex(size, cs, c');
    OffsetMonotone(cs, c, c');
    OffsetNext(cs, c);
    OffsetNext(cs, c');
    ChunksReachEnd(size, cs);
  }

  function Chunks(content: Bytes, cs: nat, n: nat): (ps: seq<Bytes>)
    requires forall c :: 0 <= c < n ==> Offset(cs, c) <= |content|
    ensures |ps| == n
  {
    seq(n, c requires 0 <= c < n => Chunk(content, cs, c))
  }

  lemma ChunksInside(content: Bytes, cs: nat)
    requires cs > 0
    ensures forall c :: 0 <= c < ChunkCount(|content|, cs) ==> Offset(cs, c) < |content|
  {
    forall c | 0 <= c < ChunkCount(|content|, cs) ensures Offset(cs, c) < |content| {
      ChunkIndex(|content|, cs, c);
    }
  }

  lemma ChunksNext(content: Bytes, cs: nat, n: nat)
    requires forall c :: 0 <= c < n + 1 ==> Offset(cs, c) <= |content|
    ensures Concat(Chunks(content, cs, n + 1)) == Concat(Chunks(content, cs, n)) + Chunk(content, cs, n)
  {
    hide Chunk, Offset;
    assert Chunks(content, cs, n + 1)[..n] == Chunks(content, cs, n);
  }

  lemma PrefixNext(content: Bytes, cs: nat, n: nat)
    requires cs > 0 && Offset(cs, n) < |content|
    ensures content[..Min(Offset(cs, n + 1), |content|)] == content[..Offset(cs, n)] + Chunk(content, cs, n)
  {
    OffsetNext(cs, n);
    hide Offset;
  }

  /** The first `n` chunks concatenate to the first `n * cs` bytes of the file. */
  lemma {:induction false} ChunksPrefix(content: Bytes, cs: nat, n: nat)
    requires cs > 0
    requires forall c :: 0 <= c < n ==> Offset(cs, c) < |content|
    ensures Concat(Chunks(content, cs, n)) == content[..Min(Offset(cs, n), |content|)]
  {
    if n > 0 {
      ChunksPrefix(content, cs, n - 1);
      ChunksNext(content, cs, n - 1);
      PrefixNext(content, cs, n - 1);
    }
  }

  /** The chunks of a file concatenate to the file, for every chunk size. */
  lemma ChunksPartition(content: Bytes, cs: nat)
    requires cs > 0
    ensures forall c :: 0 <= c < ChunkCount(|content|, cs) ==> Offset(cs, c) <= |content|
    ensures Concat(Chunks(content, cs, ChunkCount(|content|, cs))) == content
  {
    ChunksInside(content, cs);
    ChunksPrefix(content, cs, ChunkCount(|content|, cs));
    ChunksReachEnd(|content|, cs);
    assert content[..|content|] == content;
  }

  ghost predicate ChunkAgrees(f: Bytes, content: Bytes, cs: nat, c: nat)
  {
    Offset(cs, c) <= |content| &&
    ReadExact(f, Offset(cs, c), ChunkLen(|content|, cs, c)) == Some(Chunk(content, cs, c))
  }

  lemma {:induction false} PrefixAgrees(f: Bytes, content: Bytes, cs: nat, n: nat)
    requires cs > 0 && |f| == |content| && n <= ChunkCount(|content|, cs)
    requires forall c :: 0 <= c < n ==> ChunkAgrees(f, content, cs, c)
    ensures f[..Min(Offset(cs, n), |f|)] == content[..Min(Offset(cs, n), |f|)]
  {
    if n > 0 {
      PrefixAgrees(f, content, cs, n - 1);
      assert ChunkAgrees(f, content, cs, n - 1);
      ChunkIndex(|content|, cs, n - 1);
      OffsetNext(cs, n - 1);
      var lo, hi := Offset(cs, n - 1), Min(Offset(cs, n), |f|);
      assert f[..hi] == f[..lo] + f[lo..hi];
      assert content[..hi] == content[..lo] + content[lo..hi];
    }
  }

  /** Two files of one length agree exactly when every chunk agrees. */
  lemma ChunkwiseEquality(f: Bytes, content: Bytes, cs: nat)
    requires cs > 0 && |f| == |content|
    ensures f == content <==> forall c :: 0 <= c < ChunkCount(|content|, cs) ==> ChunkAgrees(f, content, cs, c)
  {
    var n := ChunkCount(|content|, cs);
    ChunksInside(content, cs);
    if forall c :: 0 <= c < n ==> ChunkAgrees(f, content, cs, c) {
      PrefixAgrees(f, content, cs, n);
      ChunksReachEnd(|content|, cs);
      assert f[..|f|] == f && content[..|f|] == content;
    }
  }
}
