/** The packed resume bitmap: one bit a chunk, eight chunks a byte. */
module Bitmap {

  type Bits = seq<bv8>

  /** `1 << bit_idx`. */
  function Mask(k: nat): bv8
    requires k < 8
  {
    1 << k
  }

  /** `get_bitmap`: a bit past the end reads as clear. */
  predicate GetBit(bm: Bits, idx: nat) {
    idx / 8 < |bm| && bm[idx / 8] & Mask(idx % 8) != 0
  }

  function ByteWith(b: bv8, k: nat, value: bool): bv8
    requires k < 8
  {
    if value then b | Mask(k) else b & !Mask(k)
  }

  /** `set_bitmap` on values: an update past the end does nothing. */
  function WithBit(bm: Bits, idx: nat, value: bool): (bm': Bits)
    ensures |bm'| == |bm|
  {
    if idx / 8 < |bm| then bm[idx / 8 := ByteWith(bm[idx / 8], idx % 8, value)] else bm
  }

  lemma MaskValues()
    ensures Mask(0) == 1 && Mask(1) == 2 && Mask(2) == 4 && Mask(3) == 8
    ensures Mask(4) == 16 && Mask(5) == 32 && Mask(6) == 64 && Mask(7) == 128
  {
  }

  function MaskTable(k: nat): bv8
    requires k < 8
  {
    if k == 0 then 1 else if k == 1 then 2 else if k == 2 then 4 else if k == 3 then 8
    else if k == 4 then 16 else if k == 5 then 32 else if k == 6 then 64 else 128
  }

  lemma MaskIsTable(k: nat)
    requires k < 8
    ensures Mask(k) == MaskTable(k)
  {
    MaskValues();
  }

  /** Within one byte, setting bit `k` moves bit `k` and no other. */
  lemma BitInByte(b: bv8, k: nat, j: nat, value: bool)
    requires k < 8 && j < 8
    ensures ByteWith(b, k, value) & Mask(j) != 0 <==> if j == k then value else b & Mask(j) != 0
  {
    MaskIsTable(k);
    MaskIsTable(j);
  }

  /** The bitmap is a set of indices: an update moves one index, when that index fits. */
  lemma GetAfterSet(bm: Bits, idx: nat, value: bool, j: nat)
    ensures GetBit(WithBit(bm, idx, value), j) <==>
            if j == idx && idx < 8 * |bm| then value else GetBit(bm, j)
  {
    if idx / 8 < |bm| && j / 8 == idx / 8 {
      BitInByte(bm[idx / 8], idx % 8, j % 8, value);
      assert j == 8 * (j / 8) + j % 8 && idx == 8 * (idx / 8) + idx % 8;
    }
  }

  /** The layout: index 0 is the lowest bit of the first byte, and index 8 the lowest of the second. */
  lemma BitLayout()
    ensures Indices([5, 130]) == {0, 2, 9, 15}
  {
    forall k: nat | k < 16 ensures k in Indices([5, 130]) <==> k in {0, 2, 9, 15} {
      MaskIsTable(k % 8);
    }
  }

  datatype Update = Update(idx: nat, value: bool)

  function ApplyAll(bm: Bits, ops: seq<Update>): (bm': Bits)
    ensures |bm'| == |bm|
  {
    if ops == [] then bm
    else WithBit(ApplyAll(bm, ops[..|ops| - 1]), ops[|ops| - 1].idx, ops[|ops| - 1].value)
  }

  function Indices(bm: Bits): set<nat> {
    set i: nat | i < 8 * |bm| && GetBit(bm, i)
  }

  /** The same updates on a mathematical set of indices below `capacity`. */
  function ApplyToSet(s: set<nat>, capacity: nat, ops: seq<Update>): set<nat> {
    if ops == [] then s
    else
      var s' := ApplyToSet(s, capacity, ops[..|ops| - 1]);
      var op := ops[|ops| - 1];
      if op.idx >= capacity then s' else if op.value then s' + {op.idx} else s' - {op.idx}
  }

  /** Over any sequence of marks and clears the packed bytes and the set stay the same thing. */
  lemma {:induction false} PackedIsSet(bm: Bits, ops: seq<Update>)
    ensures Indices(ApplyAll(bm, ops)) == ApplyToSet(Indices(bm), 8 * |bm|, ops)
    ensures forall j: nat :: GetBit(ApplyAll(bm, ops), j) <==> j in ApplyToSet(Indices(bm), 8 * |bm|, ops)
  {
    if ops != [] {
      var front, op := ops[..|ops| - 1], ops[|ops| - 1];
      PackedIsSet(bm, front);
      forall j: nat
        ensures GetBit(ApplyAll(bm, ops), j) <==> j in ApplyToSet(Indices(bm), 8 * |bm|, ops)
      {
        GetAfterSet(ApplyAll(bm, front), op.idx, op.value, j);
      }
    }
  }

  /** `set_bitmap`, in place. */
  method SetBitmap(bitmap: array<bv8>, idx: nat, value: bool)
    modifies bitmap
    ensures bitmap[..] == WithBit(old(bitmap[..]), idx, value)
  {
    hide Mask;
    var byteIdx, bitIdx := idx / 8, idx % 8;
    if byteIdx < bitmap.Length {
      if value {
        bitmap[byteIdx] := bitmap[byteIdx] | Mask(bitIdx);
      } else {
        bitmap[byteIdx] := bitmap[byteIdx] & !Mask(bitIdx);
      }
    }
  }
}
