/** Bitmaps kept in 32-bit words, as asid_bitmap and the file system's bitmap are.
    A word is its 32 bits, lowest first: `w | 1 << i` is `w[i := true]`. */
module Bitmap {
  type Words = seq<seq<bool>>

  ghost predicate Holds(bm: Words, n: nat) {
    n <= 32 * |bm| && forall k :: 0 <= k < |bm| ==> |bm[k]| == 32
  }

  predicate Bit(bm: Words, i: nat)
    requires Holds(bm, i + 1)
  {
    bm[i / 32][i % 32]
  }

  /** `bm[i / 32] |= 1 << (i % 32)` or `bm[i / 32] &= ~(1 << (i % 32))`. */
  function Put(bm: Words, i: nat, v: bool): Words
    requires Holds(bm, i + 1)
  {
    bm[i / 32 := bm[i / 32][i % 32 := v]]
  }

  /** Changing one bit changes that bit and no other. */
  lemma PutBit(bm: Words, n: nat, i: nat, v: bool)
    requires Holds(bm, n) && i < n
    ensures Holds(Put(bm, i, v), n)
    ensures forall j: nat :: j < n ==> Bit(Put(bm, i, v), j) == if j == i then v else Bit(bm, j)
  {
    forall j: nat | j < n ensures Bit(Put(bm, i, v), j) == if j == i then v else Bit(bm, j) {
      if j / 32 == i / 32 && j % 32 == i % 32 {
        assert j == 32 * (j / 32) + j % 32 && i == 32 * (i / 32) + i % 32;
      }
    }
  }
}
