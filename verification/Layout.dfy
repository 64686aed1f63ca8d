/** The sizes of chunk.h and vector.h. */
module Layout {
  const PG_SIZE: nat := 4096
  const BLK_SIZE: nat := 32
  const VBLK_SIZE: nat := 8
  /** sizeof(spt_dh): two ints' worth of header and a pointer. */
  const DBLK_SIZE: nat := 16

  const BLK_PER_PG: nat := 128
  const VEC_PER_BLK: nat := 4
  const DB_PER_BLK: nat := 2

  /** Direct page slots, entries of one index page, and where the two-level part starts. */
  const NDIR: nat := 320
  const PTRS: nat := 512
  const DIND_START: nat := 832

  const PG_NUM_MAX: nat := 16384
  const SPT_NULL: nat := 0x7fffff

  /** `total` consecutive ids, as a block or page is carved. */
  function Carved(base: nat, total: nat): (ids: seq<nat>)
    ensures |ids| == total
    ensures forall i :: 0 <= i < total ==> ids[i] == base + i
  {
    seq(total, i requires 0 <= i < total => base + i)
  }
}
