/** Root file-system usage: `get_hard_disk_memory` (total and used, in GiB
    rounded to nearest) and `get_sd_memory` (total and used, in MiB rounded
    down), both computed from one `statvfs("/")` record with `unsigned long
    long` arithmetic. */
module Storage {
  import opened CTypes

  const MIB: nat := 0x10_0000        // 1ULL << 20, i.e. 1024ULL * 1024ULL
  const GIB: nat := 0x4000_0000      // 1ULL << 30
  const HALF_GIB: nat := 0x2000_0000 // 1ULL << 29

  /** The fields of `struct statvfs` the sampler reads. */
  datatype Statvfs = Statvfs(bsize: u64, frsize: u64, blocks: u64, bfree: u64, bavail: u64)

  /** What `statvfs("/")` gave. */
  datatype StatvfsResult = StatvfsFailed | StatvfsOk(vfs: Statvfs)

  // ------------------------------------------------- the quantities, as specified

  /** The fragment size when the file system reports one, else the block size. */
  function BlockSize(v: Statvfs): (b: u64)
    ensures b == v.frsize || (v.frsize == 0 && b == v.bsize)
    ensures b == 0 ==> v.frsize == 0 && v.bsize == 0
  {
    if v.frsize != 0 then v.frsize else v.bsize
  }

  function TotalBytes(v: Statvfs): u64 {
    Wrap64(v.blocks * BlockSize(v))
  }

  /** Used space as `df` sees it: total less what non-root users may still use. */
  function DiskUsedBytes(v: Statvfs): u64 {
    Wrap64(TotalBytes(v) - Wrap64(v.bavail * BlockSize(v)))
  }

  /** Used space counting the root reserve as free: total less all free blocks. */
  function SdUsedBytes(v: Statvfs): u64 {
    Wrap64(TotalBytes(v) - Wrap64(v.bfree * BlockSize(v)))
  }

  /** `(x + (1ULL << 29)) >> 30`. */
  function RoundToGiB(x: u64): u64 {
    Wrap64(x + HALF_GIB) / GIB
  }

  /** `x / (1024ULL * 1024ULL)`. */
  function ToMiB(x: u64): u64 {
    x / MIB
  }

  // ------------------------------------------------------------- properties

  /** Without wrap-around the rounding is to the nearest GiB, halves up:
      r * 2^30 - 2^29 <= x < r * 2^30 + 2^29. */
  lemma RoundToGiBNearest(x: u64)
    requires x + HALF_GIB < TWO_64
    ensures RoundToGiB(x) * GIB - HALF_GIB <= x < RoundToGiB(x) * GIB + HALF_GIB
  {
    var r := RoundToGiB(x);
    assert r == (x + HALF_GIB) / GIB;
    assert r * GIB <= x + HALF_GIB < r * GIB + GIB;
  }

  /** Rounding to GiB never decreases. */
  lemma RoundToGiBMonotone(x: u64, y: u64)
    requires x <= y && y + HALF_GIB < TWO_64
    ensures RoundToGiB(x) <= RoundToGiB(y)
  {
  }

  /** The sum itself wraps: within 2^29 bytes of 2^64 the rounding reads 0. */
  lemma RoundToGiBWrapsNearTop()
    ensures RoundToGiB(TWO_64 - 1) == 0
  {
  }

  /** `x / 2^20` rounds down: r * 2^20 <= x < (r + 1) * 2^20. */
  lemma ToMiBFloor(x: u64)
    ensures ToMiB(x) * MIB <= x < (ToMiB(x) + 1) * MIB
  {
  }

  /** When the total does not overflow and bavail <= blocks, the disk's used
      bytes are exactly (blocks - bavail) * block, at most the total. */
  lemma DiskUsedExact(v: Statvfs)
    requires v.bavail <= v.blocks && v.blocks * BlockSize(v) < TWO_64
    ensures DiskUsedBytes(v) == (v.blocks - v.bavail) * BlockSize(v) <= TotalBytes(v)
  {
    UsedExact(v.blocks, v.bavail, BlockSize(v));
  }

  /** Likewise for the SD figure with bfree. */
  lemma SdUsedExact(v: Statvfs)
    requires v.bfree <= v.blocks && v.blocks * BlockSize(v) < TWO_64
    ensures SdUsedBytes(v) == (v.blocks - v.bfree) * BlockSize(v) <= TotalBytes(v)
  {
    UsedExact(v.blocks, v.bfree, BlockSize(v));
  }

  lemma UsedExact(blocks: nat, free: nat, block: nat)
    requires free <= blocks && blocks * block < TWO_64
    ensures free * block <= blocks * block
    ensures Wrap64(Wrap64(blocks * block) - Wrap64(free * block)) == (blocks - free) * block
  {
    assert (blocks - free) * block == blocks * block - free * block;
  }

  /** The displayed disk figures keep used <= total as long as nothing wraps
      and the rounded total still fits in 16 bits. */
  lemma DiskUsedAtMostTotal(v: Statvfs)
    requires v.bavail <= v.blocks
    requires v.blocks * BlockSize(v) + HALF_GIB < TWO_64
    requires RoundToGiB(TotalBytes(v)) < TWO_16
    ensures NarrowU16(RoundToGiB(DiskUsedBytes(v))) <= NarrowU16(RoundToGiB(TotalBytes(v)))
  {
    DiskUsedExact(v);
    RoundToGiBMonotone(DiskUsedBytes(v), TotalBytes(v));
  }

  /** The SD figures keep used <= total as long as nothing wraps and the
      total in MiB fits in 32 bits. */
  lemma SdUsedAtMostTotal(v: Statvfs)
    requires v.bfree <= v.blocks
    requires v.blocks * BlockSize(v) < TWO_64
    requires ToMiB(TotalBytes(v)) < TWO_32
    ensures NarrowU32(ToMiB(SdUsedBytes(v))) <= NarrowU32(ToMiB(TotalBytes(v)))
  {
    SdUsedExact(v);
  }

  // ------------------------------------------------------------ the functions

  /** `get_hard_disk_memory`: 1 with nothing written for a NULL pointer;
      1 with 0/0 written when `statvfs` fails; otherwise 0 with the total and
      the used bytes, each rounded to GiB and cast to `uint16_t`. */
  method GetHardDiskMemory(diskMemSize: Ptr, useMemSize: Ptr, stat: StatvfsResult)
    returns (rc: u8, out: OutPair<u16>)
    ensures (diskMemSize.Null? || useMemSize.Null?) ==> rc == 1 && out == NothingWritten
    ensures diskMemSize.NonNull? && useMemSize.NonNull? && stat.StatvfsFailed? ==>
      rc == 1 && out == Wrote(0, 0)
    ensures diskMemSize.NonNull? && useMemSize.NonNull? && stat.StatvfsOk? ==>
      rc == 0 && out == Wrote(NarrowU16(RoundToGiB(TotalBytes(stat.vfs))),
                              NarrowU16(RoundToGiB(DiskUsedBytes(stat.vfs))))
  {
    if diskMemSize.Null? || useMemSize.Null? {
      return 1, NothingWritten;
    }
    if stat.StatvfsFailed? {
      return 1, Wrote(0, 0);
    }
    var vfs := stat.vfs;
    var block: u64 := if vfs.frsize != 0 then vfs.frsize else vfs.bsize;
    var total := Wrap64(vfs.blocks * block);
    var avail := Wrap64(vfs.bavail * block);
    var used := Wrap64(total - avail);
    rc := 0;
    out := Wrote(NarrowU16(Wrap64(total + HALF_GIB) / GIB), NarrowU16(Wrap64(used + HALF_GIB) / GIB));
  }

  /** `get_sd_memory`: nothing written for a NULL pointer; 0/0 when `statvfs`
      fails; otherwise the total and the used bytes (all free blocks counted
      as free), each in whole MiB and cast to `uint32_t`. */
  method GetSdMemory(memSize: Ptr, freesize: Ptr, stat: StatvfsResult) returns (out: OutPair<u32>)
    ensures (memSize.Null? || freesize.Null?) ==> out == NothingWritten
    ensures memSize.NonNull? && freesize.NonNull? && stat.StatvfsFailed? ==> out == Wrote(0, 0)
    ensures memSize.NonNull? && freesize.NonNull? && stat.StatvfsOk? ==>
      out == Wrote(NarrowU32(ToMiB(TotalBytes(stat.vfs))), NarrowU32(ToMiB(SdUsedBytes(stat.vfs))))
  {
    if memSize.Null? || freesize.Null? {
      return NothingWritten;
    }
    match stat
    case StatvfsOk(vfs) =>
      var block: u64 := if vfs.frsize != 0 then vfs.frsize else vfs.bsize;
      var total := Wrap64(vfs.blocks * block);
      var freeAll := Wrap64(vfs.bfree * block);
      var used := Wrap64(total - freeAll);
      out := Wrote(NarrowU32(total / MIB), NarrowU32(used / MIB));
    case StatvfsFailed =>
      out := Wrote(0, 0);
  }

  /** On success without overflow the disk figures are the byte counts of
      blocks and of (blocks - bavail) rounded to the nearest GiB. */
  lemma DiskFiguresNearest(v: Statvfs)
    requires v.bavail <= v.blocks && v.blocks * BlockSize(v) + HALF_GIB < TWO_64
    ensures var t, u := RoundToGiB(TotalBytes(v)), RoundToGiB(DiskUsedBytes(v));
      && t * GIB - HALF_GIB <= v.blocks * BlockSize(v) < t * GIB + HALF_GIB
      && u * GIB - HALF_GIB <= (v.blocks - v.bavail) * BlockSize(v) < u * GIB + HALF_GIB
  {
    DiskUsedExact(v);
    RoundToGiBNearest(TotalBytes(v));
    RoundToGiBNearest(DiskUsedBytes(v));
  }

  /** On success without overflow the SD figures are blocks * block and
      (blocks - bfree) * block in whole MiB, rounded down. */
  lemma SdFiguresFloor(v: Statvfs)
    requires v.bfree <= v.blocks && v.blocks * BlockSize(v) < TWO_64
    ensures ToMiB(TotalBytes(v)) == v.blocks * BlockSize(v) / MIB
    ensures ToMiB(SdUsedBytes(v)) == (v.blocks - v.bfree) * BlockSize(v) / MIB
  {
    SdUsedExact(v);
  }
}
