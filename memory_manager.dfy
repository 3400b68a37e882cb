/**
 * Memory units and physical frames: the `_KiB`/`_MiB`/`_GiB` literals, the
 * 4 KiB frame and its id, and the sizes of the bitmap that holds one bit per
 * frame of up to 128 GiB of physical memory.
 */
module MemoryManager {
  import opened Common

  /** `unsigned long long` and `size_t` arithmetic wraps at 2^64. */
  const U64Mod: int := 0x1_0000_0000_0000_0000

  function KiB(n: uint64): (r: uint64)
    ensures n < 0x40_0000_0000_0000 ==> r == n * 1024
  {
    n * 1024 % U64Mod
  }

  /** `mib * 1024_KiB`. */
  function MiB(n: uint64): (r: uint64)
    ensures n < 0x1000_0000_0000 ==> r == n * 0x10_0000
  {
    n * KiB(1024) % U64Mod
  }

  /** `gib * 1024_MiB`. */
  function GiB(n: uint64): (r: uint64)
    ensures n < 0x4_0000_0000 ==> r == n * 0x4000_0000
  {
    n * MiB(1024) % U64Mod
  }

  const BytesPerFrame: uint64 := KiB(4)

  /** `FrameID`: a frame number; `Frame()` is the frame's physical address. */
  datatype FrameID = FrameID(id: uint64) {
    function ID(): (r: uint64)
      ensures FrameID(r) == this
    {
      id
    }

    /** `id_ * kBytesPerFrame` in `size_t`: always frame aligned, and exact
        below 2^52. */
    function Frame(): (r: uint64)
      ensures r % 4096 == 0
      ensures id < 0x10_0000_0000_0000 ==> r == id * 4096
    {
      assert BytesPerFrame == 4096;
      ModOfMultiple(id, 4096, U64Mod);
      id * BytesPerFrame % U64Mod
    }
  }

  /** `kNullFrame`: the largest `size_t` as id. */
  const NullFrame: FrameID := FrameID(UInt64Max)

  const MaxPhysicalMemoryBytes: uint64 := GiB(128)
  const FrameCount: uint64 := MaxPhysicalMemoryBytes / BytesPerFrame

  /** `8 * sizeof(unsigned long)`, with the 8-byte `long` of x86-64. */
  const BitsPerMapLine: nat := 8 * 8

  /** The number of elements of `alloc_map_`. */
  const AllocMapLines: nat := FrameCount / BitsPerMapLine

  lemma MemoryConstants()
    ensures BytesPerFrame == 4096
    ensures MaxPhysicalMemoryBytes == 128 * 0x4000_0000
    ensures FrameCount == 0x200_0000
    ensures AllocMapLines == 0x8_0000
    ensures AllocMapLines * BitsPerMapLine == FrameCount
    ensures NullFrame.ID() == UInt64Max && NullFrame.ID() >= FrameCount
  {
  }

  /** The bitmap has exactly one bit per frame: frame `f` is bit `f % 64` of
      line `f / 64`, every such position is inside the map, and every bit of
      the map belongs to exactly one frame. */
  lemma OneBitPerFrame(f: nat, line: nat, bit: nat)
    requires bit < BitsPerMapLine
    ensures f < FrameCount ==> f / BitsPerMapLine < AllocMapLines
    ensures f == f / BitsPerMapLine * BitsPerMapLine + f % BitsPerMapLine
    ensures line < AllocMapLines ==> line * BitsPerMapLine + bit < FrameCount
    ensures (line * BitsPerMapLine + bit) / BitsPerMapLine == line
    ensures (line * BitsPerMapLine + bit) % BitsPerMapLine == bit
  {
    MemoryConstants();
    DivModSplit(line, bit, BitsPerMapLine);
  }

  /** Distinct frame ids below the frame count have distinct addresses. */
  lemma FrameInjective(a: FrameID, b: FrameID)
    requires a.id < FrameCount && b.id < FrameCount && a != b
    ensures a.Frame() != b.Frame()
  {
    MemoryConstants();
  }
}
