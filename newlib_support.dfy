/**
 * The system calls the C library needs from the kernel: `sbrk` bumps the
 * program break inside the heap region, `getpid` and `kill` are stubs.
 */
module NewlibSupport {
  import opened Common

  const ENOMEM: int := 12
  const EINVAL: int := 22

  /** `(caddr_t)-1`, the failure value of `sbrk`. */
  const SbrkFailed: uint64 := UInt64Max

  /** Pointer arithmetic `program_break + incr` on a 64-bit machine. */
  function AddressPlus(address: uint64, incr: int): uint64
  {
    (address + incr) % 0x1_0000_0000_0000_0000
  }

  /** The failure condition of `sbrk`: no heap yet, or no room for `incr`. */
  predicate SbrkFails(programBreak: uint64, programBreakEnd: uint64, incr: int)
  {
    programBreak == 0 || AddressPlus(programBreak, incr) >= programBreakEnd
  }

  /** The globals `program_break`, `program_break_end` and `errno`. */
  class Newlib {
    var programBreak: uint64
    var programBreakEnd: uint64
    var errno: int

    /** The heap region is set up by code that is not part of this model. */
    constructor (heapStart: uint64, heapEnd: uint64)
      ensures programBreak == heapStart && programBreakEnd == heapEnd && errno == 0
    {
      programBreak := heapStart;
      programBreakEnd := heapEnd;
      errno := 0;
    }

    method Sbrk(incr: int) returns (r: uint64)
      requires -0x8000_0000 <= incr < 0x8000_0000
      modifies this`programBreak, this`errno
      ensures SbrkFails(old(programBreak), programBreakEnd, incr) ==>
        r == SbrkFailed && errno == ENOMEM && programBreak == old(programBreak)
      ensures !SbrkFails(old(programBreak), programBreakEnd, incr) ==>
        && r == old(programBreak) && errno == old(errno)
        && programBreak == AddressPlus(old(programBreak), incr)
        && programBreak < programBreakEnd
    {
      if programBreak == 0 || AddressPlus(programBreak, incr) >= programBreakEnd {
        errno := ENOMEM;
        return SbrkFailed;
      }
      var prevBreak := programBreak;
      programBreak := AddressPlus(programBreak, incr);
      return prevBreak;
    }

    method Kill(pid: int, sig: int) returns (r: int)
      modifies this`errno
      ensures r == -1 && errno == EINVAL
    {
      errno := EINVAL;
      return -1;
    }
  }

  function GetPid(): (r: int)
    ensures r == 1
  {
    1
  }

  /** A successful `sbrk` with a non-negative increment that does not wrap
      hands out `[old break, old break + incr)`, and that block lies below
      the end of the heap. */
  lemma SbrkBlockInsideHeap(programBreak: uint64, programBreakEnd: uint64, incr: nat)
    requires !SbrkFails(programBreak, programBreakEnd, incr)
    requires programBreak + incr <= UInt64Max
    ensures AddressPlus(programBreak, incr) == programBreak + incr
    ensures programBreak != 0 && programBreak + incr < programBreakEnd
  {
  }

  /** Two successful calls in a row hand out adjacent, non-overlapping
      blocks: the second starts where the first ends. */
  lemma SbrkBlocksAdjacent(programBreak: uint64, programBreakEnd: uint64, a: nat, b: nat)
    requires !SbrkFails(programBreak, programBreakEnd, a)
    requires programBreak + a <= UInt64Max
    requires !SbrkFails(AddressPlus(programBreak, a), programBreakEnd, b)
    requires programBreak + a + b <= UInt64Max
    ensures AddressPlus(programBreak, a) == programBreak + a
    ensures AddressPlus(AddressPlus(programBreak, a), b) == programBreak + a + b
    ensures programBreak + a + b < programBreakEnd
  {
  }
}
