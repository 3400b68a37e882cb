/**
 * PCI configuration-space helpers: class-code matching, the bit layout of the
 * class-code and bus-number registers, and the configuration-space offsets of
 * the base address registers (section 6.2.5.1 of the PCI Local Bus
 * Specification 3.0).
 */
module Pci {
  import opened Common

  /** `ClassCode`: base class, sub class and programming interface. */
  datatype ClassCode = ClassCode(base: uint8, sub: uint8, interface: uint8)

  /** `Match(b)`. */
  function MatchBase(cc: ClassCode, b: uint8): (r: bool)
    ensures r <==> cc.base == b
  {
    b == cc.base
  }

  /** `Match(b, s)`: built on `Match(b)`. */
  function MatchSub(cc: ClassCode, b: uint8, s: uint8): (r: bool)
    ensures r <==> cc.base == b && cc.sub == s
  {
    MatchBase(cc, b) && s == cc.sub
  }

  /** `Match(b, s, i)`: built on `Match(b, s)`. */
  function MatchInterface(cc: ClassCode, b: uint8, s: uint8, i: uint8): (r: bool)
    ensures r <==> cc == ClassCode(b, s, i)
  {
    MatchSub(cc, b, s) && i == cc.interface
  }

  /** Each overload is a refinement of the shorter one. */
  lemma MatchRefines(cc: ClassCode, b: uint8, s: uint8, i: uint8)
    ensures MatchInterface(cc, b, s, i) ==> MatchSub(cc, b, s)
    ensures MatchSub(cc, b, s) ==> MatchBase(cc, b)
    ensures MatchSub(cc, b, s) && !MatchInterface(cc, b, s, i) ==> cc.interface != i
  {
  }

  /** The class-code register: base 31:24, sub 23:16, interface 15:8,
      revision 7:0. */
  function ClassCodeOf(reg: uint32): ClassCode
  {
    ClassCode(reg / 0x100_0000, reg / 0x1_0000 % 0x100, reg / 0x100 % 0x100)
  }

  function RevisionOf(reg: uint32): uint8
  {
    reg % 0x100
  }

  /** The register value that holds the class code and the revision. */
  function ClassCodeRegister(cc: ClassCode, revision: uint8): (reg: uint32)
  {
    cc.base * 0x100_0000 + cc.sub * 0x1_0000 + cc.interface * 0x100 + revision
  }

  lemma ClassCodeDecodeEncode(cc: ClassCode, revision: uint8)
    ensures ClassCodeOf(ClassCodeRegister(cc, revision)) == cc
    ensures RevisionOf(ClassCodeRegister(cc, revision)) == revision
  {
    var reg := ClassCodeRegister(cc, revision);
    var low := cc.interface * 0x100 + revision;
    var mid := cc.sub * 0x100 + cc.interface;
    assert reg == cc.base * 0x100_0000 + (cc.sub * 0x1_0000 + low);
    DivModSplit(cc.base, cc.sub * 0x1_0000 + low, 0x100_0000);
    assert reg == (cc.base * 0x100 + cc.sub) * 0x1_0000 + low;
    DivModSplit(cc.base * 0x100 + cc.sub, low, 0x1_0000);
    DivModSplit(cc.base, cc.sub, 0x100);
    assert reg == (cc.base * 0x1_0000 + mid) * 0x100 + revision;
    DivModSplit(cc.base * 0x1_0000 + mid, revision, 0x100);
    DivModSplit(cc.base * 0x100 + cc.sub, cc.interface, 0x100);
  }

  lemma ClassCodeEncodeDecode(reg: uint32)
    ensures ClassCodeRegister(ClassCodeOf(reg), RevisionOf(reg)) == reg
  {
    var b, r1 := reg / 0x100_0000, reg % 0x100_0000;
    var s, r2 := r1 / 0x1_0000, r1 % 0x1_0000;
    var i, v := r2 / 0x100, r2 % 0x100;
    DivTwice(reg, 0x1_0000, 0x100);
    DivTwice(reg, 0x100, 0x1_0000);
    DivTwice(reg, 0x100, 0x100);
    ModOfDiv(reg, 0x1_0000, 0x100);
    ModOfDiv(reg, 0x100, 0x100);
    ModMod(reg, 0x100_0000, 0x1_0000);
    ModMod(reg, 0x1_0000, 0x100);
    ModMod(reg, 0x100_0000, 0x100);
    assert ClassCodeOf(reg) == ClassCode(b, s, i);
  }

  /** The bus-number register: subordinate bus 23:16, secondary bus 15:8,
      revision 7:0. */
  datatype BusNumbers = BusNumbers(subordinate: uint8, secondary: uint8, revision: uint8)

  function BusNumbersOf(reg: uint32): BusNumbers
  {
    BusNumbers(reg / 0x1_0000 % 0x100, reg / 0x100 % 0x100, reg % 0x100)
  }

  function BusNumbersRegister(bn: BusNumbers): (reg: uint32)
  {
    bn.subordinate * 0x1_0000 + bn.secondary * 0x100 + bn.revision
  }

  lemma BusNumbersDecodeEncode(bn: BusNumbers)
    ensures BusNumbersOf(BusNumbersRegister(bn)) == bn
  {
    var reg := BusNumbersRegister(bn);
    var low := bn.secondary * 0x100 + bn.revision;
    DivModSplit(bn.subordinate, low, 0x1_0000);
    assert reg == (bn.subordinate * 0x100 + bn.secondary) * 0x100 + bn.revision;
    DivModSplit(bn.subordinate * 0x100 + bn.secondary, bn.revision, 0x100);
    DivModSplit(bn.subordinate, bn.secondary, 0x100);
  }

  /** Bits 31:24 are not part of the bus numbers and are dropped. */
  lemma BusNumbersEncodeDecode(reg: uint32)
    ensures BusNumbersRegister(BusNumbersOf(reg)) == reg % 0x100_0000
  {
    var r1 := reg % 0x100_0000;
    var s, r2 := r1 / 0x1_0000, r1 % 0x1_0000;
    DivTwice(reg, 0x100, 0x100);
    ModOfDiv(reg, 0x1_0000, 0x100);
    ModOfDiv(reg, 0x100, 0x100);
    ModMod(reg, 0x100_0000, 0x1_0000);
    ModMod(reg, 0x1_0000, 0x100);
    ModMod(reg, 0x100_0000, 0x100);
    assert reg / 0x1_0000 % 0x100 == s;
    assert reg / 0x100 % 0x100 == r2 / 0x100;
  }

  /** `CalcBarAddress`: `0x10 + 4 * bar_index` in `unsigned int`, returned as
      `uint8_t`. */
  function CalcBarAddress(barIndex: uint32): (r: uint8)
    ensures barIndex < 60 ==> r == 0x10 + 4 * barIndex
  {
    (0x10 + 4 * barIndex) % 0x1_0000_0000 % 0x100
  }

  /** BAR0 is at 0x10 and BAR5 at 0x24; consecutive BARs are 4 bytes apart
      and every BAR offset is 4-byte aligned. */
  lemma BarAddresses(i: uint32)
    ensures CalcBarAddress(0) == 0x10 && CalcBarAddress(5) == 0x24
    ensures i < 5 ==> CalcBarAddress(i + 1) == CalcBarAddress(i) + 4
    ensures CalcBarAddress(i) % 4 == 0
  {
    var n := 0x10 + 4 * i;
    assert n == 4 * (4 + i);
    ModOfMultiple(4 + i, 4, 0x1_0000_0000);
    var m := n % 0x1_0000_0000;
    assert m % 4 == 0;
    ModOfMultiple(m / 4, 4, 0x100);
  }
}
