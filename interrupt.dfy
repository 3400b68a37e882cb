/**
 * Interrupt descriptor table entries: a 64-bit handler offset is split into
 * the three offset fields of a 64-bit gate descriptor (section 6.14.1 of the
 * Intel 64 and IA-32 Architectures Software Developer's Manual, Volume 3A),
 * and `InitializeInterrupt` fills the one entry of vector 0x40.
 */
module Interrupt {
  import Timer

  /** The attribute built by `MakeIDTAttr(type, dpl)`; its bit packing is in
      a header that is not part of this model. */
  datatype DescriptorAttribute = DescriptorAttribute(descriptorType: nat, dpl: nat)

  function MakeIDTAttr(descriptorType: nat, dpl: nat): DescriptorAttribute
  {
    DescriptorAttribute(descriptorType, dpl)
  }

  /** The 64-bit interrupt gate type of the manual (0b1110). */
  const InterruptGate: nat := 14

  /** The xHCI interrupt vector. */
  const XHCIVector: nat := 0x40

  const IdtEntries: nat := 256

  datatype InterruptDescriptor = InterruptDescriptor(
    offsetLow: bv16,
    segmentSelector: bv16,
    attr: DescriptorAttribute,
    offsetMiddle: bv16,
    offsetHigh: bv32,
    reserved: bv32)

  /** The handler offset that a descriptor encodes. */
  function Offset(desc: InterruptDescriptor): bv64
  {
    (desc.offsetLow as bv64) | ((desc.offsetMiddle as bv64) << 16) | ((desc.offsetHigh as bv64) << 32)
  }

  /** `SetIDTEntry`: the descriptor after its fields are assigned; `reserved`
      is not assigned and keeps its value. */
  function SetIDTEntry(desc: InterruptDescriptor, attr: DescriptorAttribute, offset: bv64,
                       segmentSelector: bv16): (r: InterruptDescriptor)
    ensures r.offsetLow as bv64 == offset & 0xffff
    ensures r.offsetMiddle as bv64 == (offset >> 16) & 0xffff
    ensures r.offsetHigh as bv64 == offset >> 32
    ensures r.attr == attr && r.segmentSelector == segmentSelector
    ensures r.reserved == desc.reserved
  {
    desc.(attr := attr,
          offsetLow := (offset & 0xffff) as bv16,
          offsetMiddle := ((offset >> 16) & 0xffff) as bv16,
          offsetHigh := (offset >> 32) as bv32,
          segmentSelector := segmentSelector)
  }

  /** The three offset fields put back together give the original offset. */
  lemma OffsetRoundTrip(desc: InterruptDescriptor, attr: DescriptorAttribute, offset: bv64,
                        segmentSelector: bv16)
    ensures Offset(SetIDTEntry(desc, attr, offset, segmentSelector)) == offset
  {
  }

  /** Two handlers at different offsets never share a descriptor. */
  lemma SetIDTEntryInjective(desc: InterruptDescriptor, attr: DescriptorAttribute, a: bv64, b: bv64,
                             segmentSelector: bv16)
    requires SetIDTEntry(desc, attr, a, segmentSelector) == SetIDTEntry(desc, attr, b, segmentSelector)
    ensures a == b
  {
    OffsetRoundTrip(desc, attr, a, segmentSelector);
    OffsetRoundTrip(desc, attr, b, segmentSelector);
  }

  const ZeroDescriptor := InterruptDescriptor(0, 0, DescriptorAttribute(0, 0), 0, 0, 0)

  /** The global `idt` and the `msg_queue` pointer set by `InitializeInterrupt`. */
  class Interrupts {
    const idt: array<InterruptDescriptor>
    var msgQueue: Timer.MessageQueue?

    ghost predicate Valid()
      reads this
    {
      idt.Length == IdtEntries
    }

    /** A zero-initialised table of 256 entries. */
    constructor ()
      ensures Valid() && fresh(idt) && msgQueue == null
      ensures forall i :: 0 <= i < idt.Length ==> idt[i] == ZeroDescriptor
    {
      idt := new InterruptDescriptor[IdtEntries](_ => ZeroDescriptor);
      msgQueue := null;
    }

    /** `InitializeInterrupt`: only the entry of vector 0x40 is written, as a
        DPL-0 interrupt gate to `handler` in the kernel code segment. */
    method InitializeInterrupt(queue: Timer.MessageQueue, handler: bv64, kernelCS: bv16)
      requires Valid()
      modifies this`msgQueue, idt
      ensures Valid() && msgQueue == queue
      ensures idt[XHCIVector] == SetIDTEntry(old(idt[XHCIVector]), MakeIDTAttr(InterruptGate, 0), handler, kernelCS)
      ensures Offset(idt[XHCIVector]) == handler
      ensures idt[XHCIVector].attr.dpl == 0 && idt[XHCIVector].attr.descriptorType == InterruptGate
      ensures idt[XHCIVector].segmentSelector == kernelCS
      ensures forall i :: 0 <= i < idt.Length && i != XHCIVector ==> idt[i] == old(idt[i])
    {
      msgQueue := queue;
      idt[XHCIVector] := SetIDTEntry(idt[XHCIVector], MakeIDTAttr(InterruptGate, 0), handler, kernelCS);
      OffsetRoundTrip(old(idt[XHCIVector]), MakeIDTAttr(InterruptGate, 0), handler, kernelCS);
    }
  }
}
