/**
 * ACPI tables as bytes: the packed layouts of the RSDP (section 5.2.5.3 of
 * the ACPI Specification), the system description header (section 5.2.6) and
 * the FADT (section 5.2.9), the mod-256 byte checksum, and the RSDP validity
 * check.
 */
module Acpi {
  import opened Common
  import opened Layout

  const RsdpLayout: seq<Field> := [
    Field("signature", 8), Field("checksum", 1), Field("oem_id", 6), Field("revision", 1),
    Field("rsdt_address", 4), Field("length", 4), Field("xsdt_address", 8),
    Field("extended_checksum", 1), Field("reserved", 3)
  ]

  lemma RsdpOffsets()
    ensures OffsetAt(RsdpLayout, 0) == 0 && RsdpLayout[0].size == 8
    ensures OffsetAt(RsdpLayout, 1) == 8 && RsdpLayout[1].size == 1
    ensures OffsetAt(RsdpLayout, 2) == 9 && RsdpLayout[2].size == 6
    ensures OffsetAt(RsdpLayout, 3) == 15 && RsdpLayout[3].size == 1
    ensures OffsetAt(RsdpLayout, 4) == 16 && RsdpLayout[4].size == 4
    ensures OffsetAt(RsdpLayout, 5) == 20 && RsdpLayout[5].size == 4
    ensures OffsetAt(RsdpLayout, 6) == 24 && RsdpLayout[6].size == 8
    ensures OffsetAt(RsdpLayout, 7) == 32 && RsdpLayout[7].size == 1
    ensures SizeOf(RsdpLayout) == 36
  {
  }

  /** Any two RSDP fields are disjoint, and each lies inside the 36 bytes. */
  lemma RsdpFieldsPacked(i: nat, j: nat)
    requires i < j < |RsdpLayout|
    ensures OffsetAt(RsdpLayout, i) + RsdpLayout[i].size <= OffsetAt(RsdpLayout, j)
    ensures OffsetAt(RsdpLayout, j) + RsdpLayout[j].size <= 36
  {
    FieldsDisjoint(RsdpLayout, i, j);
    FieldInside(RsdpLayout, j);
    RsdpOffsets();
  }

  const DescriptionHeaderLayout: seq<Field> := [
    Field("signature", 4), Field("length", 4), Field("revision", 1), Field("checksum", 1),
    Field("oem_id", 6), Field("oem_table_id", 8), Field("oem_revision", 4),
    Field("creator_id", 4), Field("creator_revision", 4)
  ]

  lemma DescriptionHeaderOffsets()
    ensures DescriptionHeaderLayout[1].name == "length" && OffsetAt(DescriptionHeaderLayout, 1) == 4
    ensures DescriptionHeaderLayout[3].name == "checksum" && OffsetAt(DescriptionHeaderLayout, 3) == 9
    ensures SizeOf(DescriptionHeaderLayout) == 36
  {
  }

  /** The FADT with the members this kernel does not use kept as reserved
      byte arrays sized so that the used ones land at 76 and 112. */
  const FadtLayout: seq<Field> := [
    Field("header", 36), Field("reserved1", 40),
    Field("pm_tmr_blk", 4), Field("reserved2", 32),
    Field("flags", 4), Field("reserved3", 160)
  ]

  lemma FadtOffsets()
    ensures FadtLayout[2].name == "pm_tmr_blk" && OffsetAt(FadtLayout, 2) == 76
    ensures FadtLayout[4].name == "flags" && OffsetAt(FadtLayout, 4) == 112
    ensures FadtLayout[0].size == SizeOf(DescriptionHeaderLayout)
    ensures SizeOf(FadtLayout) == 276
  {
    DescriptionHeaderOffsets();
  }

  /** `kPMTimerFreq`: the ACPI PM timer runs at 3.579545 MHz. */
  const PMTimerFreq: nat := 3579545

  /** The sum of the bytes, without truncation, accumulated front to back. */
  function ByteSum(data: seq<uint8>): nat
  {
    if data == [] then 0 else ByteSum(data[..|data| - 1]) + data[|data| - 1]
  }

  /** `SumBytes`: adds the first `bytes` bytes in a `uint8_t`, which
      wraps around. */
  method SumBytes(data: seq<uint8>, bytes: nat) returns (sum: uint8)
    requires bytes <= |data|
    ensures sum == ByteSum(data[..bytes]) % 256
  {
    sum := 0;
    var i := 0;
    while i < bytes
      invariant 0 <= i <= bytes
      invariant sum == ByteSum(data[..i]) % 256
    {
      assert data[..i + 1][..i] == data[..i];
      sum := (sum + data[i]) % 256;
      i := i + 1;
    }
  }

  lemma {:induction false} ByteSumConcat(a: seq<uint8>, b: seq<uint8>)
    ensures ByteSum(a + b) == ByteSum(a) + ByteSum(b)
    decreases |b|
  {
    if b != [] {
      var b' := b[..|b| - 1];
      assert (a + b)[..|a + b| - 1] == a + b';
      ByteSumConcat(a, b');
    } else {
      assert a + b == a;
    }
  }

  /** "RSD PTR " in ASCII. */
  const RsdpSignature: seq<uint8> := [0x52, 0x53, 0x44, 0x20, 0x50, 0x54, 0x52, 0x20]

  /** The bytes of a packed `RSDP`. */
  type RsdpBytes = s: seq<uint8> | |s| == 36
    witness seq(36, _ => 0)

  /** The four checks of `RSDP::IsValid`, in their order. */
  predicate SignatureOk(rsdp: RsdpBytes)
  {
    rsdp[..8] == RsdpSignature
  }

  predicate RevisionOk(rsdp: RsdpBytes)
  {
    rsdp[OffsetAt(RsdpLayout, 3)] == 2
  }

  predicate ChecksumOk(rsdp: RsdpBytes)
  {
    ByteSum(rsdp[..20]) % 256 == 0
  }

  predicate ExtendedChecksumOk(rsdp: RsdpBytes)
  {
    ByteSum(rsdp[..36]) % 256 == 0
  }

  /** `RSDP::IsValid`: each failed check returns false before the next one
      is made. */
  method IsValid(rsdp: RsdpBytes) returns (valid: bool)
    ensures !SignatureOk(rsdp) ==> !valid
    ensures !RevisionOk(rsdp) ==> !valid
    ensures !ChecksumOk(rsdp) ==> !valid
    ensures !ExtendedChecksumOk(rsdp) ==> !valid
    ensures valid <==> SignatureOk(rsdp) && RevisionOk(rsdp) && ChecksumOk(rsdp) && ExtendedChecksumOk(rsdp)
  {
    RsdpOffsets();
    if rsdp[..8] != RsdpSignature {
      return false;
    }
    if rsdp[15] != 2 {
      return false;
    }
    var sum := SumBytes(rsdp, 20);
    if sum != 0 {
      return false;
    }
    sum := SumBytes(rsdp, 36);
    if sum != 0 {
      return false;
    }
    return true;
  }

  /** With both checksums correct, the bytes of the extended part (20 to 35)
      also sum to 0 modulo 256. */
  lemma ExtendedPartSumsToZero(rsdp: RsdpBytes)
    requires ChecksumOk(rsdp) && ExtendedChecksumOk(rsdp)
    ensures ByteSum(rsdp[20..]) % 256 == 0
  {
    assert rsdp[..36] == rsdp;
    assert rsdp == rsdp[..20] + rsdp[20..];
    ByteSumConcat(rsdp[..20], rsdp[20..]);
  }

  /** A checksum byte is determined: exactly one value at position `k` brings
      the sum to 0 modulo 256. */
  lemma ChecksumByteUnique(data: seq<uint8>, k: nat, v: uint8, w: uint8)
    requires k < |data|
    requires ByteSum(data[k := v]) % 256 == 0 && ByteSum(data[k := w]) % 256 == 0
    ensures v == w
  {
    var a, b := data[..k], data[k + 1..];
    assert data[k := v] == a + ([v] + b);
    assert data[k := w] == a + ([w] + b);
    ByteSumConcat(a, [v] + b);
    ByteSumConcat(a, [w] + b);
    ByteSumConcat([v], b);
    ByteSumConcat([w], b);
    assert ByteSum([v]) == v by { assert [v][..0] == []; }
    assert ByteSum([w]) == w by { assert [w][..0] == []; }
  }
}
