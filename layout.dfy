/**
 * Byte layouts of `__attribute__((packed))` structures: the fields follow one
 * another with no padding, so each field's offset is the sum of the sizes of
 * the fields declared before it.
 */
module Layout {
  /** One member of a packed structure and its size in bytes. */
  datatype Field = Field(name: string, size: nat)

  /** The offset of field `k`: the bytes taken by the `k` fields before it. */
  function OffsetAt(fields: seq<Field>, k: nat): nat
    requires k <= |fields|
  {
    if k == 0 then 0 else OffsetAt(fields, k - 1) + fields[k - 1].size
  }

  /** `sizeof` of the packed structure. */
  function SizeOf(fields: seq<Field>): nat
  {
    OffsetAt(fields, |fields|)
  }

  /** Offsets never decrease along the declaration order. */
  lemma {:induction false} OffsetMonotone(fields: seq<Field>, i: nat, j: nat)
    requires i <= j <= |fields|
    ensures OffsetAt(fields, i) <= OffsetAt(fields, j)
    decreases j
  {
    if i < j {
      OffsetMonotone(fields, i, j - 1);
    }
  }

  /** Packing: two different fields occupy disjoint byte ranges, and every
      field lies inside the structure. */
  lemma {:induction false} FieldsDisjoint(fields: seq<Field>, i: nat, j: nat)
    requires i < j < |fields|
    ensures OffsetAt(fields, i) + fields[i].size <= OffsetAt(fields, j)
  {
    assert OffsetAt(fields, i + 1) == OffsetAt(fields, i) + fields[i].size;
    OffsetMonotone(fields, i + 1, j);
  }

  lemma {:induction false} FieldInside(fields: seq<Field>, i: nat)
    requires i < |fields|
    ensures OffsetAt(fields, i) + fields[i].size <= SizeOf(fields)
  {
    assert OffsetAt(fields, i + 1) == OffsetAt(fields, i) + fields[i].size;
    OffsetMonotone(fields, i + 1, |fields|);
  }

  /** Behind `k` fields of `size` bytes each the offset is `k * size`. */
  lemma {:induction false} OffsetAtUniform(fields: seq<Field>, k: nat, size: nat)
    requires k <= |fields|
    requires forall j :: 0 <= j < k ==> fields[j].size == size
    ensures OffsetAt(fields, k) == k * size
  {
    if k > 0 {
      OffsetAtUniform(fields, k - 1, size);
    }
  }
}
