/** Rounding up in 32-bit unsigned arithmetic. */
module Align {
  import opened Bytes

  function Wrap(v: int): (r: int)
    ensures 0 <= r < 0x1_0000_0000
  {
    v % 0x1_0000_0000
  }

  /** align_up on uint32_t: zero leaves the value alone, sums wrap around. */
  function AlignUp(v: int, alignment: int): (r: int)
    requires alignment >= 0
    ensures v >= 0 ==> r >= 0
  {
    if alignment == 0 then v else Wrap(Wrap(v + alignment - 1) / alignment * alignment)
  }

  /** The next multiple, without wrap-around. */
  function NextMultiple(v: int, alignment: int): int
    requires alignment > 0
  {
    (v + alignment - 1) / alignment * alignment
  }

  lemma NextMultipleBounds(v: int, a: int)
    requires a > 0
    ensures NextMultiple(v, a) % a == 0 && v <= NextMultiple(v, a) < v + a
  {
    var q := (v + a - 1) / a;
    assert v + a - 1 == q * a + (v + a - 1) % a;
    ModUnique(q * a, a, q, 0);
  }

  /** Without overflow the 32-bit result is the next multiple. */
  lemma AlignUpExact(v: int, a: int)
    requires a > 0 && 0 <= v && v + a - 1 < 0x1_0000_0000
    ensures AlignUp(v, a) == NextMultiple(v, a)
  {
    NextMultipleBounds(v, a);
  }

  lemma AlignUpBounds(v: int, a: int)
    requires a > 0 && 0 <= v && v + a - 1 < 0x1_0000_0000
    ensures AlignUp(v, a) % a == 0 && v <= AlignUp(v, a) < v + a
  {
    AlignUpExact(v, a);
    NextMultipleBounds(v, a);
  }
}
