/** Applying AMD64 COFF relocations to placed sections, and moving the result to another base. */
module Relocate {
  import opened Basics
  import opened Coff
  import opened Bytes
  import opened Fields
  import opened BaseRelocs
  import opened Targets

  const RelAddr64 := 1
  const RelAddr32 := 2
  const RelAddr32Nb := 3
  const RelRel32 := 4
  const RelRel32Last := 9
  const RelSection := 10
  const RelSecRel := 11

  /**
   One relocation of a placed section: field position, type and resolved target. Relocations of
   type 0 are resolved but patch nothing, so they do not become fixes.
   */
  datatype Fix = Fix(section: nat, offset: int, kind: int, target: Target)

  predicate IsRel32(kind: int) {
    RelRel32 <= kind <= RelRel32Last
  }

  function Width(kind: int): nat {
    if kind == RelAddr64 then 8 else if kind == RelSection then 2 else 4
  }

  /** Section RVAs and 64-bit base are given; the fix and its target name existing output sections. */
  predicate FixOk(rvas: seq<int>, fix: Fix) {
    fix.section < |rvas| && TargetOk(|rvas|, fix.target)
  }

  function TargetRva(rvas: seq<int>, t: Target): int
    requires TargetOk(|rvas|, t)
  {
    match t
    case SectionTarget(a) => rvas[a.output] + a.offset
    case ImageBaseTarget => 0
    case AbsoluteTarget(value) => value
  }

  function TargetVa(rvas: seq<int>, base: int, t: Target): int
    requires TargetOk(|rvas|, t)
  {
    match t
    case SectionTarget(_) => (base + TargetRva(rvas, t)) % 0x1_0000_0000_0000_0000
    case ImageBaseTarget => base
    case AbsoluteTarget(value) => value
  }

  function PlaceRva(rvas: seq<int>, fix: Fix): int
    requires fix.section < |rvas|
  {
    rvas[fix.section] + fix.offset
  }

  function Rel32Value(rvas: seq<int>, base: int, fix: Fix, addend: int): int
    requires FixOk(rvas, fix)
  {
    Signed(TargetVa(rvas, base, fix.target), 0x1_0000_0000_0000_0000) + Signed(addend, 0x1_0000_0000)
    - Signed(base + PlaceRva(rvas, fix) + 4 + (fix.kind - RelRel32), 0x1_0000_0000_0000_0000)
  }

  /** The bytes a relocation leaves in its field, given the bytes found there. */
  function NewBytes(rvas: seq<int>, base: int, fix: Fix, found: seq<byte>): (r: Result<seq<byte>>)
    requires FixOk(rvas, fix) && |found| == Width(fix.kind)
    ensures r.Ok? ==> |r.value| == |found|
  {
    var addend := Decode(found);
    var kind := fix.kind;
    if IsRel32(kind) then
      var value := Rel32Value(rvas, base, fix, addend);
      if -0x8000_0000 <= value <= 0x7fff_ffff then Ok(Encode(value, 4)) else Err("REL32 relocation overflow")
    else if kind == RelAddr64 then Ok(Encode(TargetVa(rvas, base, fix.target) + addend, 8))
    else if kind == RelAddr32 then
      var value := (TargetVa(rvas, base, fix.target) + addend) % 0x1_0000_0000_0000_0000;
      if value < 0x1_0000_0000 then Ok(Encode(value, 4)) else Err("ADDR32 relocation overflow")
    else if kind == RelAddr32Nb then
      if fix.target.AbsoluteTarget? then Err("ADDR32NB relocation cannot target an absolute symbol")
      else Ok(Encode(TargetRva(rvas, fix.target) + addend, 4))
    else if kind == RelSection then
      Ok(Encode(if fix.target.SectionTarget? then fix.target.address.output + 1 else |rvas| + 1, 2))
    else if kind == RelSecRel then Ok(Encode(SectionOffset(base, fix.target) + addend, 4))
    else Err("unsupported AMD64 COFF relocation type")
  }

  /** An image-base target carries the base itself, so SECREL against it depends on the base. */
  function SectionOffset(base: int, t: Target): int {
    match t
    case SectionTarget(a) => a.offset
    case ImageBaseTarget => base
    case AbsoluteTarget(value) => value
  }

  // ---------- the relocation loop ----------

  function PatchOf(d: Sections, rvas: seq<int>, base: int, fix: Fix): (r: Result<Patch>)
    requires FixOk(rvas, fix)
    ensures r.Ok? ==>
      Fits(d, r.value) && r.value.section == fix.section && r.value.offset == fix.offset
        && |r.value.bytes| == Width(fix.kind)
  {
    if !InBounds(d, fix.section, fix.offset, Width(fix.kind)) then Err("relocation exceeds section data")
    else
      match NewBytes(rvas, base, fix, Field(d, fix.section, fix.offset, Width(fix.kind)))
      case Err(m) => Err(m)
      case Ok(bytes) => Ok(Patch(fix.section, fix.offset, bytes))
  }

  /** The base relocation a fix calls for: absolute addresses of anything but an absolute symbol. */
  predicate NeedsBaseReloc(fix: Fix) {
    (fix.kind == RelAddr64 || fix.kind == RelAddr32) && !fix.target.AbsoluteTarget?
  }

  function BaseRelocOf(rvas: seq<int>, fix: Fix): BaseReloc
    requires fix.section < |rvas|
  {
    BaseReloc(PlaceRva(rvas, fix) % 0x1_0000_0000, if fix.kind == RelAddr64 then Dir64 else HighLow)
  }

  ghost predicate AllFixOk(rvas: seq<int>, fixes: seq<Fix>) {
    forall i :: 0 <= i < |fixes| ==> FixOk(rvas, fixes[i])
  }

  /** Fixes applied one after another, each reading its addend from the bytes as they are by then. */
  ghost function Relocated(d: Sections, rvas: seq<int>, base: int, fixes: seq<Fix>): Result<Sections>
    requires AllFixOk(rvas, fixes)
    decreases |fixes|
  {
    if fixes == [] then Ok(d)
    else
      match PatchOf(d, rvas, base, fixes[0])
      case Err(m) => Err(m)
      case Ok(p) => Relocated(Apply(d, p), rvas, base, fixes[1..])
  }

  ghost function Emitted(rvas: seq<int>, fixes: seq<Fix>): seq<BaseReloc>
    requires AllFixOk(rvas, fixes)
  {
    if fixes == [] then []
    else
      var last := fixes[|fixes| - 1];
      Emitted(rvas, fixes[..|fixes| - 1]) + if NeedsBaseReloc(last) then [BaseRelocOf(rvas, last)] else []
  }

  lemma {:induction false} RelocatedSnoc(d: Sections, rvas: seq<int>, base: int, fixes: seq<Fix>, fix: Fix)
    requires AllFixOk(rvas, fixes) && FixOk(rvas, fix)
    ensures AllFixOk(rvas, fixes + [fix])
    ensures Relocated(d, rvas, base, fixes + [fix]) ==
      match Relocated(d, rvas, base, fixes)
      case Err(m) => Err(m)
      case Ok(d1) =>
        match PatchOf(d1, rvas, base, fix)
        case Err(m) => Err(m)
        case Ok(p) => Ok(Apply(d1, p))
    decreases |fixes|
  {
    assert forall i :: 0 <= i < |fixes| ==> (fixes + [fix])[i] == fixes[i];
    assert (fixes + [fix])[|fixes|] == fix;
    if fixes == [] {
      assert fixes + [fix] == [fix] && [fix][1..] == [];
    } else {
      assert (fixes + [fix])[1..] == fixes[1..] + [fix];
      var p := PatchOf(d, rvas, base, fixes[0]);
      if p.Ok? { RelocatedSnoc(Apply(d, p.value), rvas, base, fixes[1..], fix); }
    }
  }

  lemma {:induction false} StaysFailed(d: Sections, rvas: seq<int>, base: int, fixes: seq<Fix>, k: nat)
    requires AllFixOk(rvas, fixes) && k <= |fixes| && AllFixOk(rvas, fixes[..k])
    requires Relocated(d, rvas, base, fixes[..k]).Err?
    ensures Relocated(d, rvas, base, fixes).Err?
    decreases |fixes| - k
  {
    if k == |fixes| {
      assert fixes[..k] == fixes;
    } else {
      assert fixes[..k + 1] == fixes[..k] + [fixes[k]];
      RelocatedSnoc(d, rvas, base, fixes[..k], fixes[k]);
      StaysFailed(d, rvas, base, fixes, k + 1);
    }
  }

  /** The relocation loop of the linker over all placed sections. */
  method ApplyRelocations(d: Sections, rvas: seq<int>, base: int, fixes: seq<Fix>)
    returns (r: Result<(Sections, seq<BaseReloc>)>)
    requires AllFixOk(rvas, fixes)
    ensures r.Ok? <==> Relocated(d, rvas, base, fixes).Ok?
    ensures r.Ok? ==> r.value.0 == Relocated(d, rvas, base, fixes).value && r.value.1 == Emitted(rvas, fixes)
  {
    var sections, relocs: seq<BaseReloc> := d, [];
    for k := 0 to |fixes|
      invariant AllFixOk(rvas, fixes[..k]) && Relocated(d, rvas, base, fixes[..k]) == Ok(sections)
      invariant relocs == Emitted(rvas, fixes[..k])
    {
      assert fixes[..k + 1] == fixes[..k] + [fixes[k]] && fixes[..k + 1][..k] == fixes[..k];
      RelocatedSnoc(d, rvas, base, fixes[..k], fixes[k]);
      var p := PatchOf(sections, rvas, base, fixes[k]);
      if p.Err? {
        StaysFailed(d, rvas, base, fixes, k + 1);
        return Err(p.message);
      }
      sections := Apply(sections, p.value);
      if NeedsBaseReloc(fixes[k]) { relocs := relocs + [BaseRelocOf(rvas, fixes[k])]; }
    }
    assert fixes[..|fixes|] == fixes;
    r := Ok((sections, relocs));
  }
}
