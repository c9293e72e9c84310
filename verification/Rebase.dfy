/**
 Rebase equivalence: an image linked at one base and moved by the loader, against the same image
 linked at the other base.
 */
module Rebase {
  import opened Basics
  import opened Coff
  import opened Bytes
  import opened Fields
  import opened BaseRelocs
  import opened Relocate
  import opened Targets

  // ---------- modular arithmetic ----------

  lemma ModPlus(x: int, k: int, m: int)
    requires m > 0
    ensures (x + k * m) % m == x % m
  {
    var q := x / m;
    assert x == q * m + x % m;
    assert x + k * m == (q + k) * m + x % m by { Distribute(q, k, m); }
    ModUnique(x + k * m, m, q + k, x % m);
  }

  lemma Distribute(q: int, k: int, m: int)
    ensures (q + k) * m == q * m + k * m
  {
  }

  /** How often the modulus goes into the difference. */
  lemma Congruent(x: int, y: int, m: int)
    requires m > 0
    ensures x % m == y % m <==> exists k :: x == y + k * m
  {
    if x % m == y % m {
      assert x == (x / m) * m + x % m && y == (y / m) * m + y % m;
      Distribute(y / m, x / m - y / m, m);
      assert x == y + (x / m - y / m) * m;
    }
    if k :| x == y + k * m {
      ModPlus(y, k, m);
    }
  }

  lemma CongruentNarrow(x: int, y: int)
    requires x % 0x1_0000_0000_0000_0000 == y % 0x1_0000_0000_0000_0000
    ensures x % 0x1_0000_0000 == y % 0x1_0000_0000
  {
    Congruent(x, y, 0x1_0000_0000_0000_0000);
    var k :| x == y + k * 0x1_0000_0000_0000_0000;
    assert x == y + (k * 0x1_0000_0000) * 0x1_0000_0000;
    ModPlus(y, k * 0x1_0000_0000, 0x1_0000_0000);
  }

  lemma SignedCongruent(x: int, m: int)
    requires m > 0
    ensures Signed(x, m) % m == x % m
  {
    ModPlus(x % m, 0, m);
    ModPlus(x % m, -1, m);
    assert x % m % m == x % m by { ModUnique(x % m, m, 0, x % m); }
  }

  /** Congruence is kept by sums and differences. */
  lemma CongruentSum(a: int, a': int, b: int, b': int, m: int)
    requires m > 0 && a % m == a' % m && b % m == b' % m
    ensures (a + b) % m == (a' + b') % m && (a - b) % m == (a' - b') % m
  {
    Congruent(a, a', m);
    Congruent(b, b', m);
    var k :| a == a' + k * m;
    var l :| b == b' + l * m;
    ModPlus(a' + b', k + l, m);
    ModPlus(a' - b', k - l, m);
    SumOfMultiples(k, l, m);
  }

  lemma SumOfMultiples(k: int, l: int, m: int)
    ensures k * m + l * m == (k + l) * m && k * m - l * m == (k - l) * m
  {
  }

  lemma ModMod(x: int, m: int)
    requires m > 0
    ensures x % m % m == x % m
  {
    ModUnique(x % m, m, 0, x % m);
  }

  /** Shifting two words by the same amount keeps whether they are congruent. */
  lemma CongruentShift(x: int, y: int, c: int, m: int)
    requires m > 0
    ensures (x + c) % m == (y + c) % m <==> x % m == y % m
    ensures (c - x) % m == (c - y) % m <==> x % m == y % m
  {
    if x % m == y % m {
      CongruentSum(x, y, c, c, m);
      CongruentSum(c, c, x, y, m);
    }
    if (x + c) % m == (y + c) % m { CongruentSum(x + c, y + c, c, c, m); }
    if (c - x) % m == (c - y) % m { CongruentSum(c, c, c - x, c - y, m); }
  }

  // ---------- one field ----------

  /** What `base` contributes to a target address: VA and base differ by a fixed amount. */
  function FixedPart(rvas: seq<int>, t: Target): int
    requires TargetOk(|rvas|, t)
  {
    if t.SectionTarget? then TargetRva(rvas, t) else 0
  }

  lemma VaCongruent(rvas: seq<int>, base: int, t: Target)
    requires TargetOk(|rvas|, t) && !t.AbsoluteTarget?
    ensures TargetVa(rvas, base, t) % 0x1_0000_0000_0000_0000 == (base + FixedPart(rvas, t)) % 0x1_0000_0000_0000_0000
  {
    ModMod(base + FixedPart(rvas, t), 0x1_0000_0000_0000_0000);
  }

  lemma MovedSum(rvas: seq<int>, base: int, base': int, t: Target, addend: int)
    requires TargetOk(|rvas|, t) && !t.AbsoluteTarget?
    ensures ((TargetVa(rvas, base, t) + addend) % 0x1_0000_0000_0000_0000 + (base' - base)) % 0x1_0000_0000_0000_0000 ==
      (TargetVa(rvas, base', t) + addend) % 0x1_0000_0000_0000_0000
  {
    var delta := base' - base;
    var va, va', fixed := TargetVa(rvas, base, t), TargetVa(rvas, base', t), FixedPart(rvas, t);
    VaCongruent(rvas, base, t);
    VaCongruent(rvas, base', t);
    CongruentSum(va, base + fixed, addend, addend, 0x1_0000_0000_0000_0000);
    CongruentSum(va', base' + fixed, addend, addend, 0x1_0000_0000_0000_0000);
    ModMod(va + addend, 0x1_0000_0000_0000_0000);
    CongruentSum((va + addend) % 0x1_0000_0000_0000_0000, base + fixed + addend, delta, delta, 0x1_0000_0000_0000_0000);
  }

  /** A base-relocated field plus the distance moved is the field linked at the new base. */
  lemma MovedField(rvas: seq<int>, base: int, base': int, fix: Fix, found: seq<byte>)
    requires FixOk(rvas, fix) && |found| == Width(fix.kind) && NeedsBaseReloc(fix)
    requires NewBytes(rvas, base, fix, found).Ok? && NewBytes(rvas, base', fix, found).Ok?
    ensures Encode(Decode(NewBytes(rvas, base, fix, found).value) + (base' - base), Width(fix.kind)) ==
      NewBytes(rvas, base', fix, found).value
  {
    var addend, delta := Decode(found), base' - base;
    var sum, sum' := TargetVa(rvas, base, fix.target) + addend, TargetVa(rvas, base', fix.target) + addend;
    Widths();
    MovedSum(rvas, base, base', fix.target, addend);
    if fix.kind == RelAddr64 {
      DecodeEncode(sum, 8);
      EncodeEqual(sum % 0x1_0000_0000_0000_0000 + delta, sum', 8);
    } else {
      Word32(sum % 0x1_0000_0000_0000_0000);
      ModMod(sum', 0x1_0000_0000_0000_0000);
      CongruentNarrow(sum % 0x1_0000_0000_0000_0000 + delta, sum' % 0x1_0000_0000_0000_0000);
      EncodeEqual(sum % 0x1_0000_0000_0000_0000 + delta, sum' % 0x1_0000_0000_0000_0000, 4);
    }
  }

  /** The fixes whose field depends on the base although no base relocation covers it. */
  predicate BaseDependent(fix: Fix) {
    (IsRel32(fix.kind) && fix.target.AbsoluteTarget?) || (fix.kind == RelSecRel && fix.target.ImageBaseTarget?)
  }

  /** A REL32 value is the distance to the target, whatever the base, unless the target is absolute. */
  lemma Rel32Congruent(rvas: seq<int>, base: int, fix: Fix, addend: int)
    requires FixOk(rvas, fix)
    ensures var start := (if fix.target.AbsoluteTarget? then fix.target.value else base + FixedPart(rvas, fix.target));
      Rel32Value(rvas, base, fix, addend) % 0x1_0000_0000_0000_0000 ==
        (start + Signed(addend, 0x1_0000_0000) -
          (base + PlaceRva(rvas, fix) + 4 + (fix.kind - RelRel32))) % 0x1_0000_0000_0000_0000
  {
    var va := TargetVa(rvas, base, fix.target);
    var start := if fix.target.AbsoluteTarget? then fix.target.value else base + FixedPart(rvas, fix.target);
    var end := base + PlaceRva(rvas, fix) + 4 + (fix.kind - RelRel32);
    SignedCongruent(va, 0x1_0000_0000_0000_0000);
    SignedCongruent(end, 0x1_0000_0000_0000_0000);
    if !fix.target.AbsoluteTarget? { VaCongruent(rvas, base, fix.target); }
    CongruentSum(Signed(va, 0x1_0000_0000_0000_0000), start, Signed(addend, 0x1_0000_0000),
      Signed(addend, 0x1_0000_0000), 0x1_0000_0000_0000_0000);
    CongruentSum(Signed(va, 0x1_0000_0000_0000_0000) + Signed(addend, 0x1_0000_0000),
      start + Signed(addend, 0x1_0000_0000), Signed(end, 0x1_0000_0000_0000_0000), end, 0x1_0000_0000_0000_0000);
  }

  lemma PlainRel32(rvas: seq<int>, base: int, base': int, fix: Fix, found: seq<byte>)
    requires FixOk(rvas, fix) && |found| == Width(fix.kind) && IsRel32(fix.kind)
    requires NewBytes(rvas, base, fix, found).Ok? && NewBytes(rvas, base', fix, found).Ok?
    ensures NewBytes(rvas, base, fix, found) == NewBytes(rvas, base', fix, found) <==>
      (fix.target.AbsoluteTarget? ==> base % 0x1_0000_0000 == base' % 0x1_0000_0000)
  {
    var addend := Decode(found);
    var v, v' := Rel32Value(rvas, base, fix, addend), Rel32Value(rvas, base', fix, addend);
    var place := PlaceRva(rvas, fix) + 4 + (fix.kind - RelRel32);
    Widths();
    EncodeEqual(v, v', 4);
    Rel32Congruent(rvas, base, fix, addend);
    Rel32Congruent(rvas, base', fix, addend);
    if fix.target.AbsoluteTarget? {
      var c := fix.target.value + Signed(addend, 0x1_0000_0000) - place;
      assert v % 0x1_0000_0000_0000_0000 == (c - base) % 0x1_0000_0000_0000_0000
        && v' % 0x1_0000_0000_0000_0000 == (c - base') % 0x1_0000_0000_0000_0000;
      CongruentNarrow(v, c - base);
      CongruentNarrow(v', c - base');
      CongruentShift(base, base', c, 0x1_0000_0000);
    } else {
      assert v % 0x1_0000_0000_0000_0000 == v' % 0x1_0000_0000_0000_0000;
      Congruent(v, v', 0x1_0000_0000_0000_0000);
      var k :| v == v' + k * 0x1_0000_0000_0000_0000;
      MultipleIsFar(k, 0x1_0000_0000_0000_0000);
    }
  }

  /** Any other field is the same at both bases, except that a base-dependent one follows the low 32 bits. */
  lemma PlainField(rvas: seq<int>, base: int, base': int, fix: Fix, found: seq<byte>)
    requires FixOk(rvas, fix) && |found| == Width(fix.kind) && !NeedsBaseReloc(fix)
    requires NewBytes(rvas, base, fix, found).Ok? && NewBytes(rvas, base', fix, found).Ok?
    ensures NewBytes(rvas, base, fix, found) == NewBytes(rvas, base', fix, found) <==>
      (BaseDependent(fix) ==> base % 0x1_0000_0000 == base' % 0x1_0000_0000)
  {
    if IsRel32(fix.kind) {
      PlainRel32(rvas, base, base', fix, found);
    } else if BaseDependent(fix) {
      Widths();
      EncodeEqual(base + Decode(found), base' + Decode(found), 4);
      CongruentShift(base, base', Decode(found), 0x1_0000_0000);
    }
  }

  // ---------- disjoint fields ----------

  ghost predicate Apart(f: Fix, g: Fix) {
    f.section != g.section || f.offset + Width(f.kind) <= g.offset || g.offset + Width(g.kind) <= f.offset
  }

  ghost predicate FieldsDisjoint(fixes: seq<Fix>) {
    forall i, j :: 0 <= i < j < |fixes| ==> Apart(fixes[i], fixes[j])
  }

  /** All fixes succeed on the bytes they find in `d`. */
  ghost predicate AllPatch(d: Sections, rvas: seq<int>, base: int, fixes: seq<Fix>)
    requires AllFixOk(rvas, fixes)
  {
    forall i :: 0 <= i < |fixes| ==> PatchOf(d, rvas, base, fixes[i]).Ok?
  }

  ghost function Patches(d: Sections, rvas: seq<int>, base: int, fixes: seq<Fix>): (ps: seq<Patch>)
    requires AllFixOk(rvas, fixes) && AllPatch(d, rvas, base, fixes)
    ensures |ps| == |fixes| && AllFit(d, ps)
    ensures forall i :: 0 <= i < |fixes| ==> Ok(ps[i]) == PatchOf(d, rvas, base, fixes[i])
  {
    seq(|fixes|, i requires 0 <= i < |fixes| => PatchOf(d, rvas, base, fixes[i]).value)
  }

  lemma PatchesDisjoint(d: Sections, rvas: seq<int>, base: int, fixes: seq<Fix>)
    requires AllFixOk(rvas, fixes) && AllPatch(d, rvas, base, fixes) && FieldsDisjoint(fixes)
    ensures Disjoint(Patches(d, rvas, base, fixes))
  {
    assert forall j, k :: 0 <= j < |fixes| && 0 <= k < |fixes| && j != k ==> Apart(fixes[j], fixes[k]);
  }

  lemma FieldUntouched(d: Sections, p: Patch, section: nat, offset: int, width: nat)
    requires Fits(d, p) && InBounds(d, section, offset, width)
    requires p.section != section || p.offset + |p.bytes| <= offset || offset + width <= p.offset
    ensures Field(Apply(d, p), section, offset, width) == Field(d, section, offset, width)
  {
    if p.section == section { GetPutOther(d[section], p.offset, p.bytes, offset, width); }
  }

  lemma SamePatch(d: Sections, rvas: seq<int>, base: int, p: Patch, fix: Fix)
    requires FixOk(rvas, fix) && Fits(d, p)
    requires p.section != fix.section || p.offset + |p.bytes| <= fix.offset || fix.offset + Width(fix.kind) <= p.offset
    ensures PatchOf(Apply(d, p), rvas, base, fix) == PatchOf(d, rvas, base, fix)
  {
    if InBounds(d, fix.section, fix.offset, Width(fix.kind)) {
      FieldUntouched(d, p, fix.section, fix.offset, Width(fix.kind));
    }
  }

  /** With disjoint fields, relocating one by one is patching every field from the original bytes. */
  lemma {:induction false} RelocatedIsPatched(d: Sections, rvas: seq<int>, base: int, fixes: seq<Fix>)
    requires AllFixOk(rvas, fixes) && FieldsDisjoint(fixes)
    ensures Relocated(d, rvas, base, fixes).Ok? <==> AllPatch(d, rvas, base, fixes)
    ensures AllPatch(d, rvas, base, fixes) ==>
      Relocated(d, rvas, base, fixes) == Ok(ApplyAll(d, Patches(d, rvas, base, fixes)))
    decreases |fixes|
  {
    if fixes != [] {
      var p := PatchOf(d, rvas, base, fixes[0]);
      if p.Ok? {
        var d1, rest := Apply(d, p.value), fixes[1..];
        RestPatches(d, rvas, base, fixes, p.value);
        RelocatedIsPatched(d1, rvas, base, rest);
        AllPatchRest(d, d1, rvas, base, fixes);
        if AllPatch(d, rvas, base, fixes) {
          assert Patches(d, rvas, base, fixes)[1..] == Patches(d1, rvas, base, rest);
        }
      }
    }
  }

  lemma RestPatches(d: Sections, rvas: seq<int>, base: int, fixes: seq<Fix>, p: Patch)
    requires AllFixOk(rvas, fixes) && FieldsDisjoint(fixes) && fixes != [] && PatchOf(d, rvas, base, fixes[0]) == Ok(p)
    ensures AllFixOk(rvas, fixes[1..]) && FieldsDisjoint(fixes[1..])
    ensures forall i :: 0 <= i < |fixes| - 1 ==>
      PatchOf(Apply(d, p), rvas, base, fixes[1..][i]) == PatchOf(d, rvas, base, fixes[i + 1])
  {
    forall i | 0 <= i < |fixes| - 1
      ensures PatchOf(Apply(d, p), rvas, base, fixes[1..][i]) == PatchOf(d, rvas, base, fixes[i + 1]) {
      assert Apart(fixes[0], fixes[i + 1]);
      SamePatch(d, rvas, base, p, fixes[i + 1]);
    }
    assert forall i, j :: 0 <= i < j < |fixes[1..]| ==> Apart(fixes[1..][i], fixes[1..][j]);
  }

  lemma AllPatchRest(d: Sections, d1: Sections, rvas: seq<int>, base: int, fixes: seq<Fix>)
    requires AllFixOk(rvas, fixes) && fixes != [] && PatchOf(d, rvas, base, fixes[0]).Ok? && AllFixOk(rvas, fixes[1..])
    requires forall i :: 0 <= i < |fixes| - 1 ==>
      PatchOf(d1, rvas, base, fixes[1..][i]) == PatchOf(d, rvas, base, fixes[i + 1])
    ensures AllPatch(d1, rvas, base, fixes[1..]) <==> AllPatch(d, rvas, base, fixes)
  {
    if AllPatch(d1, rvas, base, fixes[1..]) {
      forall i | 0 <= i < |fixes| ensures PatchOf(d, rvas, base, fixes[i]).Ok? {
        if i > 0 { assert PatchOf(d1, rvas, base, fixes[1..][i - 1]).Ok?; }
      }
    }
    if AllPatch(d, rvas, base, fixes) {
      forall i | 0 <= i < |fixes| - 1 ensures PatchOf(d1, rvas, base, fixes[1..][i]).Ok? {
        assert PatchOf(d, rvas, base, fixes[i + 1]).Ok?;
      }
    }
  }

  // ---------- the loader ----------

  /** The section whose bytes contain this RVA. */
  function SectionAt(d: Sections, rvas: seq<int>, rva: int): Option<nat>
    requires |d| == |rvas|
  {
    FindSection(d, rvas, rva, 0)
  }

  function FindSection(d: Sections, rvas: seq<int>, rva: int, from: nat): (r: Option<nat>)
    requires |d| == |rvas| && from <= |d|
    ensures r.Some? ==> r.value < |d| && rvas[r.value] <= rva < rvas[r.value] + |d[r.value]|
    decreases |d| - from
  {
    if from == |d| then None
    else if rvas[from] <= rva < rvas[from] + |d[from]| then Some(from)
    else FindSection(d, rvas, rva, from + 1)
  }

  /** DIR64 and HIGHLOW add the distance to an 8-byte or a 4-byte field. */
  function LoaderPatch(d: Sections, rvas: seq<int>, delta: int, r: BaseReloc): (p: Result<Patch>)
    requires |d| == |rvas|
    ensures p.Ok? ==> Fits(d, p.value)
  {
    var width := if r.kind == Dir64 then 8 else 4;
    match SectionAt(d, rvas, r.rva)
    case None => Err("base relocation outside the image")
    case Some(s) =>
      var offset := r.rva - rvas[s];
      if !InBounds(d, s, offset, width) then Err("base relocation outside its section")
      else Ok(Patch(s, offset, Encode(Decode(Field(d, s, offset, width)) + delta, width)))
  }

  /** The loader moves the image: one base relocation after another. */
  ghost function Rebased(d: Sections, rvas: seq<int>, delta: int, relocs: seq<BaseReloc>): Result<Sections>
    requires |d| == |rvas|
    decreases |relocs|
  {
    if relocs == [] then Ok(d)
    else
      match LoaderPatch(d, rvas, delta, relocs[0])
      case Err(m) => Err(m)
      case Ok(p) => Rebased(Apply(d, p), rvas, delta, relocs[1..])
  }

  /** Section RVAs increase, leave room for the section bytes, and stay below 4 GiB. */
  ghost predicate Mapped(d: Sections, rvas: seq<int>) {
    && |d| == |rvas|
    && (forall i :: 0 <= i < |d| ==> 0 <= rvas[i] && rvas[i] + |d[i]| <= 0x1_0000_0000)
    && (forall i, j :: 0 <= i < j < |d| ==> rvas[i] + |d[i]| <= rvas[j])
  }

  lemma {:induction false} SectionFound(d: Sections, rvas: seq<int>, s: nat, offset: int, from: nat)
    requires Mapped(d, rvas) && from <= s < |d| && 0 <= offset < |d[s]|
    ensures FindSection(d, rvas, rvas[s] + offset, from) == Some(s)
    decreases s - from
  {
    if from < s { SectionFound(d, rvas, s, offset, from + 1); }
  }

  /** The patch the loader makes for a fix that emitted a base relocation. */
  ghost function MovePatch(d: Sections, delta: int, fix: Fix): Patch
    requires InBounds(d, fix.section, fix.offset, Width(fix.kind))
  {
    Patch(fix.section, fix.offset, Encode(Decode(Field(d, fix.section, fix.offset, Width(fix.kind))) + delta,
      Width(fix.kind)))
  }

  lemma LoaderFindsFix(d: Sections, rvas: seq<int>, delta: int, fix: Fix)
    requires Mapped(d, rvas) && NeedsBaseReloc(fix) && InBounds(d, fix.section, fix.offset, Width(fix.kind))
    ensures LoaderPatch(d, rvas, delta, BaseRelocOf(rvas, fix)) == Ok(MovePatch(d, delta, fix))
  {
    SectionFound(d, rvas, fix.section, fix.offset, 0);
    assert PlaceRva(rvas, fix) % 0x1_0000_0000 == PlaceRva(rvas, fix);
  }

  ghost predicate AllInBounds(d: Sections, fixes: seq<Fix>) {
    forall i :: 0 <= i < |fixes| ==> InBounds(d, fixes[i].section, fixes[i].offset, Width(fixes[i].kind))
  }

  ghost function MovePatches(d: Sections, delta: int, fixes: seq<Fix>): (ps: seq<Patch>)
    requires AllInBounds(d, fixes)
    ensures |ps| == |fixes| && AllFit(d, ps)
    ensures forall i :: 0 <= i < |fixes| ==> ps[i] == MovePatch(d, delta, fixes[i])
  {
    seq(|fixes|, i requires 0 <= i < |fixes| => MovePatch(d, delta, fixes[i]))
  }

  lemma MovesDisjoint(d: Sections, delta: int, fixes: seq<Fix>)
    requires AllInBounds(d, fixes) && FieldsDisjoint(fixes)
    ensures Disjoint(MovePatches(d, delta, fixes))
  {
    assert forall j, k :: 0 <= j < |fixes| && 0 <= k < |fixes| && j != k ==> Apart(fixes[j], fixes[k]);
  }

  lemma BoundsKept(d: Sections, p: Patch, fixes: seq<Fix>)
    requires Fits(d, p) && AllInBounds(d, fixes) && fixes != []
    ensures AllInBounds(Apply(d, p), fixes[1..])
  {
    forall i | 0 <= i < |fixes| - 1
      ensures InBounds(Apply(d, p), fixes[1..][i].section, fixes[1..][i].offset, Width(fixes[1..][i].kind)) {
      assert InBounds(d, fixes[i + 1].section, fixes[i + 1].offset, Width(fixes[i + 1].kind));
    }
  }

  lemma SameMove(d: Sections, delta: int, p: Patch, fix: Fix)
    requires Fits(d, p) && InBounds(d, fix.section, fix.offset, Width(fix.kind))
    requires p.section != fix.section || p.offset + |p.bytes| <= fix.offset || fix.offset + Width(fix.kind) <= p.offset
    ensures InBounds(Apply(d, p), fix.section, fix.offset, Width(fix.kind))
    ensures MovePatch(Apply(d, p), delta, fix) == MovePatch(d, delta, fix)
  {
    FieldUntouched(d, p, fix.section, fix.offset, Width(fix.kind));
  }

  lemma MovesRest(d: Sections, delta: int, fixes: seq<Fix>)
    requires AllInBounds(d, fixes) && FieldsDisjoint(fixes) && fixes != []
    ensures var d1 := Apply(d, MovePatch(d, delta, fixes[0]));
      AllInBounds(d1, fixes[1..]) && MovePatches(d, delta, fixes)[1..] == MovePatches(d1, delta, fixes[1..])
  {
    var p, rest := MovePatch(d, delta, fixes[0]), fixes[1..];
    var d1 := Apply(d, p);
    BoundsKept(d, p, fixes);
    forall i | 0 <= i < |rest| ensures MovePatch(d1, delta, rest[i]) == MovePatch(d, delta, fixes[i + 1]) {
      assert Apart(fixes[0], fixes[i + 1]);
      SameMove(d, delta, p, fixes[i + 1]);
    }
  }

  /** The relocations of disjoint fixes move each of their fields, read from the image as it was loaded. */
  lemma {:induction false} RebasedIsMoved(d: Sections, rvas: seq<int>, delta: int, relocs: seq<BaseReloc>,
          fixes: seq<Fix>)
    requires Movable(d, rvas, relocs, fixes)
    ensures Rebased(d, rvas, delta, relocs) == Ok(ApplyAll(d, MovePatches(d, delta, fixes)))
    decreases |fixes|
  {
    if fixes != [] {
      var p := MovePatch(d, delta, fixes[0]);
      LoaderFindsFix(d, rvas, delta, fixes[0]);
      MovesRest(d, delta, fixes);
      MovableRest(d, rvas, delta, relocs, fixes);
      RebasedIsMoved(Apply(d, p), rvas, delta, relocs[1..], fixes[1..]);
    }
  }

  /** The relocations are those of disjoint fixes inside the image, one for one. */
  ghost predicate Movable(d: Sections, rvas: seq<int>, relocs: seq<BaseReloc>, fixes: seq<Fix>) {
    && Mapped(d, rvas) && |relocs| == |fixes| && AllInBounds(d, fixes) && FieldsDisjoint(fixes)
    && forall i :: 0 <= i < |fixes| ==> NeedsBaseReloc(fixes[i]) && relocs[i] == BaseRelocOf(rvas, fixes[i])
  }

  lemma MovableRest(d: Sections, rvas: seq<int>, delta: int, relocs: seq<BaseReloc>, fixes: seq<Fix>)
    requires Movable(d, rvas, relocs, fixes) && fixes != []
    ensures Movable(Apply(d, MovePatch(d, delta, fixes[0])), rvas, relocs[1..], fixes[1..])
  {
    BoundsKept(d, MovePatch(d, delta, fixes[0]), fixes);
    var rest := fixes[1..];
    assert forall i, j :: 0 <= i < j < |rest| ==> Apart(rest[i], rest[j]);
  }

  // ---------- which fields the relocations name ----------

  lemma {:induction false} EmittedFrom(rvas: seq<int>, fixes: seq<Fix>, e: BaseReloc)
    requires AllFixOk(rvas, fixes)
    ensures e in Emitted(rvas, fixes) <==>
      exists i :: 0 <= i < |fixes| && NeedsBaseReloc(fixes[i]) && BaseRelocOf(rvas, fixes[i]) == e
  {
    if fixes != [] {
      var front, last := fixes[..|fixes| - 1], fixes[|fixes| - 1];
      EmittedFrom(rvas, front, e);
      if e in Emitted(rvas, front) {
        var i :| 0 <= i < |front| && NeedsBaseReloc(front[i]) && BaseRelocOf(rvas, front[i]) == e;
        assert fixes[i] == front[i];
      }
      if i :| 0 <= i < |fixes| && NeedsBaseReloc(fixes[i]) && BaseRelocOf(rvas, fixes[i]) == e {
        if i < |front| { assert front[i] == fixes[i]; }
      }
    }
  }

  ghost predicate NoRepeats<T>(s: seq<T>) {
    forall i, j :: 0 <= i < j < |s| ==> s[i] != s[j]
  }

  lemma {:induction false} NoRepeatsCount<T>(s: seq<T>)
    ensures NoRepeats(s) <==> forall x :: x in multiset(s) ==> multiset(s)[x] == 1
  {
    if s != [] {
      var front, last := s[..|s| - 1], s[|s| - 1];
      NoRepeatsCount(front);
      assert s == front + [last];
      assert multiset(s) == multiset(front) + multiset{last};
      if NoRepeats(s) {
        assert last !in front;
        assert last !in multiset(front);
      } else if NoRepeats(front) {
        var i :| 0 <= i < |front| && s[i] == last;
        assert front[i] in multiset(front);
        assert multiset(s)[last] >= 2;
      } else {
        var x :| x in multiset(front) && multiset(front)[x] != 1;
        assert multiset(s)[x] >= multiset(front)[x] > 1;
      }
    }
  }

  /** Fixes with the same base relocation have the same field. */
  lemma SamePlace(d: Sections, rvas: seq<int>, f: Fix, g: Fix)
    requires Mapped(d, rvas) && NeedsBaseReloc(f) && NeedsBaseReloc(g)
    requires InBounds(d, f.section, f.offset, Width(f.kind)) && InBounds(d, g.section, g.offset, Width(g.kind))
    requires BaseRelocOf(rvas, f) == BaseRelocOf(rvas, g)
    ensures f.section == g.section && f.offset == g.offset && f.kind == g.kind
  {
    assert PlaceRva(rvas, f) % 0x1_0000_0000 == PlaceRva(rvas, f)
      && PlaceRva(rvas, g) % 0x1_0000_0000 == PlaceRva(rvas, g);
    SectionFound(d, rvas, f.section, f.offset, 0);
    SectionFound(d, rvas, g.section, g.offset, 0);
  }

  lemma {:induction false} EmittedOnce(d: Sections, rvas: seq<int>, fixes: seq<Fix>)
    requires Mapped(d, rvas) && AllFixOk(rvas, fixes) && AllInBounds(d, fixes) && FieldsDisjoint(fixes)
    ensures NoRepeats(Emitted(rvas, fixes))
  {
    if fixes != [] {
      var front, last := fixes[..|fixes| - 1], fixes[|fixes| - 1];
      EmittedOnce(d, rvas, front);
      if NeedsBaseReloc(last) && BaseRelocOf(rvas, last) in Emitted(rvas, front) {
        EmittedFrom(rvas, front, BaseRelocOf(rvas, last));
        var i :| 0 <= i < |front| && NeedsBaseReloc(front[i]) && BaseRelocOf(rvas, front[i]) == BaseRelocOf(rvas, last);
        assert Apart(fixes[i], fixes[|fixes| - 1]);
        SamePlace(d, rvas, front[i], last);
      }
    }
  }

  /** The fixes behind a list of base relocations. */
  lemma {:induction false} FixesBehind(rvas: seq<int>, fixes: seq<Fix>, relocs: seq<BaseReloc>) returns (gs: seq<Fix>)
    requires AllFixOk(rvas, fixes) && forall e :: e in relocs ==> e in Emitted(rvas, fixes)
    ensures |gs| == |relocs|
    ensures forall i :: 0 <= i < |gs| ==>
      gs[i] in fixes && NeedsBaseReloc(gs[i]) && relocs[i] == BaseRelocOf(rvas, gs[i])
  {
    gs := [];
    if relocs != [] {
      var front, e := relocs[..|relocs| - 1], relocs[|relocs| - 1];
      gs := FixesBehind(rvas, fixes, front);
      EmittedFrom(rvas, fixes, e);
      var i :| 0 <= i < |fixes| && NeedsBaseReloc(fixes[i]) && BaseRelocOf(rvas, fixes[i]) == e;
      gs := gs + [fixes[i]];
    }
  }

  lemma BehindDisjoint(rvas: seq<int>, fixes: seq<Fix>, relocs: seq<BaseReloc>, gs: seq<Fix>)
    requires AllFixOk(rvas, fixes) && FieldsDisjoint(fixes) && NoRepeats(relocs) && |gs| == |relocs|
    requires forall i :: 0 <= i < |gs| ==>
      gs[i] in fixes && NeedsBaseReloc(gs[i]) && relocs[i] == BaseRelocOf(rvas, gs[i])
    ensures FieldsDisjoint(gs)
  {
    forall i, j | 0 <= i < j < |gs| ensures Apart(gs[i], gs[j]) {
      var a :| 0 <= a < |fixes| && fixes[a] == gs[i];
      var b :| 0 <= b < |fixes| && fixes[b] == gs[j];
      assert a != b;
      assert a < b ==> Apart(fixes[a], fixes[b]);
      assert b < a ==> Apart(fixes[b], fixes[a]);
    }
  }

  // ---------- the two images ----------

  predicate InField(fix: Fix, s: int, i: int) {
    fix.section == s && fix.offset <= i < fix.offset + Width(fix.kind)
  }

  ghost predicate SameShape(d: Sections, d': Sections) {
    |d| == |d'| && forall k :: 0 <= k < |d| ==> |d[k]| == |d'[k]|
  }

  /** Outside the fields of all fixes the two agree. */
  ghost predicate SameOutside(d: Sections, d': Sections, fixes: seq<Fix>)
    requires SameShape(d, d')
  {
    forall s, i :: 0 <= s < |d| && 0 <= i < |d[s]| && (forall k :: 0 <= k < |fixes| ==> !InField(fixes[k], s, i)) ==>
      d[s][i] == d'[s][i]
  }

  ghost predicate SameFields(d: Sections, d': Sections, fixes: seq<Fix>)
    requires SameShape(d, d') && AllInBounds(d, fixes)
  {
    forall k :: 0 <= k < |fixes| ==>
      Field(d, fixes[k].section, fixes[k].offset, Width(fixes[k].kind)) ==
        Field(d', fixes[k].section, fixes[k].offset, Width(fixes[k].kind))
  }

  lemma SameEverywhere(d: Sections, d': Sections, fixes: seq<Fix>)
    requires SameShape(d, d') && AllInBounds(d, fixes) && SameOutside(d, d', fixes) && SameFields(d, d', fixes)
    ensures d == d'
  {
    forall s | 0 <= s < |d| ensures d[s] == d'[s] {
      forall i | 0 <= i < |d[s]| ensures d[s][i] == d'[s][i] {
        if k :| 0 <= k < |fixes| && InField(fixes[k], s, i) {
          var f := fixes[k];
          assert Field(d, s, f.offset, Width(f.kind))[i - f.offset] ==
            Field(d', s, f.offset, Width(f.kind))[i - f.offset];
        }
      }
    }
  }

  /** One patch of the right size per fix. */
  ghost predicate PatchesFor(d: Sections, fixes: seq<Fix>, ps: seq<Patch>) {
    && |ps| == |fixes| && AllFit(d, ps) && Disjoint(ps)
    && forall k :: 0 <= k < |ps| ==>
         ps[k].section == fixes[k].section && ps[k].offset == fixes[k].offset && |ps[k].bytes| == Width(fixes[k].kind)
  }

  lemma LinkedOutside(d: Sections, fixes: seq<Fix>, ps: seq<Patch>)
    requires PatchesFor(d, fixes, ps)
    ensures var r := ApplyAll(d, ps); SameShape(d, r) && SameOutside(d, r, fixes)
  {
    forall s, i | 0 <= s < |d| && 0 <= i < |d[s]| && (forall k :: 0 <= k < |fixes| ==> !InField(fixes[k], s, i))
      ensures ApplyAll(d, ps)[s][i] == d[s][i] {
      forall k | 0 <= k < |ps| ensures !Covers(ps[k], s, i) { assert !InField(fixes[k], s, i); }
      Missed(d, ps, s, i);
    }
  }

  lemma MovedOutside(d: Sections, delta: int, fixes: seq<Fix>, gs: seq<Fix>)
    requires AllInBounds(d, gs) && forall i :: 0 <= i < |gs| ==> gs[i] in fixes
    ensures var r := ApplyAll(d, MovePatches(d, delta, gs)); SameShape(d, r) && SameOutside(d, r, fixes)
  {
    var ps := MovePatches(d, delta, gs);
    forall s, i | 0 <= s < |d| && 0 <= i < |d[s]| && (forall k :: 0 <= k < |fixes| ==> !InField(fixes[k], s, i))
      ensures ApplyAll(d, ps)[s][i] == d[s][i] {
      forall k | 0 <= k < |ps| ensures !Covers(ps[k], s, i) {
        var a :| 0 <= a < |fixes| && fixes[a] == gs[k];
        assert !InField(fixes[a], s, i);
      }
      Missed(d, ps, s, i);
    }
  }

  /** What moving does to the field of a fix: the listed ones shift by `delta`, the others stay. */
  lemma OtherMove(d: Sections, delta: int, fixes: seq<Fix>, g: Fix, k: nat, i: int)
    requires FieldsDisjoint(fixes) && k < |fixes| && g in fixes && g != fixes[k]
    requires InBounds(d, g.section, g.offset, Width(g.kind))
    requires fixes[k].offset <= i < fixes[k].offset + Width(fixes[k].kind)
    ensures !Covers(MovePatch(d, delta, g), fixes[k].section, i)
  {
    var a :| 0 <= a < |fixes| && fixes[a] == g;
    assert a < k ==> Apart(fixes[a], fixes[k]);
    assert k < a ==> Apart(fixes[k], fixes[a]);
  }

  lemma MovedFieldOf(d: Sections, rvas: seq<int>, delta: int, fixes: seq<Fix>, relocs: seq<BaseReloc>, gs: seq<Fix>,
          k: nat)
    requires Mapped(d, rvas) && AllFixOk(rvas, fixes) && AllInBounds(d, fixes) && AllInBounds(d, gs)
    requires FieldsDisjoint(fixes) && FieldsDisjoint(gs) && |gs| == |relocs| && k < |fixes|
    requires forall i :: 0 <= i < |gs| ==>
      gs[i] in fixes && NeedsBaseReloc(gs[i]) && relocs[i] == BaseRelocOf(rvas, gs[i])
    requires NeedsBaseReloc(fixes[k]) ==> BaseRelocOf(rvas, fixes[k]) in relocs
    ensures var f, r := fixes[k], ApplyAll(d, MovePatches(d, delta, gs));
      Field(r, f.section, f.offset, Width(f.kind)) ==
        if NeedsBaseReloc(f) then MovePatch(d, delta, f).bytes else Field(d, f.section, f.offset, Width(f.kind))
  {
    var f := fixes[k];
    if NeedsBaseReloc(f) {
      var i :| 0 <= i < |relocs| && relocs[i] == BaseRelocOf(rvas, f);
      HitMoveOf(d, rvas, delta, f, gs, i);
    } else {
      MissedMove(d, delta, fixes, gs, k);
    }
  }

  lemma HitMove(d: Sections, delta: int, gs: seq<Fix>, i: nat)
    requires AllInBounds(d, gs) && FieldsDisjoint(gs) && i < |gs|
    ensures var g := gs[i];
      Field(ApplyAll(d, MovePatches(d, delta, gs)), g.section, g.offset, Width(g.kind)) == MovePatch(d, delta, g).bytes
  {
    MovesDisjoint(d, delta, gs);
    FieldHit(d, MovePatches(d, delta, gs), i);
  }

  lemma HitMoveOf(d: Sections, rvas: seq<int>, delta: int, f: Fix, gs: seq<Fix>, i: nat)
    requires Mapped(d, rvas) && AllInBounds(d, gs) && FieldsDisjoint(gs) && i < |gs|
    requires InBounds(d, f.section, f.offset, Width(f.kind))
    requires NeedsBaseReloc(f) && NeedsBaseReloc(gs[i]) && BaseRelocOf(rvas, f) == BaseRelocOf(rvas, gs[i])
    ensures Field(ApplyAll(d, MovePatches(d, delta, gs)), f.section, f.offset, Width(f.kind)) ==
      MovePatch(d, delta, f).bytes
  {
    SamePlace(d, rvas, f, gs[i]);
    HitMove(d, delta, gs, i);
  }

  lemma MissedMove(d: Sections, delta: int, fixes: seq<Fix>, gs: seq<Fix>, k: nat)
    requires AllInBounds(d, fixes) && AllInBounds(d, gs) && FieldsDisjoint(fixes) && k < |fixes|
    requires forall i :: 0 <= i < |gs| ==> gs[i] in fixes && gs[i] != fixes[k]
    ensures var f := fixes[k];
      Field(ApplyAll(d, MovePatches(d, delta, gs)), f.section, f.offset, Width(f.kind)) ==
        Field(d, f.section, f.offset, Width(f.kind))
  {
    var f, ps := fixes[k], MovePatches(d, delta, gs);
    forall j, i | 0 <= j < |ps| && f.offset <= i < f.offset + Width(f.kind) ensures !Covers(ps[j], f.section, i) {
      OtherMove(d, delta, fixes, gs[j], k, i);
    }
    FieldMissed(d, ps, f.section, f.offset, Width(f.kind));
  }

  ghost predicate HasBaseDependent(fixes: seq<Fix>) {
    exists i :: 0 <= i < |fixes| && BaseDependent(fixes[i])
  }

  /** Field by field: moved from `base` against linked at `base'`. */
  lemma FieldAgrees(d: Sections, rvas: seq<int>, base: int, base': int, fix: Fix)
    requires FixOk(rvas, fix) && PatchOf(d, rvas, base, fix).Ok? && PatchOf(d, rvas, base', fix).Ok?
    ensures var p, p' := PatchOf(d, rvas, base, fix).value.bytes, PatchOf(d, rvas, base', fix).value.bytes;
      if NeedsBaseReloc(fix) then Encode(Decode(p) + (base' - base), Width(fix.kind)) == p'
      else p == p' <==> (BaseDependent(fix) ==> base % 0x1_0000_0000 == base' % 0x1_0000_0000)
  {
    var found := Field(d, fix.section, fix.offset, Width(fix.kind));
    if NeedsBaseReloc(fix) {
      MovedField(rvas, base, base', fix, found);
    } else {
      PlainField(rvas, base, base', fix, found);
    }
  }

  /** The field of fix `k` after patching. */
  lemma LinkedField(d: Sections, fixes: seq<Fix>, ps: seq<Patch>, k: nat)
    requires PatchesFor(d, fixes, ps) && k < |fixes|
    ensures var f, r := fixes[k], ApplyAll(d, ps);
      InBounds(r, f.section, f.offset, Width(f.kind)) && Field(r, f.section, f.offset, Width(f.kind)) == ps[k].bytes
  {
    FieldHit(d, ps, k);
  }

  ghost predicate SameField(d: Sections, d': Sections, fix: Fix)
    requires SameShape(d, d') && InBounds(d, fix.section, fix.offset, Width(fix.kind))
  {
    Field(d, fix.section, fix.offset, Width(fix.kind)) == Field(d', fix.section, fix.offset, Width(fix.kind))
  }

  /** Two images that differ in fields only are equal exactly when every field is. */
  lemma Verdict(d: Sections, d': Sections, fixes: seq<Fix>, basesAgree: bool)
    requires SameShape(d, d') && AllInBounds(d, fixes) && SameOutside(d, d', fixes)
    requires forall k :: 0 <= k < |fixes| ==> (SameField(d, d', fixes[k]) <==> (BaseDependent(fixes[k]) ==> basesAgree))
    ensures d == d' <==> (HasBaseDependent(fixes) ==> basesAgree)
  {
    if HasBaseDependent(fixes) ==> basesAgree {
      forall k | 0 <= k < |fixes| ensures SameField(d, d', fixes[k]) { }
      SameEverywhere(d, d', fixes);
    } else {
      var k :| 0 <= k < |fixes| && BaseDependent(fixes[k]);
      assert !SameField(d, d', fixes[k]);
    }
  }

  /** The base relocations in `relocs` are those of the fixes `gs`, and cover all fixes that need one. */
  ghost predicate Listed(rvas: seq<int>, fixes: seq<Fix>, relocs: seq<BaseReloc>, gs: seq<Fix>)
    requires AllFixOk(rvas, fixes)
  {
    && |gs| == |relocs| && FieldsDisjoint(gs)
    && (forall i :: 0 <= i < |gs| ==>
         gs[i] in fixes && gs[i].section < |rvas| && NeedsBaseReloc(gs[i]) && relocs[i] == BaseRelocOf(rvas, gs[i]))
    && (forall k :: 0 <= k < |fixes| && NeedsBaseReloc(fixes[k]) ==> BaseRelocOf(rvas, fixes[k]) in relocs)
  }

  /** How the bytes of one field at the two bases relate. */
  ghost predicate Agreement(fix: Fix, delta: int, basesAgree: bool, bytes: seq<byte>, bytes': seq<byte>) {
    if NeedsBaseReloc(fix) then Encode(Decode(bytes) + delta, Width(fix.kind)) == bytes'
    else bytes == bytes' <==> (BaseDependent(fix) ==> basesAgree)
  }

  ghost predicate AllAgree(fixes: seq<Fix>, delta: int, basesAgree: bool, ps: seq<Patch>, ps': seq<Patch>)
    requires |ps| == |fixes| == |ps'|
  {
    fixes == [] ||
    (Agreement(fixes[0], delta, basesAgree, ps[0].bytes, ps'[0].bytes)
       && AllAgree(fixes[1..], delta, basesAgree, ps[1..], ps'[1..]))
  }

  lemma {:induction false} AllAgreeIff(fixes: seq<Fix>, delta: int, basesAgree: bool, ps: seq<Patch>, ps': seq<Patch>)
    requires |ps| == |fixes| == |ps'|
    ensures AllAgree(fixes, delta, basesAgree, ps, ps') <==>
      forall k :: 0 <= k < |fixes| ==> Agreement(fixes[k], delta, basesAgree, ps[k].bytes, ps'[k].bytes)
  {
    if fixes != [] {
      AllAgreeIff(fixes[1..], delta, basesAgree, ps[1..], ps'[1..]);
      if AllAgree(fixes[1..], delta, basesAgree, ps[1..], ps'[1..])
        && Agreement(fixes[0], delta, basesAgree, ps[0].bytes, ps'[0].bytes) {
        forall k | 0 <= k < |fixes| ensures Agreement(fixes[k], delta, basesAgree, ps[k].bytes, ps'[k].bytes) {
          if k > 0 {
            assert Agreement(fixes[1..][k - 1], delta, basesAgree, ps[1..][k - 1].bytes, ps'[1..][k - 1].bytes);
          }
        }
      }
    }
  }

  lemma FieldVerdict(fix: Fix, delta: int, basesAgree: bool, linked: Sections, target: Sections, moved: Sections,
          bytes: seq<byte>, bytes': seq<byte>)
    requires InBounds(linked, fix.section, fix.offset, Width(fix.kind)) && SameShape(moved, target)
    requires SameShape(linked, moved)
    requires Field(linked, fix.section, fix.offset, Width(fix.kind)) == bytes
    requires Field(target, fix.section, fix.offset, Width(fix.kind)) == bytes'
    requires Field(moved, fix.section, fix.offset, Width(fix.kind)) == if NeedsBaseReloc(fix)
      then MovePatch(linked, delta, fix).bytes else bytes
    requires Agreement(fix, delta, basesAgree, bytes, bytes')
    ensures SameField(moved, target, fix) <==> (BaseDependent(fix) ==> basesAgree)
  {
    BytesVerdict(fix, delta, basesAgree, bytes, bytes', Field(moved, fix.section, fix.offset, Width(fix.kind)),
      MovePatch(linked, delta, fix).bytes);
  }

  lemma BytesVerdict(fix: Fix, delta: int, basesAgree: bool, bytes: seq<byte>, bytes': seq<byte>, moved: seq<byte>,
          shifted: seq<byte>)
    requires Agreement(fix, delta, basesAgree, bytes, bytes')
    requires shifted == Encode(Decode(bytes) + delta, Width(fix.kind))
    requires moved == if NeedsBaseReloc(fix) then shifted else bytes
    ensures moved == bytes' <==> (BaseDependent(fix) ==> basesAgree)
  {
  }

  lemma FixVerdict(d: Sections, rvas: seq<int>, delta: int, basesAgree: bool, fixes: seq<Fix>, ps: seq<Patch>,
          ps': seq<Patch>, relocs: seq<BaseReloc>, gs: seq<Fix>, k: nat)
    requires Mapped(d, rvas) && AllFixOk(rvas, fixes) && FieldsDisjoint(fixes) && Listed(rvas, fixes, relocs, gs)
    requires k < |fixes|
    requires PatchesFor(d, fixes, ps) && PatchesFor(d, fixes, ps')
    requires Agreement(fixes[k], delta, basesAgree, ps[k].bytes, ps'[k].bytes)
    requires AllInBounds(ApplyAll(d, ps), gs) && AllInBounds(ApplyAll(d, ps), fixes)
    ensures var linked, target := ApplyAll(d, ps), ApplyAll(d, ps');
      SameField(ApplyAll(linked, MovePatches(linked, delta, gs)), target, fixes[k]) <==>
        (BaseDependent(fixes[k]) ==> basesAgree)
  {
    var linked := ApplyAll(d, ps);
    LinkedField(d, fixes, ps, k);
    LinkedField(d, fixes, ps', k);
    MovedFieldOf(linked, rvas, delta, fixes, relocs, gs, k);
    FieldVerdict(fixes[k], delta, basesAgree, linked, ApplyAll(d, ps'),
      ApplyAll(linked, MovePatches(linked, delta, gs)), ps[k].bytes, ps'[k].bytes);
  }

  lemma ImagesAgree(d: Sections, rvas: seq<int>, delta: int, basesAgree: bool, fixes: seq<Fix>, ps: seq<Patch>,
          ps': seq<Patch>, relocs: seq<BaseReloc>, gs: seq<Fix>)
    requires Mapped(d, rvas) && AllFixOk(rvas, fixes) && FieldsDisjoint(fixes) && Listed(rvas, fixes, relocs, gs)
    requires PatchesFor(d, fixes, ps) && PatchesFor(d, fixes, ps') && AllAgree(fixes, delta, basesAgree, ps, ps')
    requires AllInBounds(ApplyAll(d, ps), gs) && AllInBounds(ApplyAll(d, ps), fixes)
    ensures ApplyAll(ApplyAll(d, ps), MovePatches(ApplyAll(d, ps), delta, gs)) == ApplyAll(d, ps') <==>
      (HasBaseDependent(fixes) ==> basesAgree)
  {
    var linked, target := ApplyAll(d, ps), ApplyAll(d, ps');
    var moved := ApplyAll(linked, MovePatches(linked, delta, gs));
    LinkedOutside(d, fixes, ps);
    LinkedOutside(d, fixes, ps');
    MovedOutside(linked, delta, fixes, gs);
    AllAgreeIff(fixes, delta, basesAgree, ps, ps');
    forall k | 0 <= k < |fixes|
      ensures SameField(moved, target, fixes[k]) <==> (BaseDependent(fixes[k]) ==> basesAgree) {
      assert Agreement(fixes[k], delta, basesAgree, ps[k].bytes, ps'[k].bytes);
      FixVerdict(d, rvas, delta, basesAgree, fixes, ps, ps', relocs, gs, k);
    }
    Verdict(moved, target, fixes, basesAgree);
  }

  lemma PatchesAgree(d: Sections, rvas: seq<int>, base: int, base': int, basesAgree: bool, fixes: seq<Fix>)
    requires AllFixOk(rvas, fixes) && FieldsDisjoint(fixes)
    requires basesAgree <==> base % 0x1_0000_0000 == base' % 0x1_0000_0000
    requires AllPatch(d, rvas, base, fixes) && AllPatch(d, rvas, base', fixes)
    ensures PatchesFor(d, fixes, Patches(d, rvas, base, fixes)) && PatchesFor(d, fixes, Patches(d, rvas, base', fixes))
    ensures AllAgree(fixes, base' - base, basesAgree, Patches(d, rvas, base, fixes), Patches(d, rvas, base', fixes))
    ensures AllInBounds(d, fixes)
  {
    FixesInBounds(d, rvas, base, fixes);
    PatchesMatch(d, rvas, base, fixes);
    PatchesMatch(d, rvas, base', fixes);
    var ps, ps' := Patches(d, rvas, base, fixes), Patches(d, rvas, base', fixes);
    forall k | 0 <= k < |fixes| ensures Agreement(fixes[k], base' - base, basesAgree, ps[k].bytes, ps'[k].bytes) {
      OneAgrees(d, rvas, base, base', basesAgree, fixes, k);
    }
    AllAgreeIff(fixes, base' - base, basesAgree, ps, ps');
  }

  lemma PatchesMatch(d: Sections, rvas: seq<int>, base: int, fixes: seq<Fix>)
    requires AllFixOk(rvas, fixes) && FieldsDisjoint(fixes) && AllPatch(d, rvas, base, fixes)
    ensures PatchesFor(d, fixes, Patches(d, rvas, base, fixes))
  {
    PatchesDisjoint(d, rvas, base, fixes);
    forall k | 0 <= k < |fixes| ensures PatchOf(d, rvas, base, fixes[k]).Ok? { }
  }

  lemma OneAgrees(d: Sections, rvas: seq<int>, base: int, base': int, basesAgree: bool, fixes: seq<Fix>, k: nat)
    requires AllFixOk(rvas, fixes) && AllPatch(d, rvas, base, fixes) && AllPatch(d, rvas, base', fixes) && k < |fixes|
    requires basesAgree <==> base % 0x1_0000_0000 == base' % 0x1_0000_0000
    ensures Agreement(fixes[k], base' - base, basesAgree, Patches(d, rvas, base, fixes)[k].bytes,
      Patches(d, rvas, base', fixes)[k].bytes)
  {
    assert PatchOf(d, rvas, base, fixes[k]).Ok? && PatchOf(d, rvas, base', fixes[k]).Ok?;
    FieldAgrees(d, rvas, base, base', fixes[k]);
  }

  lemma FixesInBounds(d: Sections, rvas: seq<int>, base: int, fixes: seq<Fix>)
    requires AllFixOk(rvas, fixes) && AllPatch(d, rvas, base, fixes)
    ensures AllInBounds(d, fixes)
  {
    forall k | 0 <= k < |fixes| ensures InBounds(d, fixes[k].section, fixes[k].offset, Width(fixes[k].kind)) {
      assert PatchOf(d, rvas, base, fixes[k]).Ok?;
    }
  }

  lemma ListedOnce(d: Sections, rvas: seq<int>, fixes: seq<Fix>, relocs: seq<BaseReloc>)
    requires Mapped(d, rvas) && AllFixOk(rvas, fixes) && AllInBounds(d, fixes) && FieldsDisjoint(fixes)
    requires multiset(relocs) == multiset(Emitted(rvas, fixes))
    ensures NoRepeats(relocs) && forall e :: e in relocs <==> e in Emitted(rvas, fixes)
  {
    EmittedOnce(d, rvas, fixes);
    NoRepeatsCount(Emitted(rvas, fixes));
    NoRepeatsCount(relocs);
    forall e ensures e in relocs <==> e in Emitted(rvas, fixes) {
      assert e in relocs <==> e in multiset(relocs);
      assert e in Emitted(rvas, fixes) <==> e in multiset(Emitted(rvas, fixes));
    }
  }

  /**
   Linking at `base` and moving to `base'` gives the bytes of linking at `base'` if and only if no
   REL32 targets an absolute symbol and no SECREL targets the image base, or the bases agree in
   their low 32 bits. Both links succeed, fields are disjoint, and `relocs` are the emitted base
   relocations in any order.
   */
  lemma RebaseEquivalence(d: Sections, rvas: seq<int>, base: int, base': int, delta: int, basesAgree: bool,
          fixes: seq<Fix>, relocs: seq<BaseReloc>, linked: Sections, target: Sections)
    returns (moved: Sections)
    requires Mapped(d, rvas) && AllFixOk(rvas, fixes) && FieldsDisjoint(fixes)
    requires Relocated(d, rvas, base, fixes) == Ok(linked) && Relocated(d, rvas, base', fixes) == Ok(target)
    requires multiset(relocs) == multiset(Emitted(rvas, fixes))
    requires basesAgree <==> base % 0x1_0000_0000 == base' % 0x1_0000_0000
    requires delta == base' - base
    ensures SameShape(d, linked) && Rebased(linked, rvas, delta, relocs) == Ok(moved)
    ensures moved == target <==> (HasBaseDependent(fixes) ==> basesAgree)
  {
    var ps, ps' := LinkPatches(d, rvas, base, base', basesAgree, delta, fixes, linked, target);
    moved := PatchedEquivalence(d, rvas, delta, basesAgree, fixes, ps, ps', relocs, linked, target);
  }

  /** The patches behind two links. */
  lemma LinkPatches(d: Sections, rvas: seq<int>, base: int, base': int, basesAgree: bool, delta: int, fixes: seq<Fix>,
          linked: Sections, target: Sections)
    returns (ps: seq<Patch>, ps': seq<Patch>)
    requires AllFixOk(rvas, fixes) && FieldsDisjoint(fixes)
    requires basesAgree <==> base % 0x1_0000_0000 == base' % 0x1_0000_0000
    requires Relocated(d, rvas, base, fixes) == Ok(linked) && Relocated(d, rvas, base', fixes) == Ok(target)
    requires delta == base' - base
    ensures PatchesFor(d, fixes, ps) && PatchesFor(d, fixes, ps') && AllAgree(fixes, delta, basesAgree, ps, ps')
    ensures linked == ApplyAll(d, ps) && target == ApplyAll(d, ps')
    ensures AllInBounds(d, fixes)
  {
    RelocatedIsPatched(d, rvas, base, fixes);
    RelocatedIsPatched(d, rvas, base', fixes);
    PatchesAgree(d, rvas, base, base', basesAgree, fixes);
    ps, ps' := Patches(d, rvas, base, fixes), Patches(d, rvas, base', fixes);
  }

  lemma PatchedEquivalence(d: Sections, rvas: seq<int>, delta: int, basesAgree: bool, fixes: seq<Fix>, ps: seq<Patch>,
          ps': seq<Patch>, relocs: seq<BaseReloc>, linked: Sections, target: Sections)
    returns (moved: Sections)
    requires Mapped(d, rvas) && AllFixOk(rvas, fixes) && FieldsDisjoint(fixes) && AllInBounds(d, fixes)
    requires PatchesFor(d, fixes, ps) && PatchesFor(d, fixes, ps') && AllAgree(fixes, delta, basesAgree, ps, ps')
    requires multiset(relocs) == multiset(Emitted(rvas, fixes))
    requires linked == ApplyAll(d, ps) && target == ApplyAll(d, ps')
    ensures SameShape(d, linked) && Rebased(linked, rvas, delta, relocs) == Ok(moved)
    ensures moved == target <==> (HasBaseDependent(fixes) ==> basesAgree)
  {
    var gs := FixesListed(d, linked, rvas, fixes, relocs);
    RebasedIsMoved(linked, rvas, delta, relocs, gs);
    ImagesAgree(d, rvas, delta, basesAgree, fixes, ps, ps', relocs, gs);
    moved := ApplyAll(linked, MovePatches(linked, delta, gs));
  }

  lemma FixesListed(d: Sections, linked: Sections, rvas: seq<int>, fixes: seq<Fix>, relocs: seq<BaseReloc>)
    returns (gs: seq<Fix>)
    requires Mapped(d, rvas) && AllFixOk(rvas, fixes) && AllInBounds(d, fixes) && FieldsDisjoint(fixes)
    requires SameShape(d, linked)
    requires multiset(relocs) == multiset(Emitted(rvas, fixes))
    ensures Listed(rvas, fixes, relocs, gs) && AllInBounds(linked, gs) && AllInBounds(linked, fixes)
  {
    ListedOnce(d, rvas, fixes, relocs);
    gs := FixesBehind(rvas, fixes, relocs);
    BehindDisjoint(rvas, fixes, relocs, gs);
    forall k | 0 <= k < |fixes| && NeedsBaseReloc(fixes[k]) ensures BaseRelocOf(rvas, fixes[k]) in relocs {
      EmittedFrom(rvas, fixes, BaseRelocOf(rvas, fixes[k]));
    }
  }
}
