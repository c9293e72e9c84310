/**
 Rebase equivalence of a link: section RVAs, relocation, base relocations and .pdata of one link
 at two bases, against what the loader makes of the first image.
 */
module LinkRebase {
  import opened Basics
  import opened Coff
  import opened Fields
  import opened Layout
  import opened BaseRelocs
  import opened Relocate
  import opened Rebase
  import opened RebaseImage
  import opened Outputs
  import opened Arrange
  import Align
  import Bytes
  import opened ImageLayout
  import opened ReferenceSafety
  import opened LinkedImage
  import opened RelocReservation

  // ---------- section RVAs ----------

  /** What each output occupies in the image. */
  function Extents(outs: seq<Out>): seq<int> {
    seq(|outs|, k requires 0 <= k < |outs| =>
      if outs[k].virtualSize > |outs[k].data| then outs[k].virtualSize else |outs[k].data|)
  }

  /** These are the RVAs that the linker assigns to the outputs, and the image stays below 4 GiB. */
  ghost predicate Assigned(outs: seq<Out>, rvas: seq<int>, alignment: int) {
    && RvasFit(Extents(outs), alignment) && |rvas| == |outs|
    && forall k :: 0 <= k < |outs| ==> rvas[k] == RvaOf(Extents(outs), alignment, k)
  }

  /** Neither the image bytes nor the file bytes of an output reach beyond `end`. */
  ghost predicate Within(out: Out, rva: int, end: int) {
    rva + out.virtualSize <= end && rva + |out.data| <= end
  }

  /**
   The first output of an image is one alignment unit up, and each other at the first multiple of
   the alignment that its predecessor does not reach beyond.
   */
  lemma OutputsTight(outs: seq<Out>, rvas: seq<int>, alignment: int, k: nat)
    requires Assigned(outs, rvas, alignment) && k < |outs|
    ensures rvas[k] % alignment == 0 && (k == 0 ==> rvas[k] == alignment)
    ensures k > 0 ==>
      Within(outs[k - 1], rvas[k - 1], rvas[k]) && !Within(outs[k - 1], rvas[k - 1], rvas[k] - alignment)
  {
    var extents := Extents(outs);
    if k > 0 {
      Align.NextMultipleBounds(rvas[k - 1] + extents[k - 1], alignment);
    } else {
      Bytes.ModUnique(alignment, alignment, 1, 0);
    }
  }

  /** Sections no longer than their outputs are mapped at the assigned RVAs. */
  lemma AssignedMapped(outs: seq<Out>, rvas: seq<int>, alignment: int, d: Sections)
    requires Assigned(outs, rvas, alignment) && |d| == |outs| && forall k :: 0 <= k < |d| ==> |d[k]| <= Extents(outs)[k]
    ensures Mapped(d, rvas)
  {
    forall k | 0 <= k < |d| ensures 0 <= rvas[k] && rvas[k] + |d[k]| <= 0x1_0000_0000 {
      RvaPositive(Extents(outs), alignment, k);
    }
    forall i, j | 0 <= i < j < |d| ensures rvas[i] + |d[i]| <= rvas[j] { RvasDisjoint(Extents(outs), alignment, i, j); }
  }

  // ---------- the outputs that are rewritten after relocation ----------

  /** The output that a search by name finds. */
  function Index(outs: seq<Out>, name: string): Option<nat> {
    if Find(outs, name) < |outs| then Some(Find(outs, name)) else None
  }

  lemma {:induction false} SectionFixHome(l: Link, r: Ref, n: nat, fix: Fix)
    requires Exists(l.c.x.objects, r) && r in l.placements && n <= |At(l.c.x.objects, r).relocations|
    requires SectionFixes(l, r, n).Ok? && fix in SectionFixes(l, r, n).value
    ensures fix.section == l.placements[r].output
  {
    if fix !in SectionFixes(l, r, n - 1).value {
      assert fix == FixOf(l, r, n - 1).value;
    } else {
      SectionFixHome(l, r, n - 1, fix);
    }
  }

  /** Every fix patches the output of a section with an address. */
  lemma {:induction false} FixHome(l: Link, refs: seq<Ref>, fix: Fix) returns (r: Ref)
    requires FixesOf(l, refs).Ok? && fix in FixesOf(l, refs).value
    ensures r in l.placements && fix.section == l.placements[r].output
  {
    var front, last := refs[..|refs| - 1], refs[|refs| - 1];
    if fix in FixesOf(l, front).value {
      r := FixHome(l, front, fix);
    } else {
      r := last;
      SectionFixHome(l, r, |At(l.c.x.objects, r).relocations|, fix);
    }
  }

  /** Nothing is relocated in the reserved output. */
  lemma ReserveUntouched(l: Link, rvas: seq<int>, fix: Fix)
    requires Resolvable(l, rvas) && !Contributed(l.c.x.objects, Placed(l.c), ".reloc")
    requires Find(l.outs, ".reloc") < |l.outs|
    requires fix in AllFixes(l, rvas)
    ensures fix.section != Find(l.outs, ".reloc")
  {
    var r := FixHome(l, AllRefs(l.c.x.objects), fix);
    PlacementsExact(l, r);
    PlacementInside(l, r);
    OtherName(l, r);
  }

  lemma OtherName(l: Link, r: Ref)
    requires HasRoom(l.c, l.e, r) && !Contributed(l.c.x.objects, Placed(l.c), ".reloc")
    ensures OutputName(l.c.x.objects, r) != ".reloc"
  {
    assert ".reloc"[1] == 'r' && ".bss"[1] == 'b' && ".text"[1] == 't' && ".idata"[1] == 'i';
  }

  /** No field of the output called `name` moves with the base. */
  ghost predicate Steady(l: Link, rvas: seq<int>, name: string)
    requires Resolvable(l, rvas)
  {
    OutputBaseFree(AllFixes(l, rvas), Index(l.outs, name))
  }

  lemma RelocSteady(l: Link, rvas: seq<int>)
    requires Resolvable(l, rvas) && (Contributed(l.c.x.objects, Placed(l.c), ".reloc") ==> Steady(l, rvas, ".reloc"))
    ensures Steady(l, rvas, ".reloc")
  {
    if !Contributed(l.c.x.objects, Placed(l.c), ".reloc") && Find(l.outs, ".reloc") < |l.outs| {
      forall fix | fix in AllFixes(l, rvas) ensures fix.section != Find(l.outs, ".reloc") {
        ReserveUntouched(l, rvas, fix);
      }
      NoneIsFree(AllFixes(l, rvas), Find(l.outs, ".reloc"));
    }
  }

  lemma NoneIsFree(fixes: seq<Fix>, section: nat)
    requires forall fix :: fix in fixes ==> fix.section != section
    ensures BaseFree(fixes, section)
  {
  }

  /** The bytes of the outputs when relocation begins: import tables and thunk displacements may be filled in. */
  ghost predicate Filled(l: Link, d: Sections) {
    SameShape(Datas(l.outs), d)
  }

  /** A payload that was stored leaves the image mapped. */
  lemma PayloadMapped(outs: seq<Out>, rvas: seq<int>, alignment: int, relocs: seq<BaseReloc>, d: Sections)
    requires Assigned(outs, rvas, alignment) && Stores(outs, relocs) && SameShape(Datas(outs), d)
    ensures Mapped(d, rvas) && Mapped(WithPayload(d, Index(outs, ".reloc"), RelocSection(relocs)), rvas)
  {
    assert forall k :: 0 <= k < |outs| ==> |Datas(outs)[k]| == |outs[k].data|;
    AssignedMapped(outs, rvas, alignment, d);
    if relocs == [] { NoPayload(); }
    AssignedMapped(outs, rvas, alignment, WithPayload(d, Index(outs, ".reloc"), RelocSection(relocs)));
  }

  lemma NoPayload()
    ensures RelocSection([]) == []
  {
    assert SortRelocs([]) == [];
  }

  // ---------- the finished link ----------

  /** The sections of the image that link makes of bytes `d` at `base`. */
  ghost function LinkedAt(l: Link, rvas: seq<int>, d: Sections, base: int): Result<Sections>
    requires Resolvable(l, rvas)
  {
    Linked(d, rvas, base, AllFixes(l, rvas), Index(l.outs, ".reloc"), Index(l.outs, ".pdata"))
  }

  lemma FewEmitted(l: Link, rvas: seq<int>)
    requires Resolvable(l, rvas)
    ensures 12 * |Emitted(rvas, AllFixes(l, rvas))| < 0x1_0000_0000
  {
    OnlyPlaced(l);
    Room12(l);
    FixesCount(l, AllRefs(l.c.x.objects));
    EmittedCount(rvas, AllFixes(l, rvas));
  }

  /**
   A link at `base`, moved by the loader with the relocations it reads from the image, against the
   same link at `base'`: they are equal if and only if no REL32 targets an absolute symbol and no
   SECREL the image base, or the bases agree in their low 32 bits.
   */
  lemma LinkRebase(l: Link, rvas: seq<int>, alignment: int, d: Sections, base: int, base': int, delta: int,
          basesAgree: bool, image: Sections, image': Sections)
    returns (final: Sections)
    requires Resolvable(l, rvas) && Assigned(l.outs, rvas, alignment) && Filled(l, d)
    requires FieldsDisjoint(AllFixes(l, rvas))
    requires Contributed(l.c.x.objects, Placed(l.c), ".reloc") ==> Steady(l, rvas, ".reloc")
    requires Steady(l, rvas, ".pdata") && Stores(l.outs, Emitted(rvas, AllFixes(l, rvas)))
    requires LinkedAt(l, rvas, d, base) == Ok(image) && LinkedAt(l, rvas, d, base') == Ok(image')
    requires delta == base' - base && (basesAgree <==> base % 0x1_0000_0000 == base' % 0x1_0000_0000)
    ensures LoadedRelocs(rvas, AllFixes(l, rvas)).Some? && |image| == |rvas|
    ensures Rebased(image, rvas, delta, LoadedRelocs(rvas, AllFixes(l, rvas)).value) == Ok(final)
    ensures final == image' <==> (HasBaseDependent(AllFixes(l, rvas)) ==> basesAgree)
  {
    var fixes := AllFixes(l, rvas);
    RelocSteady(l, rvas);
    FewEmitted(l, rvas);
    PayloadMapped(l.outs, rvas, alignment, Emitted(rvas, fixes), d);
    final := ImageRebase(d, rvas, base, base', delta, basesAgree, fixes, Index(l.outs, ".reloc"),
      Index(l.outs, ".pdata"), image, image');
  }

  // ---------- the phases after symbols ----------

  /** The outputs with relocated bytes. */
  function WithDatas(outs: seq<Out>, d: Sections): (r: seq<Out>)
    requires |d| == |outs|
    ensures Datas(r) == d && |r| == |outs|
    ensures forall k :: 0 <= k < |outs| ==> r[k].name == outs[k].name && r[k].virtualSize == outs[k].virtualSize
  {
    seq(|outs|, k requires 0 <= k < |outs| => outs[k].(data := d[k]))
  }

  lemma SameNames(outs: seq<Out>, r: seq<Out>, name: string)
    requires |r| == |outs| && forall k :: 0 <= k < |outs| ==> r[k].name == outs[k].name
    ensures Find(r, name) == Find(outs, name)
  {
  }

  /** Relocation keeps the number of sections. */
  lemma {:induction false} RelocatedShape(d: Sections, rvas: seq<int>, base: int, fixes: seq<Fix>)
    requires AllFixOk(rvas, fixes)
    ensures Relocated(d, rvas, base, fixes).Ok? ==> |Relocated(d, rvas, base, fixes).value| == |d|
    decreases |fixes|
  {
    if fixes != [] {
      var p := PatchOf(d, rvas, base, fixes[0]);
      if p.Ok? { RelocatedShape(Apply(d, p.value), rvas, base, fixes[1..]); }
    }
  }

  lemma StoredIsPayload(outs: seq<Out>, stored: seq<Out>, relocs: seq<BaseReloc>)
    requires Stores(outs, relocs)
    requires stored == if relocs == [] then outs
      else outs[Find(outs, ".reloc") := outs[Find(outs, ".reloc")].(data := RelocSection(relocs))]
    ensures Datas(stored) == WithPayload(Datas(outs), Index(outs, ".reloc"), RelocSection(relocs))
  {
    if relocs == [] { NoPayload(); } else { AtLeastOneBlock(relocs); }
  }

  /** The image after base relocations are stored and runtime functions sorted. */
  ghost function Rewritten(outs: seq<Out>, relocs: seq<BaseReloc>): Result<Sections> {
    FinishPdata(WithPayload(Datas(outs), Index(outs, ".reloc"), RelocSection(relocs)), Index(outs, ".pdata"))
  }

  /** The phases that rewrite whole outputs. */
  method Rewrite(outs: seq<Out>, relocs: seq<BaseReloc>) returns (r: Result<Sections>)
    ensures r.Ok? <==> Stores(outs, relocs) && Rewritten(outs, relocs).Ok?
    ensures r.Ok? ==> r == Rewritten(outs, relocs)
  {
    var stored := StoreBaseRelocs(outs, relocs);
    if stored.Err? { return Err(stored.message); }
    StoredIsPayload(outs, stored.value, relocs);
    r := FinishPdata(Datas(stored.value), Index(outs, ".pdata"));
  }

  lemma RewrittenIs(l: Link, rvas: seq<int>, d: Sections, base: int, outs: seq<Out>, relocs: seq<BaseReloc>)
    requires Resolvable(l, rvas) && relocs == Emitted(rvas, AllFixes(l, rvas)) && |outs| == |l.outs|
    requires Relocated(d, rvas, base, AllFixes(l, rvas)) == Ok(Datas(outs))
    requires forall k :: 0 <= k < |outs| ==>
      outs[k].name == l.outs[k].name && outs[k].virtualSize == l.outs[k].virtualSize
    ensures LinkedAt(l, rvas, d, base) == Rewritten(outs, relocs) && (Stores(outs, relocs) <==> Stores(l.outs, relocs))
  {
    SameNames(l.outs, outs, ".reloc");
    SameNames(l.outs, outs, ".pdata");
    var fixes := AllFixes(l, rvas);
    assert Rewritten(outs, relocs) == Linked(d, rvas, base, fixes, Index(l.outs, ".reloc"),
      Index(l.outs, ".pdata"));
    StoresAlike(l.outs, outs, relocs);
  }

  lemma StoresAlike(outs: seq<Out>, r: seq<Out>, relocs: seq<BaseReloc>)
    requires |r| == |outs| && Find(r, ".reloc") == Find(outs, ".reloc")
    requires forall k :: 0 <= k < |outs| ==> r[k].virtualSize == outs[k].virtualSize
    ensures Stores(r, relocs) <==> Stores(outs, relocs)
  {
  }

  /** The RVA phase of link. */
  method AssignAll(l: Link, alignment: nat) returns (rvas: seq<int>)
    ensures |rvas| == |l.outs| && (RvasFit(Extents(l.outs), alignment) ==> Assigned(l.outs, rvas, alignment))
  {
    rvas := AssignRvas(Extents(l.outs), alignment);
  }

  /** From relocation to .pdata: relocate, store the base relocations, sort the runtime functions. */
  method FinishLink(l: Link, rvas: seq<int>, d: Sections, base: int) returns (r: Result<Sections>)
    requires LinkOk(l) && ReferenceSafety.Fits(l.c, l.e) && ExtraInside(l) && |rvas| == |l.outs| && Filled(l, d)
    ensures r.Ok? <==>
      Resolvable(l, rvas) && Stores(l.outs, Emitted(rvas, AllFixes(l, rvas))) && LinkedAt(l, rvas, d, base).Ok?
    ensures r.Ok? ==> r == LinkedAt(l, rvas, d, base)
  {
    var fixes := ResolveAll(l);
    if fixes.Err? { return Err(fixes.message); }
    r := RelocateAndRewrite(l, rvas, d, base, fixes.value);
  }

  method RelocateAndRewrite(l: Link, rvas: seq<int>, d: Sections, base: int, fixes: seq<Fix>)
    returns (r: Result<Sections>)
    requires Resolvable(l, rvas) && fixes == AllFixes(l, rvas) && Filled(l, d)
    ensures r.Ok? <==> Stores(l.outs, Emitted(rvas, fixes)) && LinkedAt(l, rvas, d, base).Ok?
    ensures r.Ok? ==> r == LinkedAt(l, rvas, d, base)
  {
    var relocated := ApplyRelocations(d, rvas, base, fixes);
    if relocated.Err? { return Err(relocated.message); }
    RelocatedShape(d, rvas, base, fixes);
    var outs := WithDatas(l.outs, relocated.value.0);
    RewrittenIs(l, rvas, d, base, outs, relocated.value.1);
    r := Rewrite(outs, relocated.value.1);
  }
}
