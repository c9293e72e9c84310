/**
 Storing the base relocations: the payload goes to the first output called .reloc, which is the
 reserved one only when the input contributes none.
 */
module RelocReservation {
  import opened Basics
  import opened Coff
  import opened BaseRelocs
  import opened Relocate
  import opened RebaseImage
  import opened Outputs
  import opened Arrange
  import opened ImageLayout
  import opened ReferenceSafety
  import opened LinkedImage
  import Sorting

  /** The payload fits the output that a search for .reloc finds. */
  ghost predicate Stores(outs: seq<Out>, relocs: seq<BaseReloc>) {
    relocs != [] ==> Find(outs, ".reloc") < |outs| && |RelocSection(relocs)| <= outs[Find(outs, ".reloc")].virtualSize
  }

  /** The base-relocation phase of link on the relocated outputs. */
  method StoreBaseRelocs(outs: seq<Out>, relocs: seq<BaseReloc>) returns (r: Result<seq<Out>>)
    ensures r.Ok? <==> Stores(outs, relocs)
    ensures r.Ok? ==>
      r.value == if relocs == [] then outs
        else outs[Find(outs, ".reloc") := outs[Find(outs, ".reloc")].(data := RelocSection(relocs))]
  {
    if relocs == [] { return Ok(outs); }
    var k := Find(outs, ".reloc");
    if k == |outs| { return Err("internal error: missing reserved .reloc section"); }
    var payload := WritePayload(SlotsOf(SortRelocs(relocs)));
    if |payload| > outs[k].virtualSize { return Err("internal error: base-relocation reservation was too small"); }
    r := Ok(outs[k := outs[k].(data := payload)]);
  }

  /** Base relocations take at least one block. */
  lemma AtLeastOneBlock(relocs: seq<BaseReloc>)
    requires relocs != []
    ensures |RelocSection(relocs)| >= 12
  {
    RelocOrder();
    Sorting.SortIsSorted(relocs, (a: BaseReloc, b: BaseReloc) => RelocLess(a, b));
    var slots := SlotsOf(SortRelocs(relocs));
    assert slots != [];
    BlockBound(FirstRun(slots));
  }

  // ---------- how many relocations are reserved for ----------

  lemma CountOne(fixes: seq<Fix>, fix: Fix)
    ensures AbsoluteCount(fixes + [fix]) == AbsoluteCount(fixes) + if fix.kind == RelAddr64 || fix.kind == RelAddr32
      then 1 else 0
  {
    assert (fixes + [fix])[..|fixes|] == fixes;
  }

  lemma {:induction false} SectionCount(l: Link, r: Ref, n: nat)
    requires Exists(l.c.x.objects, r) && r in l.placements && n <= |At(l.c.x.objects, r).relocations|
    requires SectionFixes(l, r, n).Ok?
    ensures AbsoluteCount(SectionFixes(l, r, n).value) == CountIn(At(l.c.x.objects, r).relocations[..n])
  {
    if n > 0 {
      SectionCount(l, r, n - 1);
      var relocations := At(l.c.x.objects, r).relocations;
      assert relocations[..n][..n - 1] == relocations[..n - 1];
      CountOne(SectionFixes(l, r, n - 1).value, FixOf(l, r, n - 1).value);
    }
  }

  lemma {:induction false} CountJoin(a: seq<Fix>, b: seq<Fix>)
    ensures AbsoluteCount(a + b) == AbsoluteCount(a) + AbsoluteCount(b)
  {
    if b == [] {
      assert a + b == a;
    } else {
      CountJoin(a, b[..|b| - 1]);
      assert (a + b)[..|a + b| - 1] == a + b[..|b| - 1];
    }
  }

  /** The fixes need no more base relocations than were counted before targets were known. */
  lemma {:induction false} FixesCount(l: Link, refs: seq<Ref>)
    requires FixesOf(l, refs).Ok? && forall r :: r in l.placements ==> IsPlaced(l.c, r)
    ensures AbsoluteCount(FixesOf(l, refs).value) <= CountAbsolute(l.c.x.objects, Placed(l.c), refs)
  {
    if refs != [] {
      var front, last := refs[..|refs| - 1], refs[|refs| - 1];
      FixesCount(l, front);
      if last in l.placements && Exists(l.c.x.objects, last) {
        var relocations := At(l.c.x.objects, last).relocations;
        SectionCount(l, last, |relocations|);
        assert relocations[..|relocations|] == relocations;
        CountJoin(FixesOf(l, front).value, SectionFixes(l, last, |relocations|).value);
      }
    }
  }

  // ---------- when the payload does not fit ----------

  /** The input contributes a .reloc of its own, and the base relocations of the image need more room than it has. */
  ghost predicate Displaced(c: Choice, relocs: seq<BaseReloc>) {
    relocs != [] && Contributed(c.x.objects, Placed(c), ".reloc")
      && Extent(c.x.objects, Placed(c), ".reloc") < |RelocSection(relocs)|
  }

  /** The relocations found in an image. */
  ghost predicate EmittedBy(l: Link, rvas: seq<int>, relocs: seq<BaseReloc>) {
    Resolvable(l, rvas) && relocs == Emitted(rvas, AllFixes(l, rvas))
  }

  lemma ReserveHolds(l: Link, rvas: seq<int>, relocs: seq<BaseReloc>)
    requires (forall r :: r in l.placements ==> IsPlaced(l.c, r)) && EmittedBy(l, rvas, relocs)
    requires 12 * Absolutes(l.c.x.objects, Placed(l.c)) < 0x1_0000_0000
    ensures |RelocSection(relocs)| <= 12 * Absolutes(l.c.x.objects, Placed(l.c))
    ensures relocs != [] ==> Absolutes(l.c.x.objects, Placed(l.c)) > 0
  {
    var fixes := AllFixes(l, rvas);
    FixesCount(l, AllRefs(l.c.x.objects));
    PayloadInReserve(rvas, fixes);
    EmittedCount(rvas, fixes);
  }

  lemma RelocFound(l: Link)
    requires LinkOk(l) && ReferenceSafety.Fits(l.c, l.e) && Absolutes(l.c.x.objects, Placed(l.c)) > 0
    ensures RelocOutput(l.c.x.objects, Placed(l.c), l.outs)
    ensures 12 * Absolutes(l.c.x.objects, Placed(l.c)) < 0x1_0000_0000
  {
  }

  lemma OnlyPlaced(l: Link)
    requires LinkOk(l)
    ensures forall r :: r in l.placements ==> IsPlaced(l.c, r)
  {
  }

  /**
   The reservation error is reached if and only if the input contributes a .reloc of its own whose
   extent is too small for the payload; the reserved output itself is always large enough.
   */
  lemma StoresUnlessDisplaced(l: Link, rvas: seq<int>, relocs: seq<BaseReloc>)
    requires EmittedBy(l, rvas, relocs) && ExtentFits(l.c.x.objects, Placed(l.c), ".reloc")
    ensures Stores(l.outs, relocs) <==> !Displaced(l.c, relocs)
  {
    OnlyPlaced(l);
    if relocs != [] {
      if Absolutes(l.c.x.objects, Placed(l.c)) > 0 { RelocFound(l); }
      Room12(l);
      ReserveHolds(l, rvas, relocs);
    }
  }

  lemma Room12(l: Link)
    requires ExtrasOk(l.e) && ReferenceSafety.Fits(l.c, l.e)
    ensures 12 * Absolutes(l.c.x.objects, Placed(l.c)) < 0x1_0000_0000
  {
  }
}
