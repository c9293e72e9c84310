/** An input that reaches the reservation error: its own four-byte .reloc is found before the reserved one. */
module DisplacedReloc {
  import opened Basics
  import opened Coff
  import opened Targets
  import opened Liveness
  import opened Symbols
  import opened BaseRelocs
  import opened Relocate
  import opened Outputs
  import opened Arrange
  import opened ImageLayout
  import opened ReferenceSafety
  import opened LinkedImage
  import opened RelocReservation
  import Comdat

  const Pointer := Section(".text", [0, 0, 0, 0, 0, 0, 0, 0], 0, 0, [Relocation(0, 0, 1)], 0, 0, 0, "")
  const OwnReloc := Section(".reloc", [1, 2, 3, 4], 0, 0, [], 0, 0, 0, "")

  /** A pointer to itself, and a section that is called .reloc. */
  function PointerAndReloc(): seq<Object> {
    [Object([Pointer, OwnReloc], [Symbol("s", 0, 1, ExternalClass, 0)])]
  }

  function NoExtras(): Extras {
    Extras([], [], 0)
  }

  ghost predicate ChoosesBoth(c: Choice) {
    Chosen(c) && c.x == Input(PointerAndReloc(), Some(c.kept), map[], "", [])
  }

  lemma SectionsHere(r: Ref)
    requires Exists(PointerAndReloc(), r)
    ensures r == Ref(0, 0) || r == Ref(0, 1)
    ensures !IsComdat(At(PointerAndReloc(), r)) && !LinkerDiscarded(At(PointerAndReloc(), r))
    ensures !(".idata$2" <= At(PointerAndReloc(), r).name)
  {
    var name := At(PointerAndReloc(), r).name;
    assert name[1] != 'd' && name[1] != 'i' && ".debug"[1] == 'd' && ".drectve"[1] == 'd' && ".idata$2"[1] == 'i';
  }

  lemma RefsHere()
    ensures AllRefs(PointerAndReloc()) == [Ref(0, 0), Ref(0, 1)]
    ensures AllExist(PointerAndReloc(), AllRefs(PointerAndReloc()))
  {
    var objects := PointerAndReloc();
    assert RefsUpTo(objects, 1) == RefsUpTo(objects, 0) + [Ref(0, 0), Ref(0, 1)];
  }

  lemma SelectableHere()
    ensures Selectable(PointerAndReloc())
  {
    var objects, refs := PointerAndReloc(), AllRefs(PointerAndReloc());
    RefsHere();
    forall name ensures Comdat.Resolvable(objects, Comdat.Group(objects, refs, name)) {
      assert refs[..1] == [Ref(0, 0)] && refs[..1][..0] == [];
      assert Comdat.Group(objects, [], name) == [] && Comdat.Group(objects, refs[..1], name) == [];
    }
  }

  lemma BothPlaced(c: Choice, r: Ref)
    requires ChoosesBoth(c)
    ensures r in Placed(c) <==> r == Ref(0, 0) || r == Ref(0, 1)
  {
    SectionsHere(Ref(0, 0));
    SectionsHere(Ref(0, 1));
    if Exists(c.x.objects, r) { SectionsHere(r); }
  }

  lemma NamesHere()
    ensures OutputName(PointerAndReloc(), Ref(0, 0)) == ".text" && OutputName(PointerAndReloc(), Ref(0, 1)) == ".reloc"
  {
    TextName();
    RelocName();
  }

  lemma TextName()
    ensures Canonical(".text") == ".text"
  {
    StemOf(".text", "");
    assert ".text" + "" == ".text";
  }

  lemma RelocName()
    ensures Canonical(".reloc") == ".reloc"
  {
    StemOf(".reloc", "");
    assert ".reloc" + "" == ".reloc";
    var s := ".reloc";
    assert s[1] == 'r' && s[2] == 'e' && ".rdata"[2] == 'd' && ".text"[1] == 't';
    assert ".data"[1] == 'd' && ".bss"[1] == 'b' && ".tls"[1] == 't' && ".idata"[1] == 'i';
  }

  /** Each output holds at most one of the two sections. */
  lemma ExtentsHere(c: Choice, name: string, r: Ref)
    requires ChoosesBoth(c) && (if name == ".reloc" then r == Ref(0, 1) else r == Ref(0, 0))
    ensures ExtentFits(PointerAndReloc(), Placed(c), name)
    ensures Extent(PointerAndReloc(), Placed(c), name) == if name == ".text" then 8
      else if name == ".reloc" then 4 else 0
  {
    NamesHere();
    forall q | q in PlacedIn(PointerAndReloc(), Placed(c), name) ensures q == r { BothPlaced(c, q); }
    BothPlaced(c, r);
    OneSection(PointerAndReloc(), Placed(c), name, r);
  }

  lemma OneAbsolute(c: Choice)
    requires ChoosesBoth(c)
    ensures Absolutes(PointerAndReloc(), Placed(c)) == 1
  {
    var objects, refs, placed := PointerAndReloc(), AllRefs(PointerAndReloc()), Placed(c);
    RefsHere();
    BothPlaced(c, Ref(0, 0));
    assert [Relocation(0, 0, 1)][..0] == [] && CountIn([]) == 0 && CountIn([Relocation(0, 0, 1)]) == 1;
    assert refs[..1] == [Ref(0, 0)] && refs[..1][..0] == [];
    assert CountAbsolute(objects, placed, []) == 0;
    assert CountAbsolute(objects, placed, refs[..1]) == 1;
  }

  lemma FitsHere(c: Choice)
    requires ChoosesBoth(c)
    ensures ReferenceSafety.Fits(c, NoExtras())
  {
    ExtentsHere(c, ".bss", Ref(0, 0));
    ExtentsHere(c, ".text", Ref(0, 0));
    ExtentsHere(c, ".idata", Ref(0, 0));
    OneAbsolute(c);
  }

  lemma OccupiedHere(c: Choice)
    requires ChoosesBoth(c)
    ensures Contributed(PointerAndReloc(), Placed(c), ".text") && Contributed(PointerAndReloc(), Placed(c), ".reloc")
  {
    NamesHere();
    BothPlaced(c, Ref(0, 0));
    BothPlaced(c, Ref(0, 1));
    assert LogicalSize(At(PointerAndReloc(), Ref(0, 0))) == 8 && LogicalSize(At(PointerAndReloc(), Ref(0, 1))) == 4;
  }

  /** Both sections have addresses, so the pointer becomes the only fix. */
  lemma OneFix(l: Link)
    requires LinkOk(l) && ChoosesBoth(l.c) && l.e == NoExtras()
    ensures Fixes(l).Ok? && |Fixes(l).value| == 1 && Fixes(l).value[0].kind == RelAddr64
    ensures Fixes(l).value[0].target.SectionTarget?
  {
    FitsHere(l.c);
    OccupiedHere(l.c);
    NamesHere();
    BothPlaced(l.c, Ref(0, 0));
    BothPlaced(l.c, Ref(0, 1));
    PlacementsExact(l, Ref(0, 0));
    PlacementsExact(l, Ref(0, 1));
    ListFixes(l);
  }

  lemma ListFixes(l: Link)
    requires l.c.x.objects == PointerAndReloc() && Ref(0, 0) in l.placements && Ref(0, 1) in l.placements
    ensures Fixes(l).Ok? && |Fixes(l).value| == 1 && Fixes(l).value[0].kind == RelAddr64
    ensures Fixes(l).value[0].target.SectionTarget?
  {
    var refs := AllRefs(PointerAndReloc());
    RefsHere();
    assert refs[..1] == [Ref(0, 0)] && refs[..1][..0] == [];
    PointerFix(l);
    assert SectionFixes(l, Ref(0, 1), 0) == Ok([]) && FixesOf(l, []) == Ok([]);
    var fix := FixOf(l, Ref(0, 0), 0).value;
    assert [] + [fix] == [fix] && [fix] + [] == [fix];
    assert FixesOf(l, refs[..1]) == Ok([fix]);
  }

  lemma PointerFix(l: Link)
    requires l.c.x.objects == PointerAndReloc() && Ref(0, 0) in l.placements
    ensures FixOf(l, Ref(0, 0), 0).Ok? && SectionFixes(l, Ref(0, 0), 1) == Ok([FixOf(l, Ref(0, 0), 0).value])
    ensures FixOf(l, Ref(0, 0), 0).value.kind == RelAddr64 && FixOf(l, Ref(0, 0), 0).value.target.SectionTarget?
  {
    var fix := FixOf(l, Ref(0, 0), 0).value;
    assert At(PointerAndReloc(), Ref(0, 0)).relocations == [Relocation(0, 0, 1)];
    assert SectionFixes(l, Ref(0, 0), 0) == Ok([]);
    assert [] + [fix] == [fix];
  }

  lemma OneRelocation(rvas: seq<int>, fixes: seq<Fix>)
    requires AllFixOk(rvas, fixes) && |fixes| == 1 && NeedsBaseReloc(fixes[0])
    ensures Emitted(rvas, fixes) != []
  {
  }

  lemma PayloadTooLarge(l: Link, rvas: seq<int>, relocs: seq<BaseReloc>)
    requires EmittedBy(l, rvas, relocs) && ChoosesBoth(l.c) && l.e == NoExtras()
    ensures relocs != [] && |RelocSection(relocs)| >= 12
  {
    OneFix(l);
    OneRelocation(rvas, AllFixes(l, rvas));
    AtLeastOneBlock(relocs);
  }

  /** In every link of this input the search finds the contributed .reloc, and the payload does not fit it. */
  lemma ReservationTooSmall(l: Link, rvas: seq<int>, relocs: seq<BaseReloc>)
    requires EmittedBy(l, rvas, relocs) && ChoosesBoth(l.c) && l.e == NoExtras()
    ensures !Stores(l.outs, relocs)
  {
    PayloadTooLarge(l, rvas, relocs);
    FitsHere(l.c);
    OccupiedHere(l.c);
    ExtentsHere(l.c, ".reloc", Ref(0, 1));
    StoresUnlessDisplaced(l, rvas, relocs);
  }

  // ---------- there is such a link ----------

  lemma OneSymbol(placements: map<Ref, Address>)
    ensures Collectable(PointerAndReloc(), placements)
  {
    forall p, q, name | RegularDef(PointerAndReloc(), placements, p, q, name, 1, 0) ensures p == 0 && q == 0 { }
    forall o, sy ensures !BadSymbol(PointerAndReloc(), o, sy) {
      if o == 0 && sy == 0 { assert |PointerAndReloc()[0].sections| == 2; }
    }
  }

  lemma NotRefusedHere(c: Choice)
    requires ChoosesBoth(c)
    ensures !Refused(c, NoExtras())
  {
    forall r ensures !Descriptor(c, r) {
      if Exists(c.x.objects, r) { SectionsHere(r); }
    }
    OneSymbol(Rooms(c, NoExtras()));
    OneAbsolute(c);
  }

  method LinkPointerAndReloc() returns (l: Link)
    ensures LinkOk(l) && ChoosesBoth(l.c) && l.e == NoExtras() && l.extra == map[]
  {
    SelectableHere();
    var r := LinkSymbols(PointerAndReloc(), map[], "", [], NoExtras(), map[]);
    if r.Err? {
      ghost var c: Choice :| Chosen(c) && c.x == Input(PointerAndReloc(), Some(c.kept), map[], "", [])
        && (ReferenceSafety.Fits(c, NoExtras()) ==> Refused(c, NoExtras()));
      FitsHere(c);
      NotRefusedHere(c);
    }
    l := r.value;
  }
}
