/** An input whose import thunk lands in an uninitialised section: its bytes of .text end before its extent does. */
module OverlappedTail {
  import opened Basics
  import opened Coff
  import opened Align
  import opened Layout
  import opened Sorting
  import opened Targets
  import opened Liveness
  import opened Symbols
  import opened Outputs
  import opened Arrange
  import opened ImageLayout
  import opened ReferenceSafety
  import opened ImageSpace
  import opened ImportPlan
  import ImportThunks
  import Comdat

  const Code := Section(".text", [0xC3], 0, 0x10_0000, [], 0, 0, 0, "")
  const Tail := Section(".text$z", [], 8, 0x10_0000, [], 0, 0, 0, "")

  /** One byte of code, and behind it eight bytes that are not initialised. */
  function CodeAndTail(): seq<Object> {
    [Object([Code, Tail], [])]
  }

  /** One imported function. */
  function OneImport(): Extras {
    Extras([], [Import("a.dll", "f", "f", false, 0, true)], 64)
  }

  ghost predicate ChoosesTail(c: Choice) {
    Chosen(c) && c.x == Input(CodeAndTail(), Some(c.kept), map[], "", [])
  }

  lemma SectionsOfTail(r: Ref)
    requires Exists(CodeAndTail(), r)
    ensures r == Ref(0, 0) || r == Ref(0, 1)
    ensures !IsComdat(At(CodeAndTail(), r)) && !LinkerDiscarded(At(CodeAndTail(), r))
    ensures !(".idata$2" <= At(CodeAndTail(), r).name)
  {
    var name := At(CodeAndTail(), r).name;
    assert name[1] == 't' && ".debug"[1] == 'd' && ".drectve"[1] == 'd' && ".idata$2"[1] == 'i';
  }

  lemma RefsOfTail()
    ensures AllRefs(CodeAndTail()) == [Ref(0, 0), Ref(0, 1)] && AllExist(CodeAndTail(), AllRefs(CodeAndTail()))
  {
    var objects := CodeAndTail();
    assert RefsUpTo(objects, 1) == RefsUpTo(objects, 0) + [Ref(0, 0), Ref(0, 1)];
  }

  lemma SelectableTail()
    ensures Selectable(CodeAndTail())
  {
    var objects, refs := CodeAndTail(), AllRefs(CodeAndTail());
    RefsOfTail();
    forall name ensures Comdat.Resolvable(objects, Comdat.Group(objects, refs, name)) {
      assert refs[..1] == [Ref(0, 0)] && refs[..1][..0] == [];
      assert Comdat.Group(objects, [], name) == [] && Comdat.Group(objects, refs[..1], name) == [];
    }
  }

  lemma PlacedOfTail(c: Choice, r: Ref)
    requires ChoosesTail(c)
    ensures r in Placed(c) <==> r == Ref(0, 0) || r == Ref(0, 1)
  {
    SectionsOfTail(Ref(0, 0));
    SectionsOfTail(Ref(0, 1));
    if Exists(c.x.objects, r) { SectionsOfTail(r); }
  }

  // ---------- layout ----------

  lemma NamesOfTail(r: Ref)
    requires Exists(CodeAndTail(), r)
    ensures OutputName(CodeAndTail(), r) == ".text"
  {
    SectionsOfTail(r);
    StemOf(".text", "");
    StemOf(".text", "$z");
    assert ".text" + "" == ".text" && ".text" + "$z" == ".text$z";
  }

  lemma TextOfTail(c: Choice)
    requires ChoosesTail(c)
    ensures PlacedIn(CodeAndTail(), Placed(c), ".text") == [Ref(0, 0), Ref(0, 1)]
  {
    var objects, refs, placed := CodeAndTail(), AllRefs(CodeAndTail()), Placed(c);
    RefsOfTail();
    PlacedOfTail(c, Ref(0, 0));
    PlacedOfTail(c, Ref(0, 1));
    NamesOfTail(Ref(0, 0));
    NamesOfTail(Ref(0, 1));
    assert refs[..1] == [Ref(0, 0)] && refs[..1][..0] == [];
    assert Members(objects, placed, ".text", []) == [];
    assert Members(objects, placed, ".text", refs[..1]) == [Ref(0, 0)];
  }

  /** Two contributions in order stay in order. */
  lemma TwoSorted(objects: seq<Object>, a: Ref, b: Ref)
    requires ContributionLess(objects, a, b)
    ensures SortContributions(objects, [a, b]) == [a, b]
  {
    var sorted := SortContributions(objects, [a, b]);
    ContributionsSorted(objects, [a, b]);
    assert sorted == [sorted[0], sorted[1]];
    assert multiset{sorted[0], sorted[1]} == multiset{a, b};
    assert sorted[0] in multiset{a, b} && sorted[1] in multiset{a, b};
  }

  lemma OrderOfTail()
    ensures SortContributions(CodeAndTail(), [Ref(0, 0), Ref(0, 1)]) == [Ref(0, 0), Ref(0, 1)]
  {
    var a, b := ".text", ".text$z";
    assert StringLess(a[5..], b[5..]);
    assert a[4..][1..] == a[5..] && b[4..][1..] == b[5..];
    assert a[3..][1..] == a[4..] && b[3..][1..] == b[4..];
    assert a[2..][1..] == a[3..] && b[2..][1..] == b[3..];
    assert a[1..][1..] == a[2..] && b[1..][1..] == b[2..];
    assert StringLess(a[4..], b[4..]);
    assert StringLess(a[3..], b[3..]);
    assert StringLess(a[2..], b[2..]);
    assert StringLess(a[1..], b[1..]);
    TwoSorted(CodeAndTail(), Ref(0, 0), Ref(0, 1));
  }

  lemma ItemsOfTail(c: Choice)
    requires ChoosesTail(c)
    ensures GroupItems(CodeAndTail(), PlacedIn(CodeAndTail(), Placed(c), ".text")) ==
      [Item(1, 1, [0xC3]), Item(1, 8, [])]
  {
    TextOfTail(c);
    ItemsInOrder();
  }

  lemma ItemsInOrder()
    ensures AllExist(CodeAndTail(), [Ref(0, 0), Ref(0, 1)])
    ensures GroupItems(CodeAndTail(), [Ref(0, 0), Ref(0, 1)]) == [Item(1, 1, [0xC3]), Item(1, 8, [])]
  {
    OrderOfTail();
    TwoItems(CodeAndTail(), Ref(0, 0), Ref(0, 1));
    Alignments();
  }

  lemma TwoItems(objects: seq<Object>, a: Ref, b: Ref)
    requires Exists(objects, a) && Exists(objects, b) && AllExist(objects, [a, b])
    requires SortContributions(objects, [a, b]) == [a, b]
    ensures GroupItems(objects, [a, b]) == [ItemOf(At(objects, a)), ItemOf(At(objects, b))]
  {
    SortedOk(objects, [a, b]);
    assert SectionsOf(objects, [a, b]) == [At(objects, a), At(objects, b)];
  }

  lemma Alignments()
    ensures ItemOf(Code) == Item(1, 1, [0xC3]) && ItemOf(Tail) == Item(1, 8, [])
  {
  }

  /** The code is at 0, the tail at 1 up to 9. */
  lemma SpansOfTail(items: seq<Item>)
    requires items == [Item(1, 1, [0xC3]), Item(1, 8, [])]
    ensures EndOf(items, 0, 0) == OffsetOf(items, 0, 0) == 0 && EndOf(items, 0, 1) == OffsetOf(items, 0, 1) == 1
    ensures EndOf(items, 0, 2) == 9
    ensures DataEnd(items, 0, 0, 2) == 1 && NoOverflow(items, 0)
  {
    assert EndOf(items, 0, 1) == NextMultiple(0, 1) + 1;
    assert DataEnd(items, 0, 0, 1) == 1;
  }

  lemma SizesOfTail(c: Choice)
    requires ChoosesTail(c)
    ensures ExtentFits(CodeAndTail(), Placed(c), ".text") && Extent(CodeAndTail(), Placed(c), ".text") == 9
    ensures Initialized(CodeAndTail(), Placed(c), ".text") == 1
  {
    ItemsOfTail(c);
    SpansOfTail(GroupItems(CodeAndTail(), PlacedIn(CodeAndTail(), Placed(c), ".text")));
  }

  lemma OthersOfTail(c: Choice, name: string)
    requires ChoosesTail(c) && name != ".text"
    ensures ExtentFits(CodeAndTail(), Placed(c), name) && Extent(CodeAndTail(), Placed(c), name) == 0
  {
    var refs := PlacedIn(CodeAndTail(), Placed(c), name);
    if refs != [] {
      assert refs[0] in refs;
      NamesOfTail(refs[0]);
    }
  }

  lemma NoAbsolutesInTail(placed: set<Ref>)
    ensures Absolutes(CodeAndTail(), placed) == 0
  {
    var objects, refs := CodeAndTail(), AllRefs(CodeAndTail());
    RefsOfTail();
    assert refs[..1] == [Ref(0, 0)] && refs[..1][..0] == [];
    assert CountAbsolute(objects, placed, []) == 0;
    assert CountAbsolute(objects, placed, refs[..1]) == 0;
  }

  lemma FitsTail(c: Choice)
    requires ChoosesTail(c)
    ensures ReferenceSafety.Fits(c, OneImport())
  {
    SizesOfTail(c);
    OthersOfTail(c, ".bss");
    OthersOfTail(c, ".idata");
    NoAbsolutesInTail(Placed(c));
    assert Commons([]) == [];
  }

  // ---------- the collision ----------

  lemma TailReaches(c: Choice)
    requires ChoosesTail(c)
    ensures TailBeforeThunks(c, OneImport())
  {
    var items := GroupItems(CodeAndTail(), PlacedIn(CodeAndTail(), Placed(c), ".text"));
    ItemsOfTail(c);
    SpansOfTail(items);
    SizesOfTail(c);
    OneThunk(OneImport().imports);
    assert items[1].size > 0 && OffsetOf(items, 0, 1) < 8 && Even(1) < OffsetOf(items, 0, 1) + items[1].size;
  }

  lemma OneThunk(imports: seq<Import>)
    requires |imports| == 1 && imports[0].isCode
    ensures ImportThunks.ThunksEnd(1, imports) == 8
  {
    assert imports[..0] == [];
    assert ImportThunks.CodeCount(imports) == 1;
  }

  lemma SoundTail(l: Link)
    requires LinkOk(l) && ChoosesTail(l.c) && l.e == OneImport()
    ensures Sound(l)
  {
    FitsTail(l.c);
    SizesOfTail(l.c);
    forall r | r in l.placements ensures ExtentFits(l.c.x.objects, Placed(l.c), OutputName(l.c.x.objects, r)) {
      PlacementsExact(l, r);
      NamesOfTail(r);
    }
  }

  /** In every link of this input the import thunk shares a byte with a placed section. */
  lemma ThunkInTail(l: Link)
    requires LinkOk(l) && ChoosesTail(l.c) && l.e == OneImport()
    ensures ThunkCollides(l) && !AllApart(l)
  {
    SoundTail(l);
    TailReaches(l.c);
    assert HasCode(l.e.imports) by { assert OneImport().imports[0].isCode; }
    ThunksClearIff(l);
    ThunkCollidesToo(l);
  }

  // ---------- there is such a link ----------

  lemma NoSymbols(placements: map<Ref, Address>)
    ensures Collectable(CodeAndTail(), placements)
  {
  }

  lemma NotRefusedTail(c: Choice)
    requires ChoosesTail(c)
    ensures !Refused(c, OneImport())
  {
    forall r ensures !Descriptor(c, r) {
      if Exists(c.x.objects, r) { SectionsOfTail(r); }
    }
    NoSymbols(Rooms(c, OneImport()));
    assert Occupied(CodeAndTail(), Placed(c), OneImport(), ".idata");
  }

  method LinkCodeAndTail() returns (l: Link)
    ensures LinkOk(l) && ChoosesTail(l.c) && l.e == OneImport() && l.extra == map[]
  {
    SelectableTail();
    var r := LinkSymbols(CodeAndTail(), map[], "", [], OneImport(), map[]);
    if r.Err? {
      ghost var c: Choice :| Chosen(c) && c.x == Input(CodeAndTail(), Some(c.kept), map[], "", [])
        && (ReferenceSafety.Fits(c, OneImport()) ==> Refused(c, OneImport()));
      FitsTail(c);
      NotRefusedTail(c);
    }
    l := r.value;
  }
}
