/**
 An input that shows why reference safety asks for an occupied output: the name survives in an
 output of the image, and the reference to it still does not resolve.
 */
module DroppedDefinition {
  import opened Basics
  import opened Coff
  import opened Targets
  import opened Liveness
  import opened Symbols
  import opened Outputs
  import opened Arrange
  import opened ImageLayout
  import opened ReferenceSafety
  import Comdat

  const CallerText := Section(".text", [0, 0, 0, 0], 0, 0, [Relocation(0, 0, 4)], 0, 0, 0, "")
  const EmptyData := Section(".rdata", [], 0, 0, [], 0, 0, 0, "")
  const InlineCopy := Section(".text$f", [0xC3], 0, 0, [], SelectAny, 0, 0, "f")

  /** `f` is called, defined first at the end of an empty section, and again in a COMDAT nobody else needs. */
  function CallToF(): seq<Object> {
    [Object([CallerText], [Symbol("f", 0, 0, ExternalClass, 0)]),
     Object([EmptyData], [Symbol("f", 0, 1, ExternalClass, 0)]),
     Object([InlineCopy], [Symbol("f", 0, 1, ExternalClass, 0)])]
  }

  function NoExtras(): Extras {
    Extras([], [], 0)
  }

  ghost predicate ChoosesF(c: Choice) {
    Chosen(c) && c.x == Input(CallToF(), Some(c.kept), map[], "", [])
  }

  // ---------- selection and liveness ----------

  lemma SectionsOfF(r: Ref)
    requires Exists(CallToF(), r)
    ensures r == Ref(0, 0) || r == Ref(1, 0) || r == Ref(2, 0)
    ensures IsComdat(At(CallToF(), r)) <==> r == Ref(2, 0)
    ensures !LinkerDiscarded(At(CallToF(), r)) && At(CallToF(), r).selection != SelectAssociative
    ensures !(".idata$2" <= At(CallToF(), r).name)
  {
    var name := At(CallToF(), r).name;
    assert name[1] != 'd' && name[1] != 'i' && ".debug"[1] == 'd' && ".drectve"[1] == 'd' && ".idata$2"[1] == 'i';
  }

  lemma RefsOfF()
    ensures AllRefs(CallToF()) == [Ref(0, 0), Ref(1, 0), Ref(2, 0)] && AllExist(CallToF(), AllRefs(CallToF()))
  {
    var objects := CallToF();
    assert RefsUpTo(objects, 1) == RefsUpTo(objects, 0) + [Ref(0, 0)];
    assert RefsUpTo(objects, 2) == RefsUpTo(objects, 1) + [Ref(1, 0)];
    assert RefsUpTo(objects, 3) == RefsUpTo(objects, 2) + [Ref(2, 0)];
  }

  lemma GroupOfF(name: string)
    ensures AllExist(CallToF(), AllRefs(CallToF()))
    ensures Comdat.Group(CallToF(), AllRefs(CallToF()), name) == if name == "f" then [Ref(2, 0)] else []
  {
    var objects, refs := CallToF(), AllRefs(CallToF());
    RefsOfF();
    assert refs[..2] == [Ref(0, 0), Ref(1, 0)] && refs[..2][..1] == [Ref(0, 0)] && refs[..2][..1][..0] == [];
    assert Comdat.Group(objects, [], name) == [];
    assert Comdat.Group(objects, refs[..2][..1], name) == [];
    assert Comdat.Group(objects, refs[..2], name) == [];
  }

  lemma SelectableF()
    ensures Selectable(CallToF())
  {
    RefsOfF();
    forall name ensures Comdat.Resolvable(CallToF(), Comdat.Group(CallToF(), AllRefs(CallToF()), name)) {
      GroupOfF(name);
    }
  }

  lemma KeptOfF(c: Choice)
    requires ChoosesF(c)
    ensures Ref(0, 0) in c.kept && Ref(1, 0) in c.kept && Ref(2, 0) in c.kept
    ensures Eligible(c.x, Ref(0, 0)) && Eligible(c.x, Ref(1, 0)) && Eligible(c.x, Ref(2, 0))
  {
    var objects := CallToF();
    GroupOfF("f");
    SectionsOfF(Ref(0, 0));
    SectionsOfF(Ref(1, 0));
    SectionsOfF(Ref(2, 0));
    assert Comdat.OneWinner(objects, c.kept, Comdat.Group(objects, AllRefs(objects), "f"));
  }

  lemma DefsOfF(c: Choice)
    requires ChoosesF(c)
    ensures c.defs.Keys == {"f"} && c.defs["f"] == Ref(1, 0)
  {
    var x := c.x;
    KeptOfF(c);
    assert DefinesIn(x, 1, 0, "f", Ref(1, 0)) && Earlier(1, 0, 3, 0);
    assert "f" in c.defs;
    forall name | name in c.defs ensures name == "f" && c.defs[name] == Ref(1, 0) {
      var fo, fs :| FirstDefAt(x, name, c.defs[name], fo, fs) && Earlier(fo, fs, 3, 0);
      assert !Earlier(1, 0, fo, fs);
    }
  }

  lemma EdgesOfF(c: Choice, from: Ref, to: Ref)
    requires ChoosesF(c) && Edge(c.x, c.defs, from, to)
    ensures from == Ref(0, 0) && to == Ref(1, 0)
  {
    if Exists(c.x.objects, to) { SectionsOfF(to); }
    if Exists(c.x.objects, from) { SectionsOfF(from); }
    DefsOfF(c);
    assert Relocates(c.x, c.defs, from, to);
    assert from == Ref(0, 0);
    NameUnaliased(c.x.aliases, "f");
  }

  /** Liveness follows the first definition and leaves the COMDAT copy dead. */
  lemma LiveOfF(c: Choice)
    requires ChoosesF(c)
    ensures IsPlaced(c, Ref(0, 0)) && IsPlaced(c, Ref(1, 0)) && !IsPlaced(c, Ref(2, 0))
  {
    var two := {Ref(0, 0), Ref(1, 0)};
    KeptOfF(c);
    forall r | IsRoot(c.x, c.defs, r) ensures r in two {
      if Exists(c.x.objects, r) { SectionsOfF(r); }
    }
    forall p, r | p in two && Edge(c.x, c.defs, p, r) ensures r in two { EdgesOfF(c, p, r); }
    assert Closed(c.x, c.defs, two);
    SectionsOfF(Ref(0, 0));
    SectionsOfF(Ref(1, 0));
    SectionsOfF(Ref(2, 0));
  }

  // ---------- layout ----------

  lemma NamesOfF()
    ensures OutputName(CallToF(), Ref(0, 0)) == ".text" && OutputName(CallToF(), Ref(1, 0)) == ".rdata"
    ensures OutputName(CallToF(), Ref(2, 0)) == ".text"
  {
    TextName("");
    TextName("$f");
    DataName();
    assert ".text" + "" == ".text" && ".text" + "$f" == ".text$f";
  }

  lemma TextName(key: string)
    requires key == "" || key[0] == '$'
    ensures Canonical(".text" + key) == ".text"
  {
    StemOf(".text", key);
  }

  lemma DataName()
    ensures Canonical(".rdata") == ".rdata"
  {
    StemOf(".rdata", "");
    assert ".rdata" + "" == ".rdata";
    assert ".text"[1] != ".rdata"[1];
  }

  lemma PlacedOfF(c: Choice, r: Ref)
    requires ChoosesF(c)
    ensures r in Placed(c) <==> r == Ref(0, 0) || r == Ref(1, 0)
  {
    LiveOfF(c);
    if r in Placed(c) { SectionsOfF(r); }
  }

  lemma OccupiedOfF(c: Choice)
    requires ChoosesF(c)
    ensures OutputOccupied(c, NoExtras(), Ref(0, 0)) && OutputOccupied(c, NoExtras(), Ref(2, 0))
    ensures !OutputOccupied(c, NoExtras(), Ref(1, 0))
  {
    NamesOfF();
    PlacedOfF(c, Ref(0, 0));
    assert LogicalSize(At(CallToF(), Ref(0, 0))) == 4;
    assert Contributed(CallToF(), Placed(c), ".text");
    if Contributed(CallToF(), Placed(c), ".rdata") {
      var r :| Exists(CallToF(), r) && r in Placed(c) && OutputName(CallToF(), r) == ".rdata"
        && LogicalSize(At(CallToF(), r)) > 0;
      PlacedOfF(c, r);
    }
    assert !Synthesized(NoExtras(), ".rdata");
  }

  lemma OneTextOfF(c: Choice, name: string)
    requires ChoosesF(c) && name != ".rdata"
    ensures ExtentFits(CallToF(), Placed(c), name) && 0 <= Extent(CallToF(), Placed(c), name) <= 4
  {
    NamesOfF();
    forall r | r in PlacedIn(CallToF(), Placed(c), name) ensures r == Ref(0, 0) { PlacedOfF(c, r); }
    OneSection(CallToF(), Placed(c), name, Ref(0, 0));
  }

  lemma NoAbsolutes(placed: set<Ref>)
    ensures Absolutes(CallToF(), placed) == 0
  {
    var objects, refs := CallToF(), AllRefs(CallToF());
    RefsOfF();
    assert CountIn([]) == 0 && [Relocation(0, 0, 4)][..0] == [] && CountIn([Relocation(0, 0, 4)]) == 0;
    assert refs[..2] == [Ref(0, 0), Ref(1, 0)] && refs[..2][..1] == [Ref(0, 0)] && refs[..2][..1][..0] == [];
    assert CountAbsolute(objects, placed, []) == 0;
    assert CountAbsolute(objects, placed, refs[..2][..1]) == 0;
    assert CountAbsolute(objects, placed, refs[..2]) == 0;
  }

  lemma FitsF(c: Choice)
    requires ChoosesF(c)
    ensures Fits(c, NoExtras())
  {
    var objects, placed := CallToF(), Placed(c);
    OneTextOfF(c, ".bss");
    OneTextOfF(c, ".text");
    OneTextOfF(c, ".idata");
    NoAbsolutes(placed);
  }

  // ---------- the reference ----------

  /** In every link of this input, `f` survives in an output of the image and the call to it does not resolve. */
  lemma SurvivingIsNotEnough(l: Link)
    requires LinkOk(l) && ChoosesF(l.c) && l.e == NoExtras() && "f" !in l.extra
    ensures IsPlaced(l.c, Ref(0, 0)) && Refers(l.c, Ref(0, 0), 0) && Referred(l.c, Ref(0, 0), 0).name == "f"
    ensures DefinesIn(l.c.x, 2, 0, "f", Ref(2, 0)) && OutputOccupied(l.c, l.e, Ref(2, 0))
    ensures ResolveRef(l, 0, 0).Err?
  {
    LiveOfF(l.c);
    KeptOfF(l.c);
    OccupiedOfF(l.c);
    FitsF(l.c);
    assert !Defined(l.c, l.e, "f") by { UndefinedF(l.c); }
    ResolvesIffDefined(l, 0, 0);
  }

  lemma UndefinedF(c: Choice)
    requires ChoosesF(c)
    ensures !Defined(c, NoExtras(), "f")
  {
    LiveOfF(c);
    OccupiedOfF(c);
    forall o, sy, q | DefinedAt(CallToF(), o, sy, "f", q) ensures !HasRoom(c, NoExtras(), q) {
      assert q == Ref(1, 0) || q == Ref(2, 0);
    }
  }

  lemma NotRefusedF(c: Choice)
    requires ChoosesF(c)
    ensures !Refused(c, NoExtras())
  {
    forall r ensures !Descriptor(c, r) {
      if Exists(c.x.objects, r) { SectionsOfF(r); }
    }
    NothingDefinedF(c);
    OccupiedOfF(c);
    NamesOfF();
  }

  lemma NothingDefinedF(c: Choice)
    requires ChoosesF(c)
    ensures Collectable(CallToF(), Rooms(c, NoExtras()))
  {
    OccupiedOfF(c);
    NoDefinitions(Rooms(c, NoExtras()));
  }

  lemma NoDefinitions(placements: map<Ref, Address>)
    requires Ref(1, 0) !in placements
    ensures Collectable(CallToF(), placements)
  {
    forall p, q, name ensures !RegularDef(CallToF(), placements, p, q, name, 3, 0) {
      if Regular(CallToF(), p, q) { assert p == 1; }
    }
    forall o, sy ensures !BadSymbol(CallToF(), o, sy) {
      if 0 <= o < 3 && 0 <= sy < |CallToF()[o].symbols| { assert |CallToF()[o].sections| == 1 && sy == 0; }
    }
  }

  /** There is such a link. */
  method LinkCallToF() returns (l: Link)
    ensures LinkOk(l) && ChoosesF(l.c) && l.e == NoExtras() && l.extra == map[]
  {
    SelectableF();
    var r := LinkSymbols(CallToF(), map[], "", [], NoExtras(), map[]);
    if r.Err? {
      ghost var c: Choice :| Chosen(c) && c.x == Input(CallToF(), Some(c.kept), map[], "", [])
        && (Fits(c, NoExtras()) ==> Refused(c, NoExtras()));
      FitsF(c);
      NotRefusedF(c);
    }
    l := r.value;
  }
}
