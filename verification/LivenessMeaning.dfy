/**
 Section liveness read off the symbol tables: which sections are roots, what a live section keeps
 alive, and that the live sections are the least set closed under this.
 */
module LivenessMeaning {
  import opened Basics
  import opened Coff
  import opened Aliases
  import opened Liveness
  import opened ComdatMeaning
  import opened Words
  import opened ReferenceSafety

  /** The section exists, the mask admits it, and it is not for the linker alone. */
  ghost predicate TakesPart(x: Input, r: Ref) {
    && r.obj < |x.objects| && r.sec < |x.objects[r.obj].sections|
    && (x.mask.Some? ==> r in x.mask.value)
    && var section := x.objects[r.obj].sections[r.sec];
       && section.name != ".drectve" && !Bit(section.characteristics, 11)
       && forall rest :: section.name != ".debug" + rest
  }

  /** Entry `sy` of object `o` defines `name`: an external symbol (class 2) of a section that takes part. */
  ghost predicate DefinedAt(x: Input, o: int, sy: int, name: string, r: Ref) {
    && 0 <= o < |x.objects| && 0 <= sy < |x.objects[o].symbols|
    && var symbol := x.objects[o].symbols[sy];
       && symbol.name == name && symbol.storageClass == 2 && r.obj == o && r.sec + 1 == symbol.sectionNumber
       && TakesPart(x, r)
  }

  /** The first definition in input order. */
  ghost predicate FirstDefinedAt(x: Input, o: int, sy: int, name: string, r: Ref) {
    && DefinedAt(x, o, sy, name, r)
    && forall p, q, s :: DefinedAt(x, p, q, name, s) ==> o < p || (o == p && sy <= q)
  }

  /** Following alternate names from `name` leads to a name whose first definition lies in `r`. */
  ghost predicate Leads(x: Input, name: string, r: Ref) {
    name != "" && exists n: nat, o, sy ::
      StopsAt(x.aliases, name, n) && FirstDefinedAt(x, o, sy, Follow(x.aliases, name, n), r)
        && Follow(x.aliases, name, n) != ""
  }

  /** What relocation entry `index` of object `o` keeps alive. */
  ghost predicate SymbolKeeps(x: Input, o: nat, index: int, to: Ref)
    requires o < |x.objects|
  {
    var symbols := x.objects[o].symbols;
    0 <= index < |symbols| && var symbol := symbols[index];
      if symbol.sectionNumber > 0 then
        var own := Ref(o, symbol.sectionNumber - 1);
        || (to == own && TakesPart(x, own))
        || (!TakesPart(x, own) && symbol.storageClass == 2 && Leads(x, symbol.name, to))
      else
        symbol.sectionNumber == 0 && symbol.name != "" &&
        (Leads(x, symbol.name, to) ||
         (symbol.storageClass == 105 && 0 <= symbol.weakDefault < |symbols| &&
           Leads(x, symbols[symbol.weakDefault].name, to)))
  }

  ghost predicate RelocationKeeps(x: Input, from: Ref, to: Ref) {
    Exists(x.objects, from) &&
    exists i ::
      0 <= i < |At(x.objects, from).relocations|
        && SymbolKeeps(x, from.obj, At(x.objects, from).relocations[i].symbol, to)
  }

  /** A live `from` keeps `to` alive: by a relocation, or as the parent of an associative section (selection 5). */
  ghost predicate Keeps(x: Input, from: Ref, to: Ref) {
    || RelocationKeeps(x, from, to)
    || (TakesPart(x, to) && from.obj == to.obj && At(x.objects, to).selection == 5
         && At(x.objects, to).associative == from.sec + 1)
  }

  /** Sections that are no COMDATs, the entry point and the forced symbols. */
  ghost predicate Starts(x: Input, r: Ref) {
    || (TakesPart(x, r) && At(x.objects, r).selection == 0 && !Bit(At(x.objects, r).characteristics, 12))
    || Leads(x, x.entry, r)
    || exists i :: 0 <= i < |x.forced| && Leads(x, x.forced[i], r)
  }

  // ---------- the same in terms of the marking ----------

  lemma TakesPartIs(x: Input, r: Ref)
    ensures TakesPart(x, r) <==> Eligible(x, r)
  {
    if Exists(x.objects, r) { Discarded(At(x.objects, r)); }
  }

  lemma DefinedIs(x: Input, o: int, sy: int, name: string, r: Ref)
    requires name != ""
    ensures DefinedAt(x, o, sy, name, r) <==> DefinesIn(x, o, sy, name, r)
  {
    TakesPartIs(x, r);
  }

  lemma FirstDefinedIs(x: Input, o: int, sy: int, name: string, r: Ref)
    requires name != ""
    ensures FirstDefinedAt(x, o, sy, name, r) <==> FirstDefAt(x, name, r, o, sy)
  {
    forall p, q, s ensures DefinedAt(x, p, q, name, s) <==> DefinesIn(x, p, q, name, s) {
      DefinedIs(x, p, q, name, s);
    }
  }

  lemma LeadsIs(x: Input, defs: map<string, Ref>, name: string, r: Ref)
    requires IsDefs(x, defs)
    ensures Leads(x, name, r) <==> r in Named(x, defs, name)
  {
    var end := Resolved(x.aliases, name);
    var n := ResolvedStops(x.aliases, name);
    forall m: nat | StopsAt(x.aliases, name, m) ensures m == n { StopsOnce(x.aliases, name, m, n); }
    if Leads(x, name, r) {
      var o, sy :| FirstDefinedAt(x, o, sy, end, r);
      FirstDefinedIs(x, o, sy, end, r);
      assert Earlier(o, sy, |x.objects|, 0);
      var p, q :| FirstDefAt(x, end, defs[end], p, q) && Earlier(p, q, |x.objects|, 0);
      assert !Earlier(p, q, o, sy) && !Earlier(o, sy, p, q);
    }
    if r in Named(x, defs, name) {
      var o, sy :| FirstDefAt(x, end, r, o, sy) && Earlier(o, sy, |x.objects|, 0);
      FirstDefinedIs(x, o, sy, end, r);
    }
  }

  lemma SymbolKeepsIs(x: Input, defs: map<string, Ref>, o: nat, relocation: Relocation, to: Ref)
    requires IsDefs(x, defs) && o < |x.objects|
    ensures SymbolKeeps(x, o, relocation.symbol, to) <==> to in Liveness.Targets(x, defs, o, relocation)
  {
    var symbols := x.objects[o].symbols;
    if 0 <= relocation.symbol < |symbols| {
      var symbol := symbols[relocation.symbol];
      LeadsIs(x, defs, symbol.name, to);
      if symbol.sectionNumber > 0 { TakesPartIs(x, Ref(o, symbol.sectionNumber - 1)); }
      if 0 <= symbol.weakDefault < |symbols| { LeadsIs(x, defs, symbols[symbol.weakDefault].name, to); }
    }
  }

  lemma RelocationKeepsIs(x: Input, defs: map<string, Ref>, from: Ref, to: Ref)
    requires IsDefs(x, defs)
    ensures RelocationKeeps(x, from, to) <==> Relocates(x, defs, from, to)
  {
    if Exists(x.objects, from) {
      var relocations := At(x.objects, from).relocations;
      forall i | 0 <= i < |relocations|
        ensures SymbolKeeps(x, from.obj, relocations[i].symbol, to) <==>
          to in Liveness.Targets(x, defs, from.obj, relocations[i]) {
        SymbolKeepsIs(x, defs, from.obj, relocations[i], to);
      }
    }
  }

  lemma KeepsIs(x: Input, defs: map<string, Ref>, from: Ref, to: Ref)
    requires IsDefs(x, defs)
    ensures Keeps(x, from, to) <==> Edge(x, defs, from, to)
  {
    TakesPartIs(x, to);
    RelocationKeepsIs(x, defs, from, to);
  }

  lemma StartsIs(x: Input, defs: map<string, Ref>, r: Ref)
    requires IsDefs(x, defs)
    ensures Starts(x, r) <==> IsRoot(x, defs, r)
  {
    TakesPartIs(x, r);
    if Exists(x.objects, r) { Candidates(At(x.objects, r)); }
    LeadsIs(x, defs, x.entry, r);
    forall i | 0 <= i < |x.forced| ensures Leads(x, x.forced[i], r) <==> r in Named(x, defs, x.forced[i]) {
      LeadsIs(x, defs, x.forced[i], r);
    }
  }

  /** The roots are in the set, and whatever its sections keep alive is in it too. */
  ghost predicate KeptTogether(x: Input, live: set<Ref>) {
    && (forall r :: Starts(x, r) ==> r in live)
    && (forall from, to :: from in live && Keeps(x, from, to) ==> to in live)
  }

  lemma KeptTogetherIs(x: Input, defs: map<string, Ref>, live: set<Ref>)
    requires IsDefs(x, defs)
    ensures KeptTogether(x, live) <==> Closed(x, defs, live)
  {
    forall r ensures Starts(x, r) <==> IsRoot(x, defs, r) { StartsIs(x, defs, r); }
    forall from, to ensures Keeps(x, from, to) <==> Edge(x, defs, from, to) { KeepsIs(x, defs, from, to); }
  }

  /** The live sections are the least set that holds the roots and whatever its sections keep alive. */
  lemma LiveIsLeast(x: Input, defs: map<string, Ref>, live: set<Ref>)
    requires IsDefs(x, defs) && Closed(x, defs, live) && forall other :: Closed(x, defs, other) ==> live <= other
    ensures KeptTogether(x, live) && forall other :: KeptTogether(x, other) ==> live <= other
  {
    KeptTogetherIs(x, defs, live);
    forall other | KeptTogether(x, other) ensures live <= other { KeptTogetherIs(x, defs, other); }
  }

  /**
   A live section with a relocation against an undefined weak symbol keeps the section that its
   default leads to, whether the symbol itself is defined elsewhere or not.
   */
  lemma WeakDefaultLives(x: Input, live: set<Ref>, from: Ref, i: nat, to: Ref)
    requires KeptTogether(x, live) && from in live && Exists(x.objects, from)
    requires i < |At(x.objects, from).relocations|
    requires var symbols, index := x.objects[from.obj].symbols, At(x.objects, from).relocations[i].symbol;
      && 0 <= index < |symbols| && symbols[index].sectionNumber == 0 && symbols[index].storageClass == 105
      && symbols[index].name != "" && 0 <= symbols[index].weakDefault < |symbols|
      && Leads(x, symbols[symbols[index].weakDefault].name, to)
    ensures to in live
  {
    assert SymbolKeeps(x, from.obj, At(x.objects, from).relocations[i].symbol, to);
    assert Keeps(x, from, to);
  }

  // ---------- in a link ----------

  /** The placed sections of a link are the live ones: the least such set, as far as selection admits it. */
  lemma PlacedAreLive(c: Choice)
    requires Chosen(c)
    ensures c.x.mask == Some(c.kept) && KeptTogether(c.x, c.live)
    ensures forall other :: KeptTogether(c.x, other) ==> c.live <= other
    ensures forall r :: r in Placed(c) <==> r in c.live
  {
    LiveIsLeast(c.x, c.defs, c.live);
    forall r ensures r in Placed(c) <==> r in c.live {
      TakesPartIs(c.x, r);
      StartsIs(c.x, c.defs, r);
    }
  }

  /** A link refuses placed or discarded sections that begin a GNU import descriptor table. */
  lemma DescriptorsAre(c: Choice, r: Ref)
    requires Chosen(c)
    ensures Descriptor(c, r) <==>
      && r in c.kept && Exists(c.x.objects, r) && At(c.x.objects, r).data != []
      && (exists rest :: At(c.x.objects, r).name == ".idata$2" + rest)
      && (r in c.live || (At(c.x.objects, r).selection == 0 && !Bit(At(c.x.objects, r).characteristics, 12)))
  {
    if Exists(c.x.objects, r) {
      var name := At(c.x.objects, r).name;
      Candidates(At(c.x.objects, r));
      if ".idata$2" <= name { assert name == ".idata$2" + name[8..]; }
    }
  }
}
