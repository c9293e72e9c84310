/**
 References across COMDAT selection, liveness, layout, symbol collection and resolution.

 A section is placed when it is kept by selection, not discarded by the linker and, if it is a
 COMDAT, live. It has an address when its output is in the image: some placed section of the same
 canonical name has a size, or common symbols or imports are synthesized into that output.
 */
module ReferenceSafety {
  import opened Basics
  import opened Coff
  import opened Targets
  import opened Aliases
  import opened Liveness
  import opened Symbols
  import opened Outputs
  import opened Arrange
  import opened ImageLayout
  import Comdat
  import SectionOrder

  // ---------- a link before relocation ----------

  /** What selection and liveness decide; `defs` are the definitions liveness follows. */
  datatype Choice = Choice(x: Input, kept: set<Ref>, live: set<Ref>, defs: map<string, Ref>)

  /** The state of a link when relocations are about to be resolved; `extra` are common symbols and imports. */
  datatype Link = Link(c: Choice, e: Extras, outs: seq<Out>, placements: map<Ref, Address>, s: Synthesis,
    globals: Globals, extra: Globals)

  ghost predicate Chosen(c: Choice) {
    && Comdat.Selected(c.x.objects, c.kept) && c.x.mask == Some(c.kept)
    && IsDefs(c.x, c.defs) && Closed(c.x, c.defs, c.live) && (forall r :: r in c.live ==> Eligible(c.x, r))
    && (forall other :: Closed(c.x, c.defs, other) ==> c.live <= other)
  }

  predicate IsPlaced(c: Choice, r: Ref) {
    && Exists(c.x.objects, r) && r in c.kept && !LinkerDiscarded(At(c.x.objects, r))
    && (IsComdat(At(c.x.objects, r)) ==> r in c.live)
  }

  /** The sections that take part in layout. */
  function Placed(c: Choice): (placed: set<Ref>)
    ensures forall r :: r in placed <==> IsPlaced(c, r)
  {
    RefsAreSections(c.x.objects, |c.x.objects|);
    set r | r in AllRefs(c.x.objects) && IsPlaced(c, r)
  }

  /** GNU import descriptors among the selected sections, which link refuses. */
  ghost predicate HasDescriptors(c: Choice) {
    exists r :: Descriptor(c, r)
  }

  predicate Descriptor(c: Choice, r: Ref) {
    && Exists(c.x.objects, r) && r in c.kept && (IsComdat(At(c.x.objects, r)) ==> r in c.live)
    && ".idata$2" <= At(c.x.objects, r).name && At(c.x.objects, r).data != []
  }

  /** Nothing that is synthesized overflows 32 bits. */
  ghost predicate Fits(c: Choice, e: Extras)
    requires ExtrasOk(e)
  {
    Roomy(c.x.objects, Placed(c), e)
  }

  ghost predicate Arranged(c: Choice, e: Extras, outs: seq<Out>, placements: map<Ref, Address>, s: Synthesis)
    requires ExtrasOk(e)
  {
    && (forall r :: r in placements ==> IsPlaced(c, r))
    && (Fits(c, e) ==> LaidOut(c.x.objects, Placed(c), e, outs, placements, s))
  }

  /** What the phases before relocation establish. */
  ghost predicate LinkOk(l: Link) {
    && Chosen(l.c) && !HasDescriptors(l.c) && ExtrasOk(l.e) && Arranged(l.c, l.e, l.outs, l.placements, l.s)
    && l.outs != []
    && GlobalsUpTo(l.c.x.objects, l.placements, l.globals, |l.c.x.objects|, 0)
    && AllPrevailing(l.c.x.objects, l.placements, l.globals) && Collectable(l.c.x.objects, l.placements)
  }

  ghost predicate Selectable(objects: seq<Object>) {
    AllExist(objects, AllRefs(objects)) && Comdat.AllResolvable(objects)
      && Comdat.ParentsNamed(objects, AllRefs(objects))
  }

  /** The output of section `d` is in the image. */
  ghost predicate OutputOccupied(c: Choice, e: Extras, d: Ref) {
    Occupied(c.x.objects, Placed(c), e, OutputName(c.x.objects, d))
  }

  /** Section `q` is placed and its output has a contribution with a size or something synthesized in it. */
  ghost predicate HasRoom(c: Choice, e: Extras, q: Ref) {
    IsPlaced(c, q) && OutputOccupied(c, e, q)
  }

  /** The sections that have an address, whatever it is. */
  ghost function Rooms(c: Choice, e: Extras): (rooms: map<Ref, Address>)
    ensures forall q :: q in rooms <==> HasRoom(c, e, q)
  {
    map q | q in Placed(c) && HasRoom(c, e, q) :: Address(0, 0)
  }

  /**
   Why the link of this choice fails before relocation: descriptors, no output at all, or symbols
   that clash or name no section.
   */
  ghost predicate Refused(c: Choice, e: Extras) {
    HasDescriptors(c) || NothingThere(c.x.objects, Placed(c), e) || !Collectable(c.x.objects, Rooms(c, e))
  }

  /** Whether symbols can be collected depends on which sections have addresses, not on the addresses. */
  lemma CollectableAlike(objects: seq<Object>, a: map<Ref, Address>, b: map<Ref, Address>)
    requires forall r :: r in a <==> r in b
    ensures Collectable(objects, a) <==> Collectable(objects, b)
  {
    forall p, q, name
      ensures RegularDef(objects, a, p, q, name, |objects|, 0) <==> RegularDef(objects, b, p, q, name, |objects|, 0) {
      DefinitionAlike(objects, a, b, p, q, name);
      DefinitionAlike(objects, b, a, p, q, name);
    }
  }

  lemma DefinitionAlike(objects: seq<Object>, a: map<Ref, Address>, b: map<Ref, Address>, p: int, q: int, name: string)
    requires forall r :: r in a <==> r in b
    ensures RegularDef(objects, a, p, q, name, |objects|, 0) ==> RegularDef(objects, b, p, q, name, |objects|, 0)
  {
    if RegularDef(objects, a, p, q, name, |objects|, 0) {
      var symbol := objects[p].symbols[q];
      var r := Ref(p, symbol.sectionNumber - 1);
      assert PlacedDef(objects, b, p, q, name, Address(b[r].output, b[r].offset + symbol.value));
    }
  }

  /** A layout of this choice can be linked exactly when the choice is not refused. */
  lemma LayoutRefused(c: Choice, e: Extras, outs: seq<Out>, placements: map<Ref, Address>, s: Synthesis)
    requires ExtrasOk(e) && Fits(c, e) && Arranged(c, e, outs, placements, s)
    ensures HasDescriptors(c) || outs == [] || !Collectable(c.x.objects, placements) <==> Refused(c, e)
  {
    CollectableAlike(c.x.objects, placements, Rooms(c, e));
  }

  method FindDescriptor(c: Choice) returns (found: bool)
    ensures found <==> HasDescriptors(c)
  {
    var refs := AllRefs(c.x.objects);
    RefsAreSections(c.x.objects, |c.x.objects|);
    for k := 0 to |refs|
      invariant forall r :: r in refs[..k] ==> !Descriptor(c, r)
    {
      if Descriptor(c, refs[k]) { return true; }
    }
    assert refs[..|refs|] == refs;
    found := false;
  }

  method Choose(objects: seq<Object>, aliases: Aliases, entry: string, forced: seq<string>) returns (r: Result<Choice>)
    ensures r.Ok? <==> Selectable(objects)
    ensures r.Ok? ==> Chosen(r.value) && r.value.x == Input(objects, Some(r.value.kept), aliases, entry, forced)
  {
    var kept := Comdat.SelectSections(objects);
    if kept.Err? { return Err(kept.message); }
    var x := Input(objects, Some(kept.value), aliases, entry, forced);
    var definitions := CollectDefinitions(x);
    var live, defs := ComputeLiveSections(x);
    SameDefs(x, definitions, defs);
    r := Ok(Choice(x, kept.value, live, definitions));
  }

  /** The definitions that liveness follows are determined by the input. */
  lemma SameDefs(x: Input, a: map<string, Ref>, b: map<string, Ref>)
    requires IsDefs(x, a) && IsDefs(x, b)
    ensures a == b
  {
    assert forall name :: name in a <==> name in b by {
      forall name | name in a ensures name in b { HasDef(x, a, b, name); }
      forall name | name in b ensures name in a { HasDef(x, b, a, name); }
    }
    forall name | name in a ensures a[name] == b[name] { OneFirst(x, a, b, name); }
  }

  lemma HasDef(x: Input, a: map<string, Ref>, b: map<string, Ref>, name: string)
    requires IsDefs(x, a) && IsDefs(x, b) && name in a
    ensures name in b
  {
    var fo, fs :| FirstDefAt(x, name, a[name], fo, fs) && Earlier(fo, fs, |x.objects|, 0);
  }

  lemma OneFirst(x: Input, a: map<string, Ref>, b: map<string, Ref>, name: string)
    requires IsDefs(x, a) && IsDefs(x, b) && name in a && name in b
    ensures a[name] == b[name]
  {
    var fo, fs :| FirstDefAt(x, name, a[name], fo, fs) && Earlier(fo, fs, |x.objects|, 0);
    var go, gs :| FirstDefAt(x, name, b[name], go, gs) && Earlier(go, gs, |x.objects|, 0);
    assert fo == go && fs == gs;
  }

  /**
   Some choice that selection and liveness make for this input is refused, unless what is
   synthesized for it overflows.
   */
  ghost predicate FailsAfter(objects: seq<Object>, aliases: Aliases, entry: string, forced: seq<string>, e: Extras)
    requires ExtrasOk(e)
  {
    exists c: Choice ::
      Chosen(c) && c.x == Input(objects, Some(c.kept), aliases, entry, forced) && (Fits(c, e) ==> Refused(c, e))
  }

  /**
   link up to relocation: selection, liveness, layout and symbols, one after the other. It fails
   exactly when selection does or the sections it chose are refused, if what is synthesized fits.
   */
  method LinkSymbols(objects: seq<Object>, aliases: Aliases, entry: string, forced: seq<string>, e: Extras,
          extra: Globals)
    returns (r: Result<Link>)
    requires Sized(objects) && ExtrasOk(e)
    ensures r.Ok? ==> LinkOk(r.value) && r.value.c.x == Input(objects, Some(r.value.c.kept), aliases, entry, forced)
    ensures r.Ok? ==> SectionOrder.ImageOrder(r.value.outs)
    ensures r.Ok? ==> r.value.e == e && r.value.extra == extra && (Fits(r.value.c, e) ==> !Refused(r.value.c, e))
    ensures r.Err? ==> !Selectable(objects) || FailsAfter(objects, aliases, entry, forced, e)
  {
    var choice := Choose(objects, aliases, entry, forced);
    if choice.Err? { return Err(choice.message); }
    var c := choice.value;
    var refused := FindDescriptor(c);
    if refused { return Err("GNU-style import descriptors (.idata$2) are not supported"); }
    var outs, placements, s := LayOut(objects, Placed(c), e);
    assert Arranged(c, e, outs, placements, s);
    if Fits(c, e) { LayoutRefused(c, e, outs, placements, s); }
    if outs == [] { return Err("link produced no image sections"); }
    var globals := CollectGlobals(objects, placements);
    if globals.Err? { return Err(globals.message); }
    r := Ok(Link(c, e, outs, placements, s, globals.value, extra));
  }

  // ---------- placed sections are live ----------

  lemma PlacedIsLive(c: Choice, r: Ref)
    requires Chosen(c) && IsPlaced(c, r)
    ensures r in c.live
  {
    if !IsComdat(At(c.x.objects, r)) { assert IsRoot(c.x, c.defs, r); }
  }

  /** Live sections are placed, so liveness never leaves a reference to a section without a place. */
  lemma LiveIsPlaced(c: Choice, r: Ref)
    requires Chosen(c) && r in c.live
    ensures IsPlaced(c, r)
  {
    assert Eligible(c.x, r);
  }

  lemma NameUnaliased(aliases: Aliases, name: string)
    requires name !in aliases
    ensures Resolved(aliases, name) == name
  {
  }

  // ---------- names ----------

  function AllGlobals(l: Link): Globals {
    l.extra + l.globals
  }

  function ResolveRef(l: Link, o: nat, index: int): Result<Target>
    requires o < |l.c.x.objects|
  {
    Symbols.Resolve(l.c.x.objects, l.placements, AllGlobals(l), l.c.x.aliases, o, index, |l.c.x.objects[o].symbols|)
  }

  /** The reference by name that relocation resolution makes for this symbol. */
  ghost predicate ByName(c: Choice, symbol: Symbol) {
    && symbol.name != "" && symbol.name !in c.x.aliases
    && if symbol.sectionNumber == 0 then symbol.name != "__ImageBase"
      else symbol.sectionNumber > 0 && symbol.storageClass == ExternalClass
  }

  ghost predicate IsDefinitionOf(l: Link, name: string, a: Address) {
    exists o, sy :: PlacedDef(l.c.x.objects, l.placements, o, sy, name, a)
  }

  /** Symbol (`o`, `sy`) is an external definition of `name` in section `q`. */
  predicate DefinedAt(objects: seq<Object>, o: int, sy: int, name: string, q: Ref) {
    && 0 <= o < |objects| && 0 <= sy < |objects[o].symbols|
    && var symbol := objects[o].symbols[sy];
       name != "" && symbol.name == name && symbol.storageClass == ExternalClass && symbol.sectionNumber > 0
         && q == Ref(o, symbol.sectionNumber - 1)
  }

  /** Some placed section of an occupied output defines the name. */
  ghost predicate Defined(c: Choice, e: Extras, name: string) {
    exists o, sy, q :: DefinedAt(c.x.objects, o, sy, name, q) && HasRoom(c, e, q)
  }

  /** A section has an address exactly when it is placed and its output is occupied. */
  lemma PlacementsExact(l: Link, q: Ref)
    requires LinkOk(l) && Fits(l.c, l.e)
    ensures q in l.placements <==> HasRoom(l.c, l.e, q)
  {
  }

  lemma DefinitionPlaced(objects: seq<Object>, placements: map<Ref, Address>, globals: Globals, o: int, sy: int,
          name: string, q: Ref)
    requires GlobalsUpTo(objects, placements, globals, |objects|, 0) && DefinedAt(objects, o, sy, name, q)
    requires q in placements
    ensures name in globals
  {
    var a := Address(placements[q].output, placements[q].offset + objects[o].symbols[sy].value);
    assert PlacedDef(objects, placements, o, sy, name, a);
    assert Earlier(o, sy, |objects|, 0);
  }

  lemma GlobalMeansDefined(l: Link, name: string)
    requires LinkOk(l) && Fits(l.c, l.e)
    ensures name in l.globals <==> Defined(l.c, l.e, name)
    ensures name in l.globals ==> IsDefinitionOf(l, name, l.globals[name])
  {
    if name in l.globals {
      assert DefinedBefore(l.c.x.objects, l.placements, name, l.globals[name], |l.c.x.objects|, 0);
      var o, sy :| PlacedDef(l.c.x.objects, l.placements, o, sy, name, l.globals[name])
        && Earlier(o, sy, |l.c.x.objects|, 0);
      var q := Ref(o, l.c.x.objects[o].symbols[sy].sectionNumber - 1);
      PlacementsExact(l, q);
      assert DefinedAt(l.c.x.objects, o, sy, name, q) && HasRoom(l.c, l.e, q);
    }
    if o, sy, q :| DefinedAt(l.c.x.objects, o, sy, name, q) && HasRoom(l.c, l.e, q) {
      PlacementsExact(l, q);
      DefinitionPlaced(l.c.x.objects, l.placements, l.globals, o, sy, name, q);
    }
  }

  lemma DefinitionMeansDefined(l: Link, name: string, a: Address)
    requires LinkOk(l) && Fits(l.c, l.e) && IsDefinitionOf(l, name, a)
    ensures Defined(l.c, l.e, name)
  {
    var o, sy :| PlacedDef(l.c.x.objects, l.placements, o, sy, name, a);
    var q := Ref(o, l.c.x.objects[o].symbols[sy].sectionNumber - 1);
    PlacementsExact(l, q);
    assert DefinedAt(l.c.x.objects, o, sy, name, q) && HasRoom(l.c, l.e, q);
  }

  function OwnSection(o: nat, symbol: Symbol): Ref {
    Ref(o, if symbol.sectionNumber > 0 then symbol.sectionNumber - 1 else 0)
  }

  /** The branches of resolution for a reference by name: the own copy, a global, or a weak fallback. */
  lemma ResolveCases(l: Link, o: nat, index: nat)
    requires o < |l.c.x.objects| && index < |l.c.x.objects[o].symbols| && ByName(l.c, l.c.x.objects[o].symbols[index])
    ensures var symbol, t := l.c.x.objects[o].symbols[index], ResolveRef(l, o, index); var r := OwnSection(o, symbol);
      if symbol.sectionNumber > 0 && r in l.placements
        then t.Ok? && t.value.SectionTarget? && IsDefinitionOf(l, symbol.name, t.value.address)
      else if symbol.name in l.globals then t == Ok(SectionTarget(l.globals[symbol.name]))
      else if symbol.name in l.extra then t == Ok(SectionTarget(l.extra[symbol.name]))
      else symbol.storageClass != WeakClass ==> t.Err?
  {
    var symbol := l.c.x.objects[o].symbols[index];
    var r := OwnSection(o, symbol);
    if symbol.sectionNumber > 0 && r in l.placements {
      var a := Address(l.placements[r].output, l.placements[r].offset + symbol.value);
      assert PlacedDef(l.c.x.objects, l.placements, o, index, symbol.name, a);
    }
  }

  /** An own copy with an address is a placed definition. */
  lemma OwnCopyDefines(l: Link, o: nat, index: nat)
    requires LinkOk(l) && Fits(l.c, l.e) && o < |l.c.x.objects| && index < |l.c.x.objects[o].symbols|
    requires ByName(l.c, l.c.x.objects[o].symbols[index])
    requires l.c.x.objects[o].symbols[index].sectionNumber > 0
    requires Ref(o, l.c.x.objects[o].symbols[index].sectionNumber - 1) in l.placements
    ensures Defined(l.c, l.e, l.c.x.objects[o].symbols[index].name)
  {
    var symbol := l.c.x.objects[o].symbols[index];
    var q := Ref(o, symbol.sectionNumber - 1);
    PlacementsExact(l, q);
    assert DefinedAt(l.c.x.objects, o, index, symbol.name, q) && HasRoom(l.c, l.e, q);
  }

  /**
   A reference by name resolves to a placed definition of that name if and only if a placed
   section of an occupied output defines it. Otherwise it can only resolve to a common symbol or
   import of that name.
   */
  lemma ResolvesIffDefined(l: Link, o: nat, index: nat)
    requires LinkOk(l) && Fits(l.c, l.e) && o < |l.c.x.objects| && index < |l.c.x.objects[o].symbols|
    requires ByName(l.c, l.c.x.objects[o].symbols[index])
    ensures var name, t := l.c.x.objects[o].symbols[index].name, ResolveRef(l, o, index);
      && (t.Ok? && t.value.SectionTarget? && IsDefinitionOf(l, name, t.value.address) <==> Defined(l.c, l.e, name))
      && (!Defined(l.c, l.e, name) && name in l.extra ==> t == Ok(SectionTarget(l.extra[name])))
      && (!Defined(l.c, l.e, name) && name !in l.extra && l.c.x.objects[o].symbols[index].storageClass != WeakClass ==>
            t.Err?)
  {
    var name, t := l.c.x.objects[o].symbols[index].name, ResolveRef(l, o, index);
    GlobalMeansDefined(l, name);
    ResolveCases(l, o, index);
    var symbol := l.c.x.objects[o].symbols[index];
    if symbol.sectionNumber > 0 && OwnSection(o, symbol) in l.placements { OwnCopyDefines(l, o, index); }
    if t.Ok? && t.value.SectionTarget? && IsDefinitionOf(l, name, t.value.address) {
      DefinitionMeansDefined(l, name, t.value.address);
    }
  }

  // ---------- what liveness guarantees ----------

  /**
   The section that liveness follows for this symbol: its own if eligible, else the first surviving
   definition of the name.
   */
  ghost function Followed(c: Choice, o: nat, symbol: Symbol): Option<Ref> {
    if symbol.sectionNumber > 0 && Eligible(c.x, Ref(o, symbol.sectionNumber - 1))
      then Some(Ref(o, symbol.sectionNumber - 1))
    else if symbol.name in c.defs then Some(c.defs[symbol.name])
    else None
  }

  /** A name with any surviving definition has a followed section. */
  lemma SurvivingIsFollowed(c: Choice, o: nat, symbol: Symbol, fo: int, fs: int, q: Ref)
    requires Chosen(c) && DefinesIn(c.x, fo, fs, symbol.name, q)
    ensures Followed(c, o, symbol).Some?
  {
    assert Earlier(fo, fs, |c.x.objects|, 0);
  }

  /** The symbol that relocation `k` of section `r` refers to, when it refers to it by name. */
  ghost predicate Refers(c: Choice, r: Ref, k: nat) {
    && Exists(c.x.objects, r) && k < |At(c.x.objects, r).relocations|
    && var index := At(c.x.objects, r).relocations[k].symbol;
       0 <= index < |c.x.objects[r.obj].symbols| && ByName(c, c.x.objects[r.obj].symbols[index])
  }

  ghost function Referred(c: Choice, r: Ref, k: nat): Symbol
    requires Refers(c, r, k)
  {
    c.x.objects[r.obj].symbols[At(c.x.objects, r).relocations[k].symbol]
  }

  /** Whatever a placed section refers to by name is placed too. */
  lemma FollowedIsPlaced(c: Choice, r: Ref, k: nat)
    requires Chosen(c) && IsPlaced(c, r) && Refers(c, r, k)
    ensures var followed := Followed(c, r.obj, Referred(c, r, k)); followed.Some? ==> IsPlaced(c, followed.value)
  {
    var relocation, symbol := At(c.x.objects, r).relocations[k], Referred(c, r, k);
    PlacedIsLive(c, r);
    NameUnaliased(c.x.aliases, symbol.name);
    if Followed(c, r.obj, symbol).Some? {
      var d := Followed(c, r.obj, symbol).value;
      assert d in Liveness.Targets(c.x, c.defs, r.obj, relocation);
      assert Relocates(c.x, c.defs, r, d);
      assert Edge(c.x, c.defs, r, d);
      LiveIsPlaced(c, d);
    }
  }

  /** The followed section holds an external definition of the name. */
  lemma FollowedDefines(c: Choice, r: Ref, k: nat)
    requires Chosen(c) && Refers(c, r, k) && Followed(c, r.obj, Referred(c, r, k)).Some?
    ensures exists o, sy ::
      DefinedAt(c.x.objects, o, sy, Referred(c, r, k).name, Followed(c, r.obj, Referred(c, r, k)).value)
  {
    var symbol := Referred(c, r, k);
    var d := Followed(c, r.obj, symbol).value;
    if symbol.sectionNumber > 0 && Eligible(c.x, Ref(r.obj, symbol.sectionNumber - 1)) {
      assert DefinedAt(c.x.objects, r.obj, At(c.x.objects, r).relocations[k].symbol, symbol.name, d);
    } else {
      assert FirstDef(c.x, symbol.name, d, |c.x.objects|, 0);
      var fo, fs :| FirstDefAt(c.x, symbol.name, d, fo, fs) && Earlier(fo, fs, |c.x.objects|, 0);
      assert DefinedAt(c.x.objects, fo, fs, symbol.name, d);
    }
  }

  /**
   Reference safety: a relocation of a placed section whose target name has no alternate name and
   a surviving definition resolves to a placed definition of that name, also when its own object's
   copy was discarded, provided the output of the section that liveness follows is occupied.
   */
  lemma ReferenceIsSafe(l: Link, r: Ref, k: nat, fo: int, fs: int, q: Ref)
    requires LinkOk(l) && Fits(l.c, l.e) && IsPlaced(l.c, r) && Refers(l.c, r, k)
    requires DefinesIn(l.c.x, fo, fs, Referred(l.c, r, k).name, q)
    requires Followed(l.c, r.obj, Referred(l.c, r, k)).Some? ==>
      OutputOccupied(l.c, l.e, Followed(l.c, r.obj, Referred(l.c, r, k)).value)
    ensures var t := ResolveRef(l, r.obj, At(l.c.x.objects, r).relocations[k].symbol);
      t.Ok? && t.value.SectionTarget? && IsDefinitionOf(l, Referred(l.c, r, k).name, t.value.address)
  {
    var symbol := Referred(l.c, r, k);
    SurvivingIsFollowed(l.c, r.obj, symbol, fo, fs, q);
    FollowedIsPlaced(l.c, r, k);
    FollowedDefines(l.c, r, k);
    var d := Followed(l.c, r.obj, symbol).value;
    var o, sy :| DefinedAt(l.c.x.objects, o, sy, symbol.name, d);
    assert HasRoom(l.c, l.e, d);
    ResolvesIffDefined(l, r.obj, At(l.c.x.objects, r).relocations[k].symbol);
  }
}
