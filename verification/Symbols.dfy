/** Global symbols and relocation targets, after sections have been placed. */
module Symbols {
  import opened Basics
  import opened Coff
  import opened Aliases
  import opened Targets

  // ---------- definitions ----------

  /** Symbol (`o`, `sy`) is an external definition of `name` in a placed section, at address `a`. */
  predicate PlacedDef(objects: seq<Object>, placements: map<Ref, Address>, o: int, sy: int, name: string, a: Address) {
    && 0 <= o < |objects| && 0 <= sy < |objects[o].symbols|
    && var symbol := objects[o].symbols[sy];
       && name != "" && symbol.name == name && symbol.storageClass == ExternalClass && symbol.sectionNumber > 0
       && var r := Ref(o, symbol.sectionNumber - 1);
          r in placements && a == Address(placements[r].output, placements[r].offset + symbol.value)
  }

  /** The names defined before (`o`, `sy`), each at the address of one of its placed definitions. */
  ghost predicate GlobalsUpTo(objects: seq<Object>, placements: map<Ref, Address>, globals: map<string, Address>,
          o: int, sy: int) {
    && (forall o', sy', name, a :: PlacedDef(objects, placements, o', sy', name, a) && Earlier(o', sy', o, sy) ==>
          name in globals)
    && (forall name :: name in globals ==> DefinedBefore(objects, placements, name, globals[name], o, sy))
  }

  ghost predicate DefinedBefore(objects: seq<Object>, placements: map<Ref, Address>, name: string, a: Address, o: int,
          sy: int) {
    exists o', sy' :: PlacedDef(objects, placements, o', sy', name, a) && Earlier(o', sy', o, sy)
  }

  lemma DefinedLater(objects: seq<Object>, placements: map<Ref, Address>, globals: map<string, Address>, o: int,
          sy: int, o': int, sy': int)
    requires GlobalsUpTo(objects, placements, globals, o, sy) && (o < o' || (o == o' && sy <= sy'))
    ensures forall name :: name in globals ==> DefinedBefore(objects, placements, name, globals[name], o', sy')
  {
    forall n | n in globals ensures DefinedBefore(objects, placements, n, globals[n], o', sy') {
      var fo, fs :| PlacedDef(objects, placements, fo, fs, n, globals[n]) && Earlier(fo, fs, o, sy);
      assert Earlier(fo, fs, o', sy');
    }
  }

  lemma DefineNext(objects: seq<Object>, placements: map<Ref, Address>, globals: map<string, Address>, o: int, sy: int,
          name: string, a: Address)
    requires GlobalsUpTo(objects, placements, globals, o, sy) && PlacedDef(objects, placements, o, sy, name, a)
    ensures GlobalsUpTo(objects, placements, globals[name := a], o, sy + 1)
    ensures name in globals ==> GlobalsUpTo(objects, placements, globals, o, sy + 1)
  {
    DefinedLater(objects, placements, globals, o, sy, o, sy + 1);
    assert DefinedBefore(objects, placements, name, a, o, sy + 1) by { assert Earlier(o, sy, o, sy + 1); }
  }

  // ---------- which definition prevails ----------

  type Globals = map<string, Address>

  /** The symbol is defined in a section that is not a COMDAT. */
  predicate Regular(objects: seq<Object>, o: int, sy: int) {
    && 0 <= o < |objects| && 0 <= sy < |objects[o].symbols|
    && 0 < objects[o].symbols[sy].sectionNumber <= |objects[o].sections|
    && !IsComdat(objects[o].sections[objects[o].symbols[sy].sectionNumber - 1])
  }

  /**
   Among the definitions of `name` before (`o`, `sy`), the one at (`fo`, `fs`) prevails: it is
   regular or, when none is, the first.
   */
  ghost predicate PrevailsAt(objects: seq<Object>, placements: map<Ref, Address>, name: string, a: Address, o: int,
          sy: int, fo: int, fs: int) {
    && PlacedDef(objects, placements, fo, fs, name, a) && Earlier(fo, fs, o, sy)
    && (Regular(objects, fo, fs) ||
        forall p, q, b :: PlacedDef(objects, placements, p, q, name, b) && Earlier(p, q, o, sy) ==>
          !Regular(objects, p, q) && !Earlier(p, q, fo, fs))
  }

  ghost predicate Prevails(objects: seq<Object>, placements: map<Ref, Address>, name: string, a: Address, o: int,
          sy: int, comdat: bool) {
    exists fo, fs :: PrevailsAt(objects, placements, name, a, o, sy, fo, fs) && Regular(objects, fo, fs) == !comdat
  }

  /** No name has two regular definitions before (`o`, `sy`). */
  ghost predicate NoClash(objects: seq<Object>, placements: map<Ref, Address>, o: int, sy: int) {
    forall p, q, p', q', name ::
      RegularDef(objects, placements, p, q, name, o, sy) && RegularDef(objects, placements, p', q', name, o, sy) ==>
        p == p' && q == q'
  }

  /** (`p`, `q`) is a regular definition of `name` before (`o`, `sy`). */
  ghost predicate RegularDef(objects: seq<Object>, placements: map<Ref, Address>, p: int, q: int, name: string, o: int,
          sy: int) {
    Regular(objects, p, q) && Earlier(p, q, o, sy) && exists a :: PlacedDef(objects, placements, p, q, name, a)
  }

  /** `globals` and `comdat` describe the prevailing definitions before (`o`, `sy`). */
  ghost predicate Tracked(objects: seq<Object>, placements: map<Ref, Address>, globals: Globals,
          comdat: map<string, bool>, o: int, sy: int) {
    && GlobalsUpTo(objects, placements, globals, o, sy) && comdat.Keys == globals.Keys
    && NoClash(objects, placements, o, sy)
    && AllPrevail(objects, placements, globals, comdat, o, sy)
  }

  ghost predicate AllPrevail(objects: seq<Object>, placements: map<Ref, Address>, globals: Globals,
          comdat: map<string, bool>, o: int, sy: int) {
    forall name :: name in globals && name in comdat ==>
      Prevails(objects, placements, name, globals[name], o, sy, comdat[name])
  }

  /** What prevails goes on to prevail until a regular definition follows a COMDAT one. */
  lemma PrevailsOn(objects: seq<Object>, placements: map<Ref, Address>, name: string, a: Address, comdat: bool, o: int,
          sy: int, o': int, sy': int)
    requires Prevails(objects, placements, name, a, o, sy, comdat) && (o < o' || (o == o' && sy <= sy'))
    requires forall p, q, b ::
      comdat && PlacedDef(objects, placements, p, q, name, b) && Earlier(p, q, o', sy') && Regular(objects, p, q) ==>
        Earlier(p, q, o, sy)
    ensures Prevails(objects, placements, name, a, o', sy', comdat)
  {
    var fo, fs :| PrevailsAt(objects, placements, name, a, o, sy, fo, fs) && Regular(objects, fo, fs) == !comdat;
    assert PrevailsAt(objects, placements, name, a, o', sy', fo, fs);
  }

  /** Symbols that define nothing change nothing. */
  lemma TrackedOn(objects: seq<Object>, placements: map<Ref, Address>, globals: Globals, comdat: map<string, bool>,
          o: int, sy: int, o': int, sy': int)
    requires Tracked(objects, placements, globals, comdat, o, sy) && (o < o' || (o == o' && sy <= sy'))
    requires forall p, q, name, b :: PlacedDef(objects, placements, p, q, name, b) && Earlier(p, q, o', sy') ==>
      Earlier(p, q, o, sy)
    ensures Tracked(objects, placements, globals, comdat, o', sy')
  {
    DefinedLater(objects, placements, globals, o, sy, o', sy');
    assert forall p, q, name :: RegularDef(objects, placements, p, q, name, o', sy') ==>
      RegularDef(objects, placements, p, q, name, o, sy);
    forall n | n in globals ensures Prevails(objects, placements, n, globals[n], o', sy', comdat[n]) {
      PrevailsOn(objects, placements, n, globals[n], comdat[n], o, sy, o', sy');
    }
  }

  /** The definition at (`o`, `sy`) concerns only its own name. */
  lemma OthersPrevail(objects: seq<Object>, placements: map<Ref, Address>, globals: Globals, comdat: map<string, bool>,
          o: int, sy: int, name: string, a: Address, b: Address, c: bool)
    requires AllPrevail(objects, placements, globals, comdat, o, sy) && PlacedDef(objects, placements, o, sy, name, a)
    requires Prevails(objects, placements, name, b, o, sy + 1, c)
    ensures AllPrevail(objects, placements, globals[name := b], comdat[name := c], o, sy + 1)
  {
    forall n | n in globals && n in comdat && n != name
      ensures Prevails(objects, placements, n, globals[n], o, sy + 1, comdat[n]) {
      PrevailsOn(objects, placements, n, globals[n], comdat[n], o, sy, o, sy + 1);
    }
  }

  /** A definition that is not a second regular one causes no clash. */
  lemma NoClashNext(objects: seq<Object>, placements: map<Ref, Address>, o: int, sy: int, name: string, a: Address)
    requires NoClash(objects, placements, o, sy) && PlacedDef(objects, placements, o, sy, name, a)
    requires Regular(objects, o, sy) ==> forall p, q :: !RegularDef(objects, placements, p, q, name, o, sy)
    ensures NoClash(objects, placements, o, sy + 1)
  {
    var next := sy + 1;
    forall p, q, p', q', n | RegularDef(objects, placements, p, q, n, o, next)
      && RegularDef(objects, placements, p', q', n, o, next)
      ensures p == p' && q == q'
    {
      assert (p == o && q == sy) || RegularDef(objects, placements, p, q, n, o, sy);
      assert (p' == o && q' == sy) || RegularDef(objects, placements, p', q', n, o, sy);
    }
  }

  /** A name known by a COMDAT definition, or unknown, has no regular definition yet. */
  lemma NoRegularYet(objects: seq<Object>, placements: map<Ref, Address>, globals: Globals, comdat: map<string, bool>,
          o: int, sy: int, name: string)
    requires Tracked(objects, placements, globals, comdat, o, sy) && (name in globals ==> comdat[name])
    ensures forall p, q :: !RegularDef(objects, placements, p, q, name, o, sy)
  {
    if name in globals {
      var fo, fs :| PrevailsAt(objects, placements, name, globals[name], o, sy, fo, fs)
        && Regular(objects, fo, fs) == !comdat[name];
    }
  }

  /** The first definition of a name, or its first regular one, prevails. */
  lemma NewcomerPrevails(objects: seq<Object>, placements: map<Ref, Address>, globals: Globals, o: int, sy: int,
          name: string, a: Address)
    requires GlobalsUpTo(objects, placements, globals, o, sy) && PlacedDef(objects, placements, o, sy, name, a)
    requires name in globals ==> Regular(objects, o, sy)
    ensures Prevails(objects, placements, name, a, o, sy + 1, !Regular(objects, o, sy))
  {
    assert PrevailsAt(objects, placements, name, a, o, sy + 1, o, sy);
  }

  /** The definition at (`o`, `sy`) becomes the prevailing one: the first of its name, or the first regular one. */
  lemma TakesOver(objects: seq<Object>, placements: map<Ref, Address>, globals: Globals, comdat: map<string, bool>,
          o: int, sy: int, name: string, a: Address)
    requires Tracked(objects, placements, globals, comdat, o, sy) && PlacedDef(objects, placements, o, sy, name, a)
    requires name in globals ==> comdat[name] && Regular(objects, o, sy)
    ensures Tracked(objects, placements, globals[name := a], comdat[name := !Regular(objects, o, sy)], o, sy + 1)
  {
    DefineNext(objects, placements, globals, o, sy, name, a);
    NoRegularYet(objects, placements, globals, comdat, o, sy, name);
    NoClashNext(objects, placements, o, sy, name, a);
    NewcomerPrevails(objects, placements, globals, o, sy, name, a);
    OthersPrevail(objects, placements, globals, comdat, o, sy, name, a, a, !Regular(objects, o, sy));
  }

  /** A COMDAT definition does not displace what prevails. */
  lemma AllStillPrevail(objects: seq<Object>, placements: map<Ref, Address>, globals: Globals,
          comdat: map<string, bool>, o: int, sy: int)
    requires AllPrevail(objects, placements, globals, comdat, o, sy) && !Regular(objects, o, sy)
    ensures AllPrevail(objects, placements, globals, comdat, o, sy + 1)
  {
    forall n | n in globals && n in comdat ensures Prevails(objects, placements, n, globals[n], o, sy + 1, comdat[n]) {
      PrevailsOn(objects, placements, n, globals[n], comdat[n], o, sy, o, sy + 1);
    }
  }

  /** A COMDAT definition of a known name is ignored. */
  lemma Ignored(objects: seq<Object>, placements: map<Ref, Address>, globals: Globals, comdat: map<string, bool>,
          o: int, sy: int, name: string, a: Address)
    requires Tracked(objects, placements, globals, comdat, o, sy) && PlacedDef(objects, placements, o, sy, name, a)
    requires name in globals && !Regular(objects, o, sy)
    ensures Tracked(objects, placements, globals, comdat, o, sy + 1)
  {
    DefineNext(objects, placements, globals, o, sy, name, a);
    NoClashNext(objects, placements, o, sy, name, a);
    AllStillPrevail(objects, placements, globals, comdat, o, sy);
  }

  /** A second regular definition is a clash. */
  lemma Clashes(objects: seq<Object>, placements: map<Ref, Address>, globals: Globals, comdat: map<string, bool>,
          o: int, sy: int, name: string, a: Address)
    requires Tracked(objects, placements, globals, comdat, o, sy) && PlacedDef(objects, placements, o, sy, name, a)
    requires name in globals && !comdat[name] && Regular(objects, o, sy)
    ensures !NoClash(objects, placements, o, sy + 1)
  {
    var fo, fs :| PrevailsAt(objects, placements, name, globals[name], o, sy, fo, fs)
      && Regular(objects, fo, fs) == !comdat[name];
    assert RegularDef(objects, placements, o, sy, name, o, sy + 1)
      && RegularDef(objects, placements, fo, fs, name, o, sy + 1);
  }

  /** A symbol of a section that does not exist makes the link fail. */
  predicate BadSymbol(objects: seq<Object>, o: int, sy: int) {
    && 0 <= o < |objects| && 0 <= sy < |objects[o].symbols|
    && objects[o].symbols[sy].name != "" && objects[o].symbols[sy].sectionNumber > |objects[o].sections|
  }

  /** One symbol of the loop below. A non-COMDAT definition replaces a COMDAT one; two non-COMDAT ones clash. */
  method DefineSymbol(objects: seq<Object>, placements: map<Ref, Address>, o: nat, sy: nat, globals: Globals,
          comdat: map<string, bool>)
    returns (r: Result<(Globals, map<string, bool>)>)
    requires o < |objects| && sy < |objects[o].symbols| && Tracked(objects, placements, globals, comdat, o, sy)
    ensures r.Ok? ==> Tracked(objects, placements, r.value.0, r.value.1, o, sy + 1) && !BadSymbol(objects, o, sy)
    ensures r.Err? ==> BadSymbol(objects, o, sy) || !NoClash(objects, placements, o, sy + 1)
  {
    var symbol := objects[o].symbols[sy];
    if symbol.name == "" || symbol.sectionNumber <= 0 {
      TrackedOn(objects, placements, globals, comdat, o, sy, o, sy + 1);
      return Ok((globals, comdat));
    }
    if symbol.sectionNumber > |objects[o].sections| {
      return Err("symbol references invalid COFF section: " + symbol.name);
    }
    var ref := Ref(o, symbol.sectionNumber - 1);
    if ref !in placements || symbol.storageClass != ExternalClass {
      TrackedOn(objects, placements, globals, comdat, o, sy, o, sy + 1);
      return Ok((globals, comdat));
    }
    var a := Address(placements[ref].output, placements[ref].offset + symbol.value);
    var current := IsComdat(objects[o].sections[ref.sec]);
    assert PlacedDef(objects, placements, o, sy, symbol.name, a) && current == !Regular(objects, o, sy);
    if symbol.name !in globals {
      TakesOver(objects, placements, globals, comdat, o, sy, symbol.name, a);
      return Ok((globals[symbol.name := a], comdat[symbol.name := current]));
    }
    if !comdat[symbol.name] && !current {
      Clashes(objects, placements, globals, comdat, o, sy, symbol.name, a);
      return Err("duplicate external symbol: " + symbol.name);
    }
    if comdat[symbol.name] && !current {
      TakesOver(objects, placements, globals, comdat, o, sy, symbol.name, a);
      return Ok((globals[symbol.name := a], comdat[symbol.name := false]));
    }
    Ignored(objects, placements, globals, comdat, o, sy, symbol.name, a);
    r := Ok((globals, comdat));
  }

  lemma ClashStays(objects: seq<Object>, placements: map<Ref, Address>, o: int, sy: int)
    requires 0 <= o < |objects| && NoClash(objects, placements, |objects|, 0)
    ensures NoClash(objects, placements, o, sy)
  {
    assert forall p, q, name :: RegularDef(objects, placements, p, q, name, o, sy) ==>
      RegularDef(objects, placements, p, q, name, |objects|, 0);
  }

  /** No symbol names a missing section. */
  ghost predicate AllNamed(objects: seq<Object>) {
    forall o, sy :: !BadSymbol(objects, o, sy)
  }

  /** No symbol before (`o`, `sy`) names a missing section. */
  ghost predicate NamedBefore(objects: seq<Object>, o: int, sy: int) {
    forall o', sy' :: BadSymbol(objects, o', sy') ==> !Earlier(o', sy', o, sy)
  }

  /** The symbols can be collected: exactly then the loop below succeeds. */
  ghost predicate Collectable(objects: seq<Object>, placements: map<Ref, Address>) {
    NoClash(objects, placements, |objects|, 0) && AllNamed(objects)
  }

  lemma Uncollectable(objects: seq<Object>, placements: map<Ref, Address>, o: nat, sy: nat)
    requires o < |objects| && (BadSymbol(objects, o, sy) || !NoClash(objects, placements, o, sy + 1))
    ensures !Collectable(objects, placements)
  {
    if NoClash(objects, placements, |objects|, 0) { ClashStays(objects, placements, o, sy + 1); }
  }

  lemma NextNamed(objects: seq<Object>, o: int, sy: int)
    requires NamedBefore(objects, o, sy) && !BadSymbol(objects, o, sy)
    ensures NamedBefore(objects, o, sy + 1)
  {
  }

  lemma NextObject(objects: seq<Object>, placements: map<Ref, Address>, globals: Globals, comdat: map<string, bool>,
          o: nat)
    requires o < |objects| && Tracked(objects, placements, globals, comdat, o, |objects[o].symbols|)
    requires NamedBefore(objects, o, |objects[o].symbols|)
    ensures Tracked(objects, placements, globals, comdat, o + 1, 0) && NamedBefore(objects, o + 1, 0)
  {
    TrackedOn(objects, placements, globals, comdat, o, |objects[o].symbols|, o + 1, 0);
  }

  /** The symbols of one object. */
  method DefineObject(objects: seq<Object>, placements: map<Ref, Address>, o: nat, globals: Globals,
          comdat: map<string, bool>)
    returns (r: Result<(Globals, map<string, bool>)>)
    requires o < |objects| && Tracked(objects, placements, globals, comdat, o, 0) && NamedBefore(objects, o, 0)
    ensures r.Ok? ==> Tracked(objects, placements, r.value.0, r.value.1, o + 1, 0) && NamedBefore(objects, o + 1, 0)
    ensures r.Err? ==> !Collectable(objects, placements)
  {
    var known, flags := globals, comdat;
    for sy := 0 to |objects[o].symbols|
      invariant Tracked(objects, placements, known, flags, o, sy) && NamedBefore(objects, o, sy)
    {
      var next := DefineSymbol(objects, placements, o, sy, known, flags);
      if next.Err? {
        Uncollectable(objects, placements, o, sy);
        return next;
      }
      NextNamed(objects, o, sy);
      known, flags := next.value.0, next.value.1;
    }
    NextObject(objects, placements, known, flags, o);
    r := Ok((known, flags));
  }

  /** Every name is given the definition that prevails over all objects. */
  ghost predicate AllPrevailing(objects: seq<Object>, placements: map<Ref, Address>, globals: Globals) {
    forall name :: name in globals ==>
      exists fo, fs :: PrevailsAt(objects, placements, name, globals[name], |objects|, 0, fo, fs)
  }

  lemma Finished(objects: seq<Object>, placements: map<Ref, Address>, globals: Globals, comdat: map<string, bool>)
    requires Tracked(objects, placements, globals, comdat, |objects|, 0) && NamedBefore(objects, |objects|, 0)
    ensures Collectable(objects, placements) && AllPrevailing(objects, placements, globals)
  {
    forall name | name in globals
      ensures exists fo, fs :: PrevailsAt(objects, placements, name, globals[name], |objects|, 0, fo, fs) {
      assert Prevails(objects, placements, name, globals[name], |objects|, 0, comdat[name]);
    }
    assert forall o, sy :: BadSymbol(objects, o, sy) ==> Earlier(o, sy, |objects|, 0);
  }

  lemma NothingYet(objects: seq<Object>, placements: map<Ref, Address>)
    ensures Tracked(objects, placements, map[], map[], 0, 0) && NamedBefore(objects, 0, 0)
  {
  }

  /**
   The symbol loop of link: fails exactly on a symbol of a missing section or on two regular
   definitions of one name, and otherwise gives every defined name its prevailing definition.
   */
  method CollectGlobals(objects: seq<Object>, placements: map<Ref, Address>) returns (r: Result<Globals>)
    ensures r.Ok? <==> Collectable(objects, placements)
    ensures r.Ok? ==>
      GlobalsUpTo(objects, placements, r.value, |objects|, 0) && AllPrevailing(objects, placements, r.value)
  {
    var globals: Globals := map[];
    var comdat: map<string, bool> := map[];
    NothingYet(objects, placements);
    for o := 0 to |objects|
      invariant Tracked(objects, placements, globals, comdat, o, 0) && NamedBefore(objects, o, 0)
    {
      var next := DefineObject(objects, placements, o, globals, comdat);
      if next.Err? { return Err(next.message); }
      globals, comdat := next.value.0, next.value.1;
    }
    Finished(objects, placements, globals, comdat);
    r := Ok(globals);
  }

  // ---------- resolution ----------

  /** resolve_global_alias: the name itself first, then its alternate names. */
  function ResolveGlobal(globals: map<string, Address>, aliases: Aliases, name: string,
          visited: set<string>): Option<Address>
    requires visited <= aliases.Keys
    decreases aliases.Keys - visited
  {
    if name in globals then Some(globals[name])
    else if name in visited || name !in aliases then None
    else ResolveGlobal(globals, aliases, aliases[name], visited + {name})
  }

  /**
   resolve, which follows weak externals to their fallback symbols. `steps` bounds the chain by
   the number of symbols: only a cycle of weak externals, which the linker would follow for ever,
   exceeds it.
   */
  function Resolve(objects: seq<Object>, placements: map<Ref, Address>, globals: Globals, aliases: Aliases, o: nat,
          index: int, steps: nat): Result<Target>
    requires o < |objects|
    decreases steps
  {
    var symbols := objects[o].symbols;
    if !(0 <= index < |symbols|) then Err("relocation symbol index exceeds COFF symbol table")
    else
      var symbol := symbols[index];
      if symbol.sectionNumber > 0 then
        var r := Ref(o, symbol.sectionNumber - 1);
        if symbol.name != "" && r in placements then
          Ok(SectionTarget(Address(placements[r].output, placements[r].offset + symbol.value)))
        else
          match ResolveGlobal(globals, aliases, symbol.name, {})
          case Some(a) => Ok(SectionTarget(a))
          case None => Err("reference to a discarded section definition: " + symbol.name)
      else if symbol.sectionNumber == -1 then Ok(AbsoluteTarget(symbol.value))
      else if symbol.sectionNumber == 0 then
        if symbol.name == "__ImageBase" then Ok(ImageBaseTarget)
        else
          match ResolveGlobal(globals, aliases, symbol.name, {})
          case Some(a) => Ok(SectionTarget(a))
          case None =>
            if symbol.storageClass == WeakClass && 0 <= symbol.weakDefault < |symbols| && symbol.weakDefault != index
              && steps > 0
            then Resolve(objects, placements, globals, aliases, o, symbol.weakDefault, steps - 1)
            else Err("unresolved external symbol: " + symbol.name)
      else Err("unsupported debug COFF symbol in relocation: " + symbol.name)
  }
}
