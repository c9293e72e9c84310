/**
 What every symbol of a link stands for, read off the symbol table: its own place, an absolute
 value, the image base, the global its name or an alternate name leads to, or a weak default.
 */
module SymbolMeaning {
  import opened Basics
  import opened Coff
  import opened Targets
  import opened Symbols
  import opened ReferenceSafety
  import opened Relocate
  import opened Fields
  import opened LinkedImage
  import Aliases

  // ---------- alternate names ----------

  /** Known after `n` alternate names and not before. */
  ghost predicate FirstKnown(globals: Globals, aliases: Aliases.Aliases, name: string, n: nat) {
    && Aliases.Follow(aliases, name, n) in globals
    && forall k: nat :: k < n ==> Aliases.Follow(aliases, name, k) !in globals
  }

  /** The name, or the first of its alternate names that is known, has this address. */
  ghost predicate LeadsTo(globals: Globals, aliases: Aliases.Aliases, name: string, a: Address) {
    exists n: nat :: FirstKnown(globals, aliases, name, n) && globals[Aliases.Follow(aliases, name, n)] == a
  }

  /** What has been visited by step `k`. */
  ghost predicate Behind(aliases: Aliases.Aliases, name: string, k: nat, visited: set<string>) {
    forall v :: v in visited ==> exists i: nat :: i < k && Aliases.Follow(aliases, name, i) == v
  }

  /** A chain that comes back to a name it has met never gets to a known one. */
  lemma NoReturn(globals: Globals, aliases: Aliases.Aliases, name: string, i: nat, j: nat, n: nat)
    requires i < j <= n && Aliases.Follow(aliases, name, i) == Aliases.Follow(aliases, name, j)
    ensures !FirstKnown(globals, aliases, name, n)
  {
    Aliases.FollowMore(aliases, name, i, n - j);
    Aliases.FollowMore(aliases, name, j, n - j);
    assert Aliases.Follow(aliases, name, i + (n - j)) == Aliases.Follow(aliases, name, n);
  }

  lemma NextName(aliases: Aliases.Aliases, name: string, k: nat)
    ensures var current := Aliases.Follow(aliases, name, k);
      Aliases.Follow(aliases, name, k + 1) == if current in aliases then aliases[current] else current
  {
    Aliases.FollowMore(aliases, name, k, 1);
  }

  /** The search from the `k`-th name on finds the first known name, if there is one. */
  lemma {:induction false} Finds(globals: Globals, aliases: Aliases.Aliases, name: string, k: nat, n: nat,
          visited: set<string>)
    requires k <= n && FirstKnown(globals, aliases, name, n) && visited <= aliases.Keys
    requires Behind(aliases, name, k, visited)
    ensures ResolveGlobal(globals, aliases, Aliases.Follow(aliases, name, k), visited) ==
      Some(globals[Aliases.Follow(aliases, name, n)])
    decreases n - k
  {
    if k < n {
      var current := Aliases.Follow(aliases, name, k);
      if current in visited {
        var i: nat :| i < k && Aliases.Follow(aliases, name, i) == current;
        NoReturn(globals, aliases, name, i, k, n);
      }
      NextName(aliases, name, k);
      if current !in aliases { NoReturn(globals, aliases, name, k, k + 1, n); }
      Finds(globals, aliases, name, k + 1, n, visited + {current});
    }
  }

  /** Whatever the search finds is the first known name. */
  lemma {:induction false} Found(globals: Globals, aliases: Aliases.Aliases, name: string, k: nat, visited: set<string>)
    returns (n: nat)
    requires visited <= aliases.Keys && forall i: nat :: i < k ==> Aliases.Follow(aliases, name, i) !in globals
    requires ResolveGlobal(globals, aliases, Aliases.Follow(aliases, name, k), visited).Some?
    ensures FirstKnown(globals, aliases, name, n)
    decreases aliases.Keys - visited
  {
    var current := Aliases.Follow(aliases, name, k);
    n := k;
    if current !in globals {
      NextName(aliases, name, k);
      n := Found(globals, aliases, name, k + 1, visited + {current});
    }
  }

  /** Resolution by name finds an address if and only if the name or one of its alternate names is known. */
  lemma ResolvesByName(globals: Globals, aliases: Aliases.Aliases, name: string, a: Address)
    ensures ResolveGlobal(globals, aliases, name, {}) == Some(a) <==> LeadsTo(globals, aliases, name, a)
  {
    if LeadsTo(globals, aliases, name, a) {
      var n: nat :| FirstKnown(globals, aliases, name, n) && globals[Aliases.Follow(aliases, name, n)] == a;
      Finds(globals, aliases, name, 0, n, {});
    } else if ResolveGlobal(globals, aliases, name, {}) == Some(a) {
      var n := Found(globals, aliases, name, 0, {});
      Finds(globals, aliases, name, 0, n, {});
    }
  }

  // ---------- weak defaults ----------

  /** Resolution of a symbol of one object with a bounded chain of defaults. */
  function Within(l: Link, o: nat, index: int, steps: nat): Result<Target>
    requires o < |l.c.x.objects|
  {
    Symbols.Resolve(l.c.x.objects, l.placements, AllGlobals(l), l.c.x.aliases, o, index, steps)
  }

  /** This symbol has no meaning of its own and passes on to its default. */
  ghost predicate PassesOn(l: Link, o: nat, index: int)
    requires o < |l.c.x.objects|
  {
    var symbols := l.c.x.objects[o].symbols;
    && 0 <= index < |symbols| && symbols[index].sectionNumber == 0 && symbols[index].name != "__ImageBase"
    && symbols[index].storageClass == 105
    && (forall a :: !LeadsTo(AllGlobals(l), l.c.x.aliases, symbols[index].name, a))
    && 0 <= symbols[index].weakDefault < |symbols| && symbols[index].weakDefault != index
  }

  lemma PassedOn(l: Link, o: nat, index: int, steps: nat)
    requires o < |l.c.x.objects| && PassesOn(l, o, index)
    ensures steps == 0 ==> Within(l, o, index, steps).Err?
    ensures steps > 0 ==>
      Within(l, o, index, steps) == Within(l, o, l.c.x.objects[o].symbols[index].weakDefault, steps - 1)
  {
    var name := l.c.x.objects[o].symbols[index].name;
    var found := ResolveGlobal(AllGlobals(l), l.c.x.aliases, name, {});
    if found.Some? { ResolvesByName(AllGlobals(l), l.c.x.aliases, name, found.value); }
  }

  /** Any other symbol means the same however long the chains may be. */
  lemma Final(l: Link, o: nat, index: int, steps: nat, more: nat)
    requires o < |l.c.x.objects| && !PassesOn(l, o, index)
    ensures Within(l, o, index, steps) == Within(l, o, index, more)
  {
    if 0 <= index < |l.c.x.objects[o].symbols| {
      var name := l.c.x.objects[o].symbols[index].name;
      var found := ResolveGlobal(AllGlobals(l), l.c.x.aliases, name, {});
      forall a ensures found == Some(a) <==> LeadsTo(AllGlobals(l), l.c.x.aliases, name, a) {
        ResolvesByName(AllGlobals(l), l.c.x.aliases, name, a);
      }
    }
  }

  /** The `n`-th symbol of a chain of defaults. */
  ghost function Default(l: Link, o: nat, index: int, n: nat): int
    requires o < |l.c.x.objects|
    decreases n
  {
    if n == 0 || !PassesOn(l, o, index) then index
    else Default(l, o, l.c.x.objects[o].symbols[index].weakDefault, n - 1)
  }

  lemma {:induction false} DefaultMore(l: Link, o: nat, index: int, n: nat, m: nat)
    requires o < |l.c.x.objects|
    ensures Default(l, o, index, n + m) == Default(l, o, Default(l, o, index, n), m)
    decreases n
  {
    if n > 0 && PassesOn(l, o, index) { DefaultMore(l, o, l.c.x.objects[o].symbols[index].weakDefault, n - 1, m); }
  }

  /** The chain ends after exactly `n` defaults. */
  ghost predicate EndsAfter(l: Link, o: nat, index: int, n: nat)
    requires o < |l.c.x.objects|
  {
    && !PassesOn(l, o, Default(l, o, index, n))
    && forall k: nat :: k < n ==> PassesOn(l, o, Default(l, o, index, k))
  }

  /** With enough steps a symbol means what the end of its chain means; with fewer it means nothing. */
  lemma {:induction false} ChainMeaning(l: Link, o: nat, index: int, n: nat, steps: nat)
    requires o < |l.c.x.objects| && EndsAfter(l, o, index, n)
    ensures n <= steps ==> Within(l, o, index, steps) == Within(l, o, Default(l, o, index, n), 0)
    ensures n > steps ==> Within(l, o, index, steps).Err?
    decreases n
  {
    if n == 0 {
      Final(l, o, index, steps, 0);
    } else {
      assert PassesOn(l, o, Default(l, o, index, 0));
      PassedOn(l, o, index, steps);
      if steps > 0 {
        ChainNext(l, o, index, n);
        ChainMeaning(l, o, l.c.x.objects[o].symbols[index].weakDefault, n - 1, steps - 1);
      }
    }
  }

  lemma ChainNext(l: Link, o: nat, index: int, n: nat)
    requires o < |l.c.x.objects| && EndsAfter(l, o, index, n) && n > 0 && PassesOn(l, o, index)
    ensures EndsAfter(l, o, l.c.x.objects[o].symbols[index].weakDefault, n - 1)
    ensures Default(l, o, index, n) == Default(l, o, l.c.x.objects[o].symbols[index].weakDefault, n - 1)
  {
    forall k: nat | k < n - 1 ensures PassesOn(l, o, Default(l, o, l.c.x.objects[o].symbols[index].weakDefault, k)) {
      assert PassesOn(l, o, Default(l, o, index, k + 1));
    }
  }

  /** A chain that means something ends. */
  lemma {:induction false} MeaningEnds(l: Link, o: nat, index: int, steps: nat) returns (n: nat)
    requires o < |l.c.x.objects| && Within(l, o, index, steps).Ok?
    ensures EndsAfter(l, o, index, n)
    decreases steps
  {
    n := 0;
    if PassesOn(l, o, index) {
      PassedOn(l, o, index, steps);
      var next := l.c.x.objects[o].symbols[index].weakDefault;
      var m := MeaningEnds(l, o, next, steps - 1);
      n := m + 1;
      forall k: nat | k < n ensures PassesOn(l, o, Default(l, o, index, k)) {
        if k > 0 { assert Default(l, o, index, k) == Default(l, o, next, k - 1); }
      }
    }
  }

  lemma DistinctDefaults(l: Link, o: nat, index: int, n: nat, i: nat, j: nat)
    requires o < |l.c.x.objects| && EndsAfter(l, o, index, n) && i < j <= n
    ensures Default(l, o, index, i) != Default(l, o, index, j)
  {
    var k := i + (n - j);
    assert PassesOn(l, o, Default(l, o, index, k));
    DefaultMore(l, o, index, i, n - j);
    DefaultMore(l, o, index, j, n - j);
  }

  lemma {:induction false} DefaultInside(l: Link, o: nat, index: int, n: nat)
    requires o < |l.c.x.objects| && 0 <= index < |l.c.x.objects[o].symbols|
    ensures 0 <= Default(l, o, index, n) < |l.c.x.objects[o].symbols|
    decreases n
  {
    if n > 0 && PassesOn(l, o, index) { DefaultInside(l, o, l.c.x.objects[o].symbols[index].weakDefault, n - 1); }
  }

  ghost function FirstDefaults(l: Link, o: nat, index: int, n: nat): set<int>
    requires o < |l.c.x.objects|
  {
    set k | 0 <= k < n :: Default(l, o, index, k)
  }

  lemma {:induction false} CountDefaults(l: Link, o: nat, index: int, end: nat, n: nat)
    requires o < |l.c.x.objects| && EndsAfter(l, o, index, end) && n <= end + 1
    ensures |FirstDefaults(l, o, index, n)| == n
  {
    if n > 0 {
      CountDefaults(l, o, index, end, n - 1);
      var before, last := FirstDefaults(l, o, index, n - 1), Default(l, o, index, n - 1);
      forall k | 0 <= k < n - 1 ensures Default(l, o, index, k) != last {
        DistinctDefaults(l, o, index, end, k, n - 1);
      }
      assert FirstDefaults(l, o, index, n) == before + {last} && last !in before;
    }
  }

  ghost function Indices(n: nat): (s: set<int>)
    ensures |s| == n && forall i :: 0 <= i < n <==> i in s
  {
    if n == 0 then {} else Indices(n - 1) + {n - 1}
  }

  lemma SubsetSize<T>(a: set<T>, b: set<T>)
    requires a <= b
    ensures |a| <= |b|
  {
    assert b == a + (b - a);
  }

  /** A chain of defaults that ends visits no symbol twice, so it is shorter than the symbol table. */
  lemma ChainIsShort(l: Link, o: nat, index: int, n: nat)
    requires o < |l.c.x.objects| && 0 <= index < |l.c.x.objects[o].symbols| && EndsAfter(l, o, index, n)
    ensures n < |l.c.x.objects[o].symbols|
  {
    var symbols := l.c.x.objects[o].symbols;
    CountDefaults(l, o, index, n, n + 1);
    forall k | 0 <= k < n + 1 ensures 0 <= Default(l, o, index, k) < |symbols| { DefaultInside(l, o, index, k); }
    SubsetSize(FirstDefaults(l, o, index, n + 1), Indices(|symbols|));
  }

  /** Two references mean the same: both resolve to the same target, or neither resolves. */
  predicate SameMeaning(a: Result<Target>, b: Result<Target>) {
    (a.Ok? <==> b.Ok?) && (a.Ok? ==> a == b)
  }

  /**
   A weak symbol with nothing else to mean means what its default means, also around a cycle, where
   neither resolves.
   */
  lemma WeakMeansDefault(l: Link, o: nat, index: int)
    requires o < |l.c.x.objects| && PassesOn(l, o, index)
    ensures SameMeaning(ResolveRef(l, o, index), ResolveRef(l, o, l.c.x.objects[o].symbols[index].weakDefault))
  {
    var symbols := l.c.x.objects[o].symbols;
    var next := symbols[index].weakDefault;
    PassedOn(l, o, index, |symbols|);
    if ResolveRef(l, o, next).Ok? {
      var n := MeaningEnds(l, o, next, |symbols|);
      ChainIsShort(l, o, next, n);
      ChainMeaning(l, o, next, n, |symbols|);
      ChainMeaning(l, o, next, n, |symbols| - 1);
    } else if ResolveRef(l, o, index).Ok? {
      var n := MeaningEnds(l, o, next, |symbols| - 1);
      ChainMeaning(l, o, next, n, |symbols| - 1);
      ChainMeaning(l, o, next, n, |symbols|);
    }
  }

  // ---------- every symbol ----------

  /** The symbol lies in a section that has an address and has a name, so it has a place of its own. */
  predicate HasPlace(l: Link, o: nat, symbol: Symbol) {
    symbol.sectionNumber > 0 && symbol.name != "" && Ref(o, symbol.sectionNumber - 1) in l.placements
  }

  /** That place: the section's, plus the value of the symbol, whatever its storage class. */
  function PlaceOf(l: Link, o: nat, symbol: Symbol): Address
    requires HasPlace(l, o, symbol)
  {
    var section := l.placements[Ref(o, symbol.sectionNumber - 1)];
    Address(section.output, section.offset + symbol.value)
  }

  /** The address the name stands for, if it stands for one. */
  ghost predicate Known(l: Link, name: string, a: Address) {
    LeadsTo(AllGlobals(l), l.c.x.aliases, name, a)
  }

  /**
   What a symbol of the table resolves to. A named symbol in a section with an address: that
   place. In any other section: the global of its name. Section -1: its value, as an absolute
   address. Undefined: the image base, the global of its name, or what its weak default means.
   */
  ghost predicate Meaning(l: Link, o: nat, index: int, t: Result<Target>)
    requires o < |l.c.x.objects|
  {
    var symbols := l.c.x.objects[o].symbols;
    if !(0 <= index < |symbols|) then t.Err?
    else
      var symbol := symbols[index];
      && (HasPlace(l, o, symbol) ==> t == Ok(SectionTarget(PlaceOf(l, o, symbol))))
      && (symbol.sectionNumber > 0 && !HasPlace(l, o, symbol) ==> ByNameOnly(l, symbol.name, t))
      && (symbol.sectionNumber == -1 ==> t == Ok(AbsoluteTarget(symbol.value)))
      && (symbol.sectionNumber < -1 ==> t.Err?)
      && (symbol.sectionNumber == 0 && symbol.name == "__ImageBase" ==> t == Ok(ImageBaseTarget))
      && (symbol.sectionNumber == 0 && symbol.name != "__ImageBase" ==>
            if PassesOn(l, o, index) then SameMeaning(t, ResolveRef(l, o, symbol.weakDefault))
            else ByNameOnly(l, symbol.name, t))
  }

  ghost predicate ByNameOnly(l: Link, name: string, t: Result<Target>) {
    && (t.Ok? ==> t.value.SectionTarget? && Known(l, name, t.value.address))
    && (t.Err? ==> forall a :: !Known(l, name, a))
  }

  /** Every reference of every link resolves to what its symbol means. */
  lemma ResolvesToMeaning(l: Link, o: nat, index: int)
    requires o < |l.c.x.objects|
    ensures Meaning(l, o, index, ResolveRef(l, o, index))
  {
    if 0 <= index < |l.c.x.objects[o].symbols| {
      var name := l.c.x.objects[o].symbols[index].name;
      var found := ResolveGlobal(AllGlobals(l), l.c.x.aliases, name, {});
      forall a ensures found == Some(a) <==> LeadsTo(AllGlobals(l), l.c.x.aliases, name, a) {
        ResolvesByName(AllGlobals(l), l.c.x.aliases, name, a);
      }
      if PassesOn(l, o, index) { WeakMeansDefault(l, o, index); }
    }
  }

  lemma PlaceResolves(l: Link, o: nat, index: int)
    requires o < |l.c.x.objects| && 0 <= index < |l.c.x.objects[o].symbols|
    requires HasPlace(l, o, l.c.x.objects[o].symbols[index])
    ensures ResolveRef(l, o, index) == Ok(SectionTarget(PlaceOf(l, o, l.c.x.objects[o].symbols[index])))
  {
  }

  // ---------- into the bytes ----------

  /**
   A relocated field whose symbol lies in a section with an address designates that section's
   place plus the value of the symbol, static symbols included.
   */
  lemma FieldReachesPlace(l: Link, rvas: seq<int>, base: int, fixes: seq<Fix>, linked: Sections, r: Ref, k: nat,
          symbol: Symbol)
    requires Relinked(l, rvas, base, fixes, linked)
    requires Exists(l.c.x.objects, r) && r in l.placements && k < |At(l.c.x.objects, r).relocations|
    requires At(l.c.x.objects, r).relocations[k].kind != 0
    requires var index := At(l.c.x.objects, r).relocations[k].symbol;
      0 <= index < |l.c.x.objects[r.obj].symbols| && symbol == l.c.x.objects[r.obj].symbols[index]
    requires HasPlace(l, r.obj, symbol)
    ensures FieldReaches(l, rvas, base, linked, r, k, PlaceOf(l, r.obj, symbol))
  {
    PlaceResolves(l, r.obj, At(l.c.x.objects, r).relocations[k].symbol);
    FieldReachesTarget(l, rvas, base, fixes, linked, r, k, PlaceOf(l, r.obj, symbol));
  }

  lemma AbsoluteFix(l: Link, r: Ref, k: nat, symbol: Symbol)
    requires Exists(l.c.x.objects, r) && r in l.placements && k < |At(l.c.x.objects, r).relocations|
    requires var index := At(l.c.x.objects, r).relocations[k].symbol;
      0 <= index < |l.c.x.objects[r.obj].symbols| && symbol == l.c.x.objects[r.obj].symbols[index]
    requires symbol.sectionNumber == -1
    ensures var relocation := At(l.c.x.objects, r).relocations[k];
      FixOf(l, r, k) == Ok(Fix(l.placements[r].output, l.placements[r].offset + relocation.address, relocation.kind,
        AbsoluteTarget(symbol.value)))
  {
  }

  /** A relocated field whose symbol is absolute designates its value. */
  lemma FieldReachesValue(l: Link, rvas: seq<int>, base: int, fixes: seq<Fix>, linked: Sections, r: Ref, k: nat,
          symbol: Symbol)
    requires Relinked(l, rvas, base, fixes, linked)
    requires Exists(l.c.x.objects, r) && r in l.placements && k < |At(l.c.x.objects, r).relocations|
    requires At(l.c.x.objects, r).relocations[k].kind != 0
    requires var index := At(l.c.x.objects, r).relocations[k].symbol;
      0 <= index < |l.c.x.objects[r.obj].symbols| && symbol == l.c.x.objects[r.obj].symbols[index]
    requires symbol.sectionNumber == -1
    ensures var relocation := At(l.c.x.objects, r).relocations[k];
      Reaches(Datas(l.outs), rvas, base, linked,
        Fix(l.placements[r].output, l.placements[r].offset + relocation.address, relocation.kind,
            AbsoluteTarget(symbol.value)))
  {
    AbsoluteFix(l, r, k, symbol);
    var fix := FixDesignates(l, rvas, base, fixes, linked, r, k);
  }

  // ---------- all relocations ----------

  lemma {:induction false} SectionResolves(l: Link, r: Ref, n: nat)
    requires Exists(l.c.x.objects, r) && r in l.placements && n <= |At(l.c.x.objects, r).relocations|
    ensures SectionFixes(l, r, n).Ok? <==>
      forall k :: 0 <= k < n ==> ResolveRef(l, r.obj, At(l.c.x.objects, r).relocations[k].symbol).Ok?
  {
    if n > 0 { SectionResolves(l, r, n - 1); }
  }

  /** Every relocation of the section resolves. */
  ghost predicate AllResolve(l: Link, r: Ref)
    requires Exists(l.c.x.objects, r)
  {
    forall k :: 0 <= k < |At(l.c.x.objects, r).relocations| ==>
      ResolveRef(l, r.obj, At(l.c.x.objects, r).relocations[k].symbol).Ok?
  }

  lemma {:induction false} ListResolves(l: Link, refs: seq<Ref>)
    ensures FixesOf(l, refs).Ok? <==>
      forall r :: r in refs && r in l.placements && Exists(l.c.x.objects, r) ==> AllResolve(l, r)
  {
    if refs != [] {
      var front, last := refs[..|refs| - 1], refs[|refs| - 1];
      assert refs == front + [last];
      ListResolves(l, front);
      if last in l.placements && Exists(l.c.x.objects, last) {
        SectionResolves(l, last, |At(l.c.x.objects, last).relocations|);
      }
    }
  }

  /** A link resolves if and only if every relocation of a section with an address does, of whatever type. */
  lemma ResolvesIff(l: Link)
    ensures Fixes(l).Ok? <==>
      forall r :: r in l.placements && Exists(l.c.x.objects, r) ==> AllResolve(l, r)
  {
    RefsAreSections(l.c.x.objects, |l.c.x.objects|);
    ListResolves(l, AllRefs(l.c.x.objects));
  }
}
