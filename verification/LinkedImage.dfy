/**
 Relocation of a whole link: every relocation of a section with an address becomes a fix, and the
 fields of the relocated image designate placed definitions of the names they refer to.
 */
module LinkedImage {
  import opened Basics
  import opened Coff
  import opened Bytes
  import opened Targets
  import opened Symbols
  import opened Layout
  import opened Fields
  import opened Relocate
  import opened Rebase
  import opened FieldMeaning
  import opened Liveness
  import opened Outputs
  import opened ImageLayout
  import opened ReferenceSafety

  // ---------- fixes ----------

  /** Relocation `k` of section `r`, at its place in the image and with its target resolved. */
  function FixOf(l: Link, r: Ref, k: nat): Result<Fix>
    requires Exists(l.c.x.objects, r) && r in l.placements && k < |At(l.c.x.objects, r).relocations|
  {
    var relocation := At(l.c.x.objects, r).relocations[k];
    match ResolveRef(l, r.obj, relocation.symbol)
    case Err(m) => Err(m)
    case Ok(t) => Ok(Fix(l.placements[r].output, l.placements[r].offset + relocation.address, relocation.kind, t))
  }

  /** The fixes of the first `n` relocations of one section; type 0 is resolved but patches nothing. */
  ghost function SectionFixes(l: Link, r: Ref, n: nat): Result<seq<Fix>>
    requires Exists(l.c.x.objects, r) && r in l.placements && n <= |At(l.c.x.objects, r).relocations|
  {
    if n == 0 then Ok([])
    else
      match (SectionFixes(l, r, n - 1), FixOf(l, r, n - 1))
      case (Ok(fixes), Ok(fix)) => Ok(if fix.kind == 0 then fixes else fixes + [fix])
      case (Err(m), _) => Err(m)
      case (_, Err(m)) => Err(m)
  }

  /** The fixes of all sections among `refs` that have an address. */
  ghost function FixesOf(l: Link, refs: seq<Ref>): Result<seq<Fix>> {
    if refs == [] then Ok([])
    else
      var last := refs[|refs| - 1];
      var before := FixesOf(l, refs[..|refs| - 1]);
      if before.Err? || last !in l.placements || !Exists(l.c.x.objects, last) then before
      else
        match SectionFixes(l, last, |At(l.c.x.objects, last).relocations|)
        case Err(m) => Err(m)
        case Ok(fixes) => Ok(before.value + fixes)
  }

  ghost function Fixes(l: Link): Result<seq<Fix>> {
    FixesOf(l, AllRefs(l.c.x.objects))
  }

  method ResolveSection(l: Link, r: Ref) returns (res: Result<seq<Fix>>)
    requires Exists(l.c.x.objects, r) && r in l.placements
    ensures res.Ok? <==> SectionFixes(l, r, |At(l.c.x.objects, r).relocations|).Ok?
    ensures res.Ok? ==> res == SectionFixes(l, r, |At(l.c.x.objects, r).relocations|)
  {
    var fixes: seq<Fix> := [];
    for k := 0 to |At(l.c.x.objects, r).relocations|
      invariant SectionFixes(l, r, k) == Ok(fixes)
    {
      var fix := FixOf(l, r, k);
      if fix.Err? {
        StaysUnresolved(l, r, k + 1, |At(l.c.x.objects, r).relocations|);
        return Err(fix.message);
      }
      if fix.value.kind != 0 { fixes := fixes + [fix.value]; }
    }
    res := Ok(fixes);
  }

  lemma {:induction false} StaysUnresolved(l: Link, r: Ref, n: nat, m: nat)
    requires Exists(l.c.x.objects, r) && r in l.placements && n <= m <= |At(l.c.x.objects, r).relocations|
    requires SectionFixes(l, r, n).Err?
    ensures SectionFixes(l, r, m).Err?
  {
    if n < m { StaysUnresolved(l, r, n, m - 1); }
  }

  lemma {:induction false} StaysFailing(l: Link, refs: seq<Ref>, n: nat)
    requires n <= |refs| && FixesOf(l, refs[..n]).Err?
    ensures FixesOf(l, refs).Err?
    decreases |refs|
  {
    if n == |refs| {
      assert refs[..n] == refs;
    } else {
      assert refs[..|refs| - 1][..n] == refs[..n];
      StaysFailing(l, refs[..|refs| - 1], n);
    }
  }

  lemma FixesNext(l: Link, refs: seq<Ref>, n: nat)
    requires n < |refs| && FixesOf(l, refs[..n]).Ok?
    ensures var r, before := refs[n], FixesOf(l, refs[..n]).value;
      FixesOf(l, refs[..n + 1]) ==
        if r !in l.placements || !Exists(l.c.x.objects, r) then Ok(before)
        else match SectionFixes(l, r, |At(l.c.x.objects, r).relocations|)
          case Err(m) => Err(m)
          case Ok(fixes) => Ok(before + fixes)
  {
    assert refs[..n + 1][..n] == refs[..n];
  }

  /** The resolving half of the relocation loop. */
  method ResolveAll(l: Link) returns (res: Result<seq<Fix>>)
    ensures res.Ok? <==> Fixes(l).Ok?
    ensures res.Ok? ==> res == Fixes(l)
  {
    var refs := AllRefs(l.c.x.objects);
    var fixes: seq<Fix> := [];
    for n := 0 to |refs|
      invariant FixesOf(l, refs[..n]) == Ok(fixes)
    {
      FixesNext(l, refs, n);
      if refs[n] in l.placements && Exists(l.c.x.objects, refs[n]) {
        var more := ResolveSection(l, refs[n]);
        if more.Err? {
          StaysFailing(l, refs, n + 1);
          return Err(more.message);
        }
        fixes := fixes + more.value;
      }
    }
    assert refs[..|refs|] == refs;
    res := Ok(fixes);
  }

  lemma {:induction false} SectionFixIn(l: Link, r: Ref, n: nat, k: nat)
    requires Exists(l.c.x.objects, r) && r in l.placements && k < n <= |At(l.c.x.objects, r).relocations|
    requires SectionFixes(l, r, n).Ok?
    requires At(l.c.x.objects, r).relocations[k].kind != 0
    ensures FixOf(l, r, k).Ok? && FixOf(l, r, k).value in SectionFixes(l, r, n).value
  {
    if k < n - 1 { SectionFixIn(l, r, n - 1, k); }
  }

  /** Every relocation of a section with an address is among the fixes. */
  lemma {:induction false} FixIn(l: Link, refs: seq<Ref>, r: Ref, k: nat)
    requires FixesOf(l, refs).Ok? && r in refs && Exists(l.c.x.objects, r) && r in l.placements
    requires k < |At(l.c.x.objects, r).relocations|
    requires At(l.c.x.objects, r).relocations[k].kind != 0
    ensures FixOf(l, r, k).Ok? && FixOf(l, r, k).value in FixesOf(l, refs).value
    decreases |refs|
  {
    var last := refs[|refs| - 1];
    if last == r {
      SectionFixIn(l, r, |At(l.c.x.objects, r).relocations|, k);
    } else {
      assert r in refs[..|refs| - 1];
      FixIn(l, refs[..|refs| - 1], r, k);
    }
  }

  // ---------- targets exist ----------

  /** Every address names an existing output. */
  ghost predicate AddressesOk(l: Link) {
    && (forall r :: r in l.placements ==> l.placements[r].output < |l.outs|)
    && (forall name :: name in AllGlobals(l) ==> AllGlobals(l)[name].output < |l.outs|)
  }

  lemma {:induction false} ResolvesInside(l: Link, o: nat, index: int, steps: nat)
    requires AddressesOk(l) && o < |l.c.x.objects|
    ensures var t := Symbols.Resolve(l.c.x.objects, l.placements, AllGlobals(l), l.c.x.aliases, o, index, steps);
      t.Ok? ==> TargetOk(|l.outs|, t.value)
    decreases steps
  {
    var symbols := l.c.x.objects[o].symbols;
    if 0 <= index < |symbols| {
      GlobalInside(l, symbols[index].name, {});
      if steps > 0 { ResolvesInside(l, o, symbols[index].weakDefault, steps - 1); }
    }
  }

  lemma {:induction false} GlobalInside(l: Link, name: string, visited: set<string>)
    requires AddressesOk(l) && visited <= l.c.x.aliases.Keys
    ensures var a := ResolveGlobal(AllGlobals(l), l.c.x.aliases, name, visited); a.Some? ==> a.value.output < |l.outs|
    decreases l.c.x.aliases.Keys - visited
  {
    if name !in AllGlobals(l) && name !in visited && name in l.c.x.aliases {
      GlobalInside(l, l.c.x.aliases[name], visited + {name});
    }
  }

  lemma {:induction false} SectionFixesOk(l: Link, rvas: seq<int>, r: Ref, n: nat)
    requires AddressesOk(l) && |rvas| == |l.outs| && Exists(l.c.x.objects, r) && r in l.placements
    requires n <= |At(l.c.x.objects, r).relocations|
    ensures SectionFixes(l, r, n).Ok? ==> AllFixOk(rvas, SectionFixes(l, r, n).value)
  {
    if n > 0 {
      SectionFixesOk(l, rvas, r, n - 1);
      ResolvesInside(l, r.obj, At(l.c.x.objects, r).relocations[n - 1].symbol, |l.c.x.objects[r.obj].symbols|);
    }
  }

  /** The fixes of a link name existing outputs only. */
  lemma {:induction false} FixesOk(l: Link, rvas: seq<int>, refs: seq<Ref>)
    requires AddressesOk(l) && |rvas| == |l.outs|
    ensures FixesOf(l, refs).Ok? ==> AllFixOk(rvas, FixesOf(l, refs).value)
  {
    if refs != [] {
      var last := refs[|refs| - 1];
      FixesOk(l, rvas, refs[..|refs| - 1]);
      if last in l.placements && Exists(l.c.x.objects, last) {
        SectionFixesOk(l, rvas, last, |At(l.c.x.objects, last).relocations|);
      }
    }
  }

  lemma PlacementInside(l: Link, r: Ref)
    requires LinkOk(l) && ReferenceSafety.Fits(l.c, l.e) && r in l.placements
    ensures Exists(l.c.x.objects, r) && InOutput(l.c.x.objects, Placed(l.c), r, l.placements[r], l.outs)
    ensures SectionHeld(l, r, OutputFits(l, r))
  {
  }

  lemma GlobalsInside(objects: seq<Object>, placements: map<Ref, Address>, globals: Globals, n: nat)
    requires GlobalsUpTo(objects, placements, globals, |objects|, 0)
    requires forall r :: r in placements ==> placements[r].output < n
    ensures forall name :: name in globals ==> globals[name].output < n
  {
    forall name | name in globals ensures globals[name].output < n {
      assert DefinedBefore(objects, placements, name, globals[name], |objects|, 0);
    }
  }

  /** Common symbols and imports lie in outputs of the image. */
  ghost predicate ExtraInside(l: Link) {
    forall name :: name in l.extra ==> l.extra[name].output < |l.outs|
  }

  /** Then all addresses of the link do. */
  lemma AddressesAre(l: Link)
    requires LinkOk(l) && ReferenceSafety.Fits(l.c, l.e) && ExtraInside(l)
    ensures AddressesOk(l)
  {
    forall r | r in l.placements ensures l.placements[r].output < |l.outs| { PlacementInside(l, r); }
    LinkGlobals(l);
    AllInside(l);
  }

  lemma LinkGlobals(l: Link)
    requires LinkOk(l)
    ensures GlobalsUpTo(l.c.x.objects, l.placements, l.globals, |l.c.x.objects|, 0)
  {
  }

  lemma AllInside(l: Link)
    requires GlobalsUpTo(l.c.x.objects, l.placements, l.globals, |l.c.x.objects|, 0)
    requires forall r :: r in l.placements ==> l.placements[r].output < |l.outs|
    requires ExtraInside(l)
    ensures AddressesOk(l)
  {
    GlobalsInside(l.c.x.objects, l.placements, l.globals, |l.outs|);
  }

  /** A link whose relocations resolve, with an RVA for each of its outputs. */
  ghost predicate Resolvable(l: Link, rvas: seq<int>) {
    LinkOk(l) && ReferenceSafety.Fits(l.c, l.e) && ExtraInside(l) && |rvas| == |l.outs| && Fixes(l).Ok?
  }

  /** The fixes of a link, which name existing outputs only. */
  ghost function AllFixes(l: Link, rvas: seq<int>): (fixes: seq<Fix>)
    requires Resolvable(l, rvas)
    ensures AllFixOk(rvas, fixes) && Fixes(l) == Ok(fixes)
  {
    AddressesAre(l);
    FixesOk(l, rvas, AllRefs(l.c.x.objects));
    Fixes(l).value
  }

  // ---------- the relocated image ----------

  function Datas(outs: seq<Out>): Sections {
    seq(|outs|, k requires 0 <= k < |outs| => outs[k].data)
  }

  /** The contributions to the output of section `r` fit 32 bits. */
  ghost predicate OutputFits(l: Link, r: Ref) {
    ExtentFits(l.c.x.objects, Placed(l.c), OutputName(l.c.x.objects, r))
  }

  /** The bytes of a section are in its output, when nothing overflows there. */
  ghost predicate SectionHeld(l: Link, r: Ref, fits: bool)
    requires Exists(l.c.x.objects, r) && r in l.placements
  {
    fits && At(l.c.x.objects, r).data != [] ==>
      l.placements[r].output < |l.outs|
        && Holds(l.outs[l.placements[r].output].data, l.placements[r].offset, At(l.c.x.objects, r).data)
  }

  lemma HeldField(image: seq<byte>, offset: int, data: seq<byte>, address: int, width: nat)
    requires Holds(image, offset, data) && 0 <= address && address + width <= |data|
    ensures Get(image, offset + address, width) == Get(data, address, width)
  {
    var x, y := Get(image, offset + address, width), Get(data, address, width);
    forall i | 0 <= i < width ensures x[i] == y[i] {
      assert image[offset..offset + |data|][address + i] == data[address + i];
    }
  }

  /** The addend in the image is the one in the input section. */
  lemma InputAddend(outs: seq<Out>, a: Address, data: seq<byte>, address: int, width: nat)
    requires a.output < |outs| && Holds(outs[a.output].data, a.offset, data) && 0 <= address
    requires address + width <= |data|
    requires InBounds(Datas(outs), a.output, a.offset + address, width)
    ensures Field(Datas(outs), a.output, a.offset + address, width) == Get(data, address, width)
  {
    HeldField(outs[a.output].data, a.offset, data, address, width);
  }

  /** The relocated image of a link. */
  ghost predicate Relinked(l: Link, rvas: seq<int>, base: int, fixes: seq<Fix>, linked: Sections) {
    && Resolvable(l, rvas) && fixes == AllFixes(l, rvas) && FieldsDisjoint(fixes)
    && Relocated(Datas(l.outs), rvas, base, fixes) == Ok(linked)
  }

  /** The fix that relocation `k` of section `r` makes for target address `a`. */
  function FixTo(l: Link, r: Ref, k: nat, a: Address): Fix
    requires Exists(l.c.x.objects, r) && r in l.placements && k < |At(l.c.x.objects, r).relocations|
  {
    var relocation := At(l.c.x.objects, r).relocations[k];
    Fix(l.placements[r].output, l.placements[r].offset + relocation.address, relocation.kind, SectionTarget(a))
  }

  /** The field of this fix in the relocated image designates its target. */
  ghost predicate Reaches(d: Sections, rvas: seq<int>, base: int, linked: Sections, fix: Fix) {
    && FixOk(rvas, fix) && InBounds(d, fix.section, fix.offset, Width(fix.kind))
    && InBounds(linked, fix.section, fix.offset, Width(fix.kind))
    && Designates(rvas, base, fix, Field(d, fix.section, fix.offset, Width(fix.kind)),
      Field(linked, fix.section, fix.offset, Width(fix.kind)))
  }

  /** The addend found there is the one in the input section. */
  ghost predicate AddendKept(l: Link, r: Ref, address: int, width: nat, fits: bool)
    requires Exists(l.c.x.objects, r) && r in l.placements
    requires InBounds(Datas(l.outs), l.placements[r].output, l.placements[r].offset + address, width)
  {
    fits && 0 <= address && 0 < width && address + width <= |At(l.c.x.objects, r).data| ==>
      Field(Datas(l.outs), l.placements[r].output, l.placements[r].offset + address, width) ==
        Get(At(l.c.x.objects, r).data, address, width)
  }

  lemma AddendIsKept(l: Link, r: Ref, address: int, width: nat, fits: bool)
    requires Exists(l.c.x.objects, r) && r in l.placements && SectionHeld(l, r, fits)
    requires InBounds(Datas(l.outs), l.placements[r].output, l.placements[r].offset + address, width)
    ensures AddendKept(l, r, address, width, fits)
  {
    if fits && 0 <= address && 0 < width && address + width <= |At(l.c.x.objects, r).data| {
      var outs, a, data := l.outs, l.placements[r], At(l.c.x.objects, r).data;
      InputAddend(outs, a, data, address, width);
    }
  }

  /** The field of relocation `k` of section `r` designates address `a`, with the addend the input section had there. */
  ghost predicate FieldReaches(l: Link, rvas: seq<int>, base: int, linked: Sections, r: Ref, k: nat, a: Address)
    requires Exists(l.c.x.objects, r) && r in l.placements && k < |At(l.c.x.objects, r).relocations|
  {
    var fix := FixTo(l, r, k, a);
    Reaches(Datas(l.outs), rvas, base, linked, fix)
      && AddendKept(l, r, At(l.c.x.objects, r).relocations[k].address, Width(fix.kind), OutputFits(l, r))
  }

  lemma FixDesignates(l: Link, rvas: seq<int>, base: int, fixes: seq<Fix>, linked: Sections, r: Ref, k: nat)
    returns (fix: Fix)
    requires Relinked(l, rvas, base, fixes, linked) && Exists(l.c.x.objects, r) && r in l.placements
    requires k < |At(l.c.x.objects, r).relocations| && At(l.c.x.objects, r).relocations[k].kind != 0
    ensures FixOf(l, r, k) == Ok(fix) && Reaches(Datas(l.outs), rvas, base, linked, fix)
  {
    RefsAreSections(l.c.x.objects, |l.c.x.objects|);
    FixIn(l, AllRefs(l.c.x.objects), r, k);
    fix := FixOf(l, r, k).value;
    var i :| 0 <= i < |fixes| && fixes[i] == fix;
    ImageDesignates(Datas(l.outs), rvas, base, fixes, linked, i);
  }

  /** A relocated field designates whatever its symbol resolves to. */
  lemma FieldReachesTarget(l: Link, rvas: seq<int>, base: int, fixes: seq<Fix>, linked: Sections, r: Ref, k: nat,
          a: Address)
    requires Relinked(l, rvas, base, fixes, linked)
    requires Exists(l.c.x.objects, r) && r in l.placements && k < |At(l.c.x.objects, r).relocations|
    requires At(l.c.x.objects, r).relocations[k].kind != 0
    requires ResolveRef(l, r.obj, At(l.c.x.objects, r).relocations[k].symbol) == Ok(SectionTarget(a))
    ensures FieldReaches(l, rvas, base, linked, r, k, a)
  {
    var fix := FixDesignates(l, rvas, base, fixes, linked, r, k);
    PlacementInside(l, r);
    AddendIsKept(l, r, At(l.c.x.objects, r).relocations[k].address, Width(fix.kind), OutputFits(l, r));
  }

  /**
   From the input to the running image: a relocation by name in a section with an address, whose
   name has a surviving definition and whose followed section lies in an occupied output, leaves a
   field that designates the address of a placed definition of that name.
   */
  lemma FieldReachesDefinition(l: Link, rvas: seq<int>, base: int, fixes: seq<Fix>, linked: Sections, r: Ref, k: nat,
          fo: int, fs: int, q: Ref)
    returns (a: Address)
    requires Relinked(l, rvas, base, fixes, linked)
    requires r in l.placements && Refers(l.c, r, k) && At(l.c.x.objects, r).relocations[k].kind != 0
    requires DefinesIn(l.c.x, fo, fs, Referred(l.c, r, k).name, q)
    requires Followed(l.c, r.obj, Referred(l.c, r, k)).Some? ==>
      OutputOccupied(l.c, l.e, Followed(l.c, r.obj, Referred(l.c, r, k)).value)
    ensures IsDefinitionOf(l, Referred(l.c, r, k).name, a) && FieldReaches(l, rvas, base, linked, r, k, a)
  {
    PlacementsExact(l, r);
    ReferenceIsSafe(l, r, k, fo, fs, q);
    a := ResolveRef(l, r.obj, At(l.c.x.objects, r).relocations[k].symbol).value.address;
    FieldReachesTarget(l, rvas, base, fixes, linked, r, k, a);
  }
}
