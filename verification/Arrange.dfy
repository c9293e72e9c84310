/**
 From contributions to the section list of the image: common symbols, import thunks and data and
 the base-relocation reservation are added, blank outputs are dropped, the rest is put in order.
 */
module Arrange {
  import opened Coff
  import opened Align
  import opened Layout
  import opened Outputs
  import opened ImportPlan
  import opened ImportThunks

  /** Sizes of the common symbols, and the planned imports with the size of their block. */
  datatype Extras = Extras(commons: seq<int>, imports: seq<Import>, importBytes: nat)

  ghost predicate ExtrasOk(e: Extras) {
    (forall i :: 0 <= i < |e.commons| ==> e.commons[i] > 0) && (e.imports != [] ==> e.importBytes > 0)
  }

  /** Where synthesized contents are: common symbols in .bss, thunks in .text, the import block in .idata. */
  datatype Synthesis = Synthesis(commons: seq<int>, thunks: seq<int>, importBase: int)

  predicate HasCode(imports: seq<Import>) {
    exists m :: 0 <= m < |imports| && imports[m].isCode
  }

  // ---------- finding outputs by name ----------

  /** Index of the first output with this name, or the number of outputs. */
  function Find(outs: seq<Out>, name: string): (k: nat)
    ensures k <= |outs|
    ensures k < |outs| ==> outs[k].name == name
    ensures forall i :: 0 <= i < k ==> outs[i].name != name
  {
    if outs == [] then 0
    else
      var k := Find(outs[..|outs| - 1], name);
      if k < |outs| - 1 || outs[|outs| - 1].name == name then k else |outs|
  }

  /** The output with this name, appended when it is missing. */
  function With(outs: seq<Out>, name: string): seq<Out> {
    if Find(outs, name) < |outs| then outs else outs + [Out(name, [], 0)]
  }

  ghost predicate DistinctNames(outs: seq<Out>) {
    forall i, j :: 0 <= i < j < |outs| ==> outs[i].name != outs[j].name
  }

  /** At most the output called `name` changed; it may be new, and it keeps the bytes it had. */
  ghost predicate OnlyTouches(before: seq<Out>, after: seq<Out>, name: string) {
    && |before| <= |after|
    && (|after| > |before| ==>
          Find(before, name) == |before| && |after| == |before| + 1 && after[|before|].name == name)
    && forall k :: 0 <= k < |before| ==>
      after[k].name == before[k].name && (before[k].name != name ==> after[k] == before[k])
  }

  lemma WithTouches(outs: seq<Out>, name: string)
    ensures OnlyTouches(outs, With(outs, name), name)
    ensures Find(outs, name) < |With(outs, name)| && With(outs, name)[Find(outs, name)].name == name
  {
  }

  lemma StillDistinct(before: seq<Out>, after: seq<Out>, name: string)
    requires DistinctNames(before) && OnlyTouches(before, after, name)
    ensures DistinctNames(after)
  {
    forall i, j | 0 <= i < j < |after| ensures after[i].name != after[j].name {
      if j == |before| { assert i < Find(before, name); }
    }
  }

  // ---------- synthesized contents ----------

  function VirtualOf(outs: seq<Out>, name: string): int {
    var k := Find(outs, name);
    if k < |outs| then outs[k].virtualSize else 0
  }

  function DataOf(outs: seq<Out>, name: string): seq<byte> {
    var k := Find(outs, name);
    if k < |outs| then outs[k].data else []
  }

  /** Replaces the contents of the output with this name, which is added if it is missing. */
  function Replace(outs: seq<Out>, name: string, data: seq<byte>, virtualSize: int): (r: seq<Out>)
    ensures OnlyTouches(outs, r, name)
    ensures Find(outs, name) < |r| && r[Find(outs, name)] == Out(name, data, virtualSize)
  {
    WithTouches(outs, name);
    With(outs, name)[Find(outs, name) := Out(name, data, virtualSize)]
  }

  /** The common symbols of these sizes are in .bss, behind `extent`. */
  ghost predicate CommonsIn(outs: seq<Out>, sizes: seq<int>, extent: int, offsets: seq<int>)
    requires forall i :: 0 <= i < |sizes| ==> sizes[i] > 0
  {
    && Find(outs, ".bss") < |outs| && VirtualOf(outs, ".bss") > 0
    && CommonsUpTo(Commons(sizes), extent, offsets, VirtualOf(outs, ".bss"), |sizes|)
  }

  ghost predicate CommonsAdded(outs: seq<Out>, r: seq<Out>, sizes: seq<int>, offsets: seq<int>)
    requires forall i :: 0 <= i < |sizes| ==> sizes[i] > 0
  {
    && OnlyTouches(outs, r, ".bss")
    && (sizes == [] ==> r == outs)
    && (sizes != [] ==>
         && Find(outs, ".bss") < |r| && DataOf(r, ".bss") == DataOf(outs, ".bss")
         && (NoOverflow(Commons(sizes), VirtualOf(outs, ".bss")) ==> CommonsIn(r, sizes, VirtualOf(outs, ".bss"),
           offsets)))
  }

  /** A replaced output is found under its name. */
  lemma ReplacedIs(outs: seq<Out>, name: string, data: seq<byte>, virtualSize: int)
    ensures var r := Replace(outs, name, data, virtualSize);
      Find(r, name) == Find(outs, name) < |r| && DataOf(r, name) == data && VirtualOf(r, name) == virtualSize
  {
    var r, k := Replace(outs, name, data, virtualSize), Find(outs, name);
    assert forall i :: 0 <= i < k ==> r[i].name == outs[i].name;
  }

  /** Common symbols lengthen .bss. */
  method AddCommons(outs: seq<Out>, sizes: seq<int>) returns (r: seq<Out>, offsets: seq<int>)
    requires VirtualOf(outs, ".bss") >= 0 && forall i :: 0 <= i < |sizes| ==> sizes[i] > 0
    ensures CommonsAdded(outs, r, sizes, offsets)
  {
    if sizes == [] { return outs, []; }
    var start := VirtualOf(outs, ".bss");
    var end;
    end, offsets := PlaceCommons(start, sizes);
    ReplacedIs(outs, ".bss", DataOf(outs, ".bss"), end);
    r := Replace(outs, ".bss", DataOf(outs, ".bss"), end);
    if NoOverflow(Commons(sizes), start) { EndGrows(Commons(sizes), start, 0, |sizes|); }
  }

  /** The thunks of these imports are in .text, behind `code` bytes. */
  ghost predicate ThunksIn(outs: seq<Out>, imports: seq<Import>, code: nat, offsets: seq<int>) {
    var text := DataOf(outs, ".text");
    && Find(outs, ".text") < |outs|
    && Placed(text, imports, offsets, |imports|, code) && Filled(text, imports, offsets, |imports|, code)
    && |text| == ThunksEnd(code, imports) && (HasCode(imports) ==> |text| <= VirtualOf(outs, ".text"))
  }

  ghost predicate ThunksAdded(outs: seq<Out>, r: seq<Out>, imports: seq<Import>, offsets: seq<int>) {
    && OnlyTouches(outs, r, ".text") && ThunksIn(r, imports, |DataOf(outs, ".text")|, offsets)
    && DataOf(outs, ".text") <= DataOf(r, ".text") && VirtualOf(outs, ".text") <= VirtualOf(r, ".text")
    && (!HasCode(imports) ==>
          DataOf(r, ".text") == DataOf(outs, ".text") && VirtualOf(r, ".text") == VirtualOf(outs, ".text"))
  }

  /** Code thunks go behind the bytes of .text, whatever its extent. */
  method AddThunks(outs: seq<Out>, imports: seq<Import>) returns (r: seq<Out>, offsets: seq<int>)
    ensures ThunksAdded(outs, r, imports, offsets)
  {
    var code, before := DataOf(outs, ".text"), VirtualOf(outs, ".text");
    var text;
    text, offsets := PlaceThunks(code, imports);
    CodeCounted(imports);
    var end := if HasCode(imports) && |text| > before then |text| else before;
    ReplacedIs(outs, ".text", text, end);
    r := Replace(outs, ".text", text, end);
  }

  ghost predicate DataFits(outs: seq<Out>, total: nat) {
    |DataOf(outs, ".idata")| <= VirtualOf(outs, ".idata") && VirtualOf(outs, ".idata") + 8 + total < 0x1_0000_0000
  }

  /** The import block of `total` bytes is in .idata, aligned and behind `extent`. */
  ghost predicate ImportsIn(outs: seq<Out>, total: nat, extent: int, base: int) {
    && Find(outs, ".idata") < |outs| && extent <= base < extent + 8 && base % 8 == 0
    && |DataOf(outs, ".idata")| == VirtualOf(outs, ".idata") == base + total
  }

  ghost predicate DataAdded(outs: seq<Out>, r: seq<Out>, total: nat, base: int) {
    && OnlyTouches(outs, r, ".idata") && Find(outs, ".idata") < |r|
    && (DataFits(outs, total) ==>
          ImportsIn(r, total, VirtualOf(outs, ".idata"), base) && DataOf(outs, ".idata") <= DataOf(r, ".idata"))
  }

  /** The import block goes behind the extent of .idata. */
  method AddImportData(outs: seq<Out>, total: nat) returns (r: seq<Out>, base: int)
    ensures DataAdded(outs, r, total, base)
  {
    var data, virtualSize := DataOf(outs, ".idata"), VirtualOf(outs, ".idata");
    var extent := if virtualSize > Wrap(|data|) then virtualSize else Wrap(|data|);
    base := AlignUp(extent, 8);
    if DataFits(outs, total) { BlockEnds(extent, total, base); }
    var end := Wrap(base + total);
    var grown := Resize(data, end);
    ReplacedIs(outs, ".idata", grown, end);
    r := Replace(outs, ".idata", grown, end);
  }

  /** Without overflow the block is aligned and ends where its size says. */
  lemma BlockEnds(extent: nat, total: nat, base: int)
    requires extent + 8 + total < 0x1_0000_0000 && base == AlignUp(extent, 8)
    ensures extent <= base < extent + 8 && base % 8 == 0 && Wrap(base + total) == base + total
  {
    AlignUpBounds(extent, 8);
  }

  /** Whether something synthesized goes into the output called `name`. */
  predicate Synthesized(e: Extras, name: string) {
    (name == ".bss" && e.commons != []) || (name == ".text" && HasCode(e.imports))
      || (name == ".idata" && e.imports != [])
  }

  /**
   An output before and after synthesis: it keeps its bytes, and is blank afterwards if it was and
   nothing was added.
   */
  ghost predicate Extended(before: Out, after: Out, e: Extras) {
    && after.name == before.name && before.data <= after.data && before.virtualSize <= after.virtualSize
    && (Blank(after) <==> Blank(before) && !Synthesized(e, before.name))
    && (before.name !in {".bss", ".text", ".idata"} ==> after == before)
  }

  /** The synthesized parts fit 32 bits. */
  ghost predicate Room(outs: seq<Out>, e: Extras)
    requires ExtrasOk(e)
  {
    && NoOverflow(Commons(e.commons), VirtualOf(outs, ".bss"))
    && |DataOf(outs, ".text")| + 6 * |e.imports| + 2 < 0x1_0000_0000
    && DataFits(outs, e.importBytes)
  }

  lemma OnlyOne(outs: seq<Out>, name: string, k: nat)
    requires DistinctNames(outs) && k < |outs| && outs[k].name == name
    ensures Find(outs, name) == k
  {
  }

  /** An output that is not called `name` is not touched. */
  lemma NotTouched(before: seq<Out>, after: seq<Out>, name: string, other: string)
    requires OnlyTouches(before, after, name) && name != other
    ensures Find(after, other) == Find(before, other)
      || (Find(before, other) == |before| && Find(after, other) == |after|)
    ensures DataOf(after, other) == DataOf(before, other) && VirtualOf(after, other) == VirtualOf(before, other)
  {
    var k, l := Find(before, other), Find(after, other);
    if k < |before| {
      assert after[k] == before[k];
      assert l <= k;
    }
    if l < |after| { assert l < |before|; }
  }

  lemma ContentsOf(outs: seq<Out>, name: string, k: nat)
    requires DistinctNames(outs) && k < |outs| && outs[k].name == name
    ensures Find(outs, name) == k && DataOf(outs, name) == outs[k].data && VirtualOf(outs, name) == outs[k].virtualSize
  {
    OnlyOne(outs, name, k);
  }

  lemma CommonsExtend(outs: seq<Out>, r: seq<Out>, e: Extras, offsets: seq<int>, k: nat)
    requires ExtrasOk(e) && DistinctNames(outs) && Room(outs, e) && CommonsAdded(outs, r, e.commons, offsets)
    requires k < |outs|
    ensures outs[k].name != ".bss" ==> r[k] == outs[k]
    ensures outs[k].name == ".bss" ==> Extended(outs[k], r[k], e)
  {
    if outs[k].name == ".bss" && e.commons != [] {
      StillDistinct(outs, r, ".bss");
      ContentsOf(outs, ".bss", k);
      ContentsOf(r, ".bss", k);
      EndGrows(Commons(e.commons), outs[k].virtualSize, 0, |e.commons|);
    }
  }

  lemma ThunksExtend(outs: seq<Out>, r: seq<Out>, e: Extras, offsets: seq<int>, k: nat)
    requires DistinctNames(outs) && ThunksAdded(outs, r, e.imports, offsets) && k < |outs|
    ensures outs[k].name != ".text" ==> r[k] == outs[k]
    ensures outs[k].name == ".text" ==> Extended(outs[k], r[k], e)
  {
    if outs[k].name == ".text" {
      StillDistinct(outs, r, ".text");
      ContentsOf(outs, ".text", k);
      ContentsOf(r, ".text", k);
      CodeCounted(e.imports);
    }
  }

  lemma DataExtends(outs: seq<Out>, r: seq<Out>, e: Extras, base: int, k: nat)
    requires ExtrasOk(e) && e.imports != [] && DistinctNames(outs) && k < |outs|
    requires DataFits(outs, e.importBytes) && DataAdded(outs, r, e.importBytes, base)
    ensures outs[k].name != ".idata" ==> r[k] == outs[k]
    ensures outs[k].name == ".idata" ==> Extended(outs[k], r[k], e)
  {
    if outs[k].name == ".idata" {
      StillDistinct(outs, r, ".idata");
      ContentsOf(outs, ".idata", k);
      ContentsOf(r, ".idata", k);
    }
  }

  lemma Unextended(out: Out, e: Extras)
    requires !Synthesized(e, out.name)
    ensures Extended(out, out, e)
  {
  }

  /** The steps of synthesis, one after the other. */
  ghost predicate Steps(outs: seq<Out>, r1: seq<Out>, r2: seq<Out>, r3: seq<Out>, e: Extras, s: Synthesis)
    requires ExtrasOk(e)
  {
    && DistinctNames(outs) && CommonsAdded(outs, r1, e.commons, s.commons)
    && if e.imports == [] then r2 == r3 == r1
      else ThunksAdded(r1, r2, e.imports, s.thunks) && DataAdded(r2, r3, e.importBytes, s.importBase)
  }

  /** What earlier steps leave for later ones. */
  lemma StepsApart(outs: seq<Out>, r1: seq<Out>, r2: seq<Out>, r3: seq<Out>, e: Extras, s: Synthesis)
    requires ExtrasOk(e) && Steps(outs, r1, r2, r3, e, s)
    ensures DistinctNames(r1) && DistinctNames(r2)
    ensures DataOf(r1, ".text") == DataOf(outs, ".text")
    ensures DataOf(r2, ".idata") == DataOf(outs, ".idata") && VirtualOf(r2, ".idata") == VirtualOf(outs, ".idata")
  {
    StillDistinct(outs, r1, ".bss");
    NotTouched(outs, r1, ".bss", ".text");
    NotTouched(outs, r1, ".bss", ".idata");
    if e.imports != [] {
      StillDistinct(r1, r2, ".text");
      NotTouched(r1, r2, ".text", ".idata");
    }
  }

  /** All steps together, output by output. */
  lemma AllExtend(outs: seq<Out>, r1: seq<Out>, r2: seq<Out>, r3: seq<Out>, e: Extras, s: Synthesis, k: nat)
    requires ExtrasOk(e) && Steps(outs, r1, r2, r3, e, s) && Room(outs, e) && k < |outs|
    ensures k < |r3| && Extended(outs[k], r3[k], e)
  {
    StepsApart(outs, r1, r2, r3, e, s);
    CommonsExtend(outs, r1, e, s.commons, k);
    if e.imports != [] {
      ThunksExtend(r1, r2, e, s.thunks, k);
      DataExtends(r2, r3, e, s.importBase, k);
    }
    if !Synthesized(e, outs[k].name) { Unextended(outs[k], e); }
  }

  /**
   Everything synthesized is in its output, behind what was there: `bss` and `idata` are extents,
   `code` the bytes of .text.
   */
  ghost predicate SynthesisIn(outs: seq<Out>, e: Extras, s: Synthesis, bss: int, code: nat, idata: int)
    requires ExtrasOk(e)
  {
    && (e.commons != [] ==> CommonsIn(outs, e.commons, bss, s.commons))
    && (HasCode(e.imports) ==> ThunksIn(outs, e.imports, code, s.thunks))
    && (e.imports != [] ==> ImportsIn(outs, e.importBytes, idata, s.importBase))
  }

  lemma AllSynthesized(outs: seq<Out>, r1: seq<Out>, r2: seq<Out>, r3: seq<Out>, e: Extras, s: Synthesis)
    requires ExtrasOk(e) && Steps(outs, r1, r2, r3, e, s) && Room(outs, e)
    ensures SynthesisIn(r3, e, s, VirtualOf(outs, ".bss"), |DataOf(outs, ".text")|, VirtualOf(outs, ".idata"))
  {
    StepsApart(outs, r1, r2, r3, e, s);
    if e.imports != [] {
      NotTouched(r1, r2, ".text", ".bss");
      NotTouched(r2, r3, ".idata", ".bss");
      NotTouched(r2, r3, ".idata", ".text");
    }
  }

  /** Names stay distinct, and new outputs carry synthesized names. */
  ghost predicate NamesKept(outs: seq<Out>, r: seq<Out>) {
    && |outs| <= |r| && DistinctNames(r) && (forall k :: 0 <= k < |outs| ==> r[k].name == outs[k].name)
    && (forall k :: |outs| <= k < |r| ==> r[k].name in {".bss", ".text", ".idata"})
  }

  lemma NamesKeptStep(outs: seq<Out>, r: seq<Out>, next: seq<Out>, name: string)
    requires NamesKept(outs, r) && OnlyTouches(r, next, name) && name in {".bss", ".text", ".idata"}
    ensures NamesKept(outs, next)
  {
    StillDistinct(r, next, name);
  }

  /** A new output is blank unless something was synthesized into it. */
  ghost predicate NewFilled(outs: seq<Out>, r: seq<Out>, e: Extras)
  {
    forall k :: |outs| <= k < |r| && !Blank(r[k]) ==> Synthesized(e, r[k].name)
  }

  lemma NewTextFilled(outs: seq<Out>, r1: seq<Out>, r2: seq<Out>, e: Extras, offsets: seq<int>)
    requires NewFilled(outs, r1, e) && DistinctNames(r1) && |outs| <= |r1| && ThunksAdded(r1, r2, e.imports, offsets)
    ensures NewFilled(outs, r2, e)
  {
    StillDistinct(r1, r2, ".text");
    forall k | |outs| <= k < |r2| && !Blank(r2[k]) ensures Synthesized(e, r2[k].name) {
      if r2[k].name == ".text" {
        ContentsOf(r2, ".text", k);
        if k < |r1| { ContentsOf(r1, ".text", k); }
      }
    }
  }

  lemma AllFilled(outs: seq<Out>, r1: seq<Out>, r2: seq<Out>, r3: seq<Out>, e: Extras, s: Synthesis)
    requires ExtrasOk(e) && Steps(outs, r1, r2, r3, e, s)
    ensures NewFilled(outs, r3, e)
  {
    StepsApart(outs, r1, r2, r3, e, s);
    NewBssFilled(outs, r1, e, s.commons);
    if e.imports != [] {
      NewTextFilled(outs, r1, r2, e, s.thunks);
      NewDataFilled(outs, r2, r3, e, s.importBase);
    }
  }

  lemma NewBssFilled(outs: seq<Out>, r: seq<Out>, e: Extras, offsets: seq<int>)
    requires ExtrasOk(e) && CommonsAdded(outs, r, e.commons, offsets)
    ensures NewFilled(outs, r, e)
  {
  }

  lemma NewDataFilled(outs: seq<Out>, r2: seq<Out>, r3: seq<Out>, e: Extras, base: int)
    requires NewFilled(outs, r2, e) && |outs| <= |r2| && DataAdded(r2, r3, e.importBytes, base) && e.imports != []
    ensures NewFilled(outs, r3, e)
  {
  }

  /** Everything link adds before it looks at the outputs again. */
  method Synthesize(outs: seq<Out>, e: Extras) returns (r: seq<Out>, s: Synthesis)
    requires ExtrasOk(e) && DistinctNames(outs) && VirtualOf(outs, ".bss") >= 0
    ensures NamesKept(outs, r) && NewFilled(outs, r, e)
    ensures Room(outs, e) ==> forall k :: 0 <= k < |outs| ==> Extended(outs[k], r[k], e)
    ensures Room(outs, e) ==>
      SynthesisIn(r, e, s, VirtualOf(outs, ".bss"), |DataOf(outs, ".text")|, VirtualOf(outs, ".idata"))
  {
    var r1, r2, commons, thunks, base;
    r1, commons := AddCommons(outs, e.commons);
    NamesKeptStep(outs, outs, r1, ".bss");
    if e.imports == [] {
      r, r2, thunks, base := r1, r1, [], 0;
    } else {
      r2, thunks := AddThunks(r1, e.imports);
      r, base := AddImportData(r2, e.importBytes);
      NamesKeptStep(outs, r1, r2, ".text");
      NamesKeptStep(outs, r2, r, ".idata");
    }
    s := Synthesis(commons, thunks, base);
    AllFilled(outs, r1, r2, r, e, s);
    if Room(outs, e) {
      forall k | 0 <= k < |outs| ensures Extended(outs[k], r[k], e) { AllExtend(outs, r1, r2, r, e, s, k); }
      AllSynthesized(outs, r1, r2, r, e, s);
    }
  }
}
