/**
 The layout phase of link as a whole: which placed sections have an address, in which output
 section of the image, and with which bytes, stated in terms of the input alone.
 */
module ImageLayout {
  import opened Coff
  import opened Bytes
  import opened Align
  import opened Layout
  import opened Outputs
  import opened Targets
  import opened Arrange
  import opened SectionOrder
  import opened ImportThunks

  // ---------- what the input says ----------

  /** The placed sections that go to output `name`, in input order. */
  ghost function PlacedIn(objects: seq<Object>, placed: set<Ref>, name: string): (refs: seq<Ref>)
    ensures AllExist(objects, refs) && Distinct(refs)
    ensures forall r :: r in refs <==> Exists(objects, r) && r in placed && OutputName(objects, r) == name
  {
    RefsAreSections(objects, |objects|);
    MembersAre(objects, placed, name, AllRefs(objects));
    var refs := Members(objects, placed, name, AllRefs(objects));
    assert forall i :: 0 <= i < |refs| ==> refs[i] in refs;
    refs
  }

  /** The contributions to output `name` fit 32 bits. */
  ghost predicate ExtentFits(objects: seq<Object>, placed: set<Ref>, name: string) {
    NoOverflow(GroupItems(objects, PlacedIn(objects, placed, name)), 0)
  }

  /** Where the contributions to output `name` end. */
  ghost function Extent(objects: seq<Object>, placed: set<Ref>, name: string): int {
    var refs := PlacedIn(objects, placed, name);
    EndOf(GroupItems(objects, refs), 0, |refs|)
  }

  /** Where the bytes contributed to output `name` end. */
  ghost function Initialized(objects: seq<Object>, placed: set<Ref>, name: string): (n: nat) {
    var refs := PlacedIn(objects, placed, name);
    DataEndPositive(GroupItems(objects, refs), 0, 0, |refs|);
    DataEnd(GroupItems(objects, refs), 0, 0, |refs|)
  }

  /** Section `r` is at the offset of its item in its output. */
  ghost predicate AtItem(objects: seq<Object>, placed: set<Ref>, r: Ref, offset: int) {
    var refs := PlacedIn(objects, placed, OutputName(objects, r));
    var sorted := SortContributions(objects, refs);
    |sorted| == |refs| && forall i :: 0 <= i < |sorted| && sorted[i] == r ==>
      offset == OffsetOf(GroupItems(objects, refs), 0, i)
  }

  /** Some placed section of this canonical name has a size. */
  ghost predicate Contributed(objects: seq<Object>, placed: set<Ref>, name: string) {
    exists r :: Exists(objects, r) && r in placed && OutputName(objects, r) == name && LogicalSize(At(objects, r)) > 0
  }

  /** The output is in the image: it has contributions with a size, or something is synthesized into it. */
  ghost predicate Occupied(objects: seq<Object>, placed: set<Ref>, e: Extras, name: string) {
    Contributed(objects, placed, name) || Synthesized(e, name)
  }

  /** The image has no output at all. */
  ghost predicate NothingThere(objects: seq<Object>, placed: set<Ref>, e: Extras) {
    Absolutes(objects, placed) == 0 && forall name :: !Occupied(objects, placed, e, name)
  }

  predicate IsAbsolute(relocation: Relocation) {
    relocation.kind == 1 || relocation.kind == 2
  }

  function CountIn(relocations: seq<Relocation>): nat {
    if relocations == [] then 0
    else CountIn(relocations[..|relocations| - 1]) + if IsAbsolute(relocations[|relocations| - 1]) then 1 else 0
  }

  /** The positions of the ADDR64 (1) and ADDR32 (2) relocations of a section. */
  ghost function AbsolutesIn(relocations: seq<Relocation>): set<int> {
    set i | 0 <= i < |relocations| && (relocations[i].kind == 1 || relocations[i].kind == 2)
  }

  lemma {:induction false} CountInIs(relocations: seq<Relocation>)
    ensures CountIn(relocations) == |AbsolutesIn(relocations)|
  {
    if relocations != [] {
      var front, last := relocations[..|relocations| - 1], |relocations| - 1;
      CountInIs(front);
      var before := AbsolutesIn(front);
      assert AbsolutesIn(relocations) == if IsAbsolute(relocations[last]) then before + {last} else before;
    }
  }

  /** The ADDR64 and ADDR32 relocations of the placed sections among `refs`. */
  function CountAbsolute(objects: seq<Object>, placed: set<Ref>, refs: seq<Ref>): nat {
    if refs == [] then 0
    else
      var last := refs[|refs| - 1];
      CountAbsolute(objects, placed, refs[..|refs| - 1]) +
      if last in placed && Exists(objects, last) then CountIn(At(objects, last).relocations) else 0
  }

  function Absolutes(objects: seq<Object>, placed: set<Ref>): nat {
    CountAbsolute(objects, placed, AllRefs(objects))
  }

  /** What is synthesized fits 32 bits behind what is contributed. */
  ghost predicate Roomy(objects: seq<Object>, placed: set<Ref>, e: Extras)
    requires ExtrasOk(e)
  {
    && ExtentFits(objects, placed, ".bss") && ExtentFits(objects, placed, ".text")
    && ExtentFits(objects, placed, ".idata")
    && NoOverflow(Commons(e.commons), Extent(objects, placed, ".bss"))
    && Extent(objects, placed, ".text") + 6 * |e.imports| + 2 < 0x1_0000_0000
    && Extent(objects, placed, ".idata") + 8 + e.importBytes < 0x1_0000_0000
    && 12 * Absolutes(objects, placed) < 0x1_0000_0000
  }

  lemma TwoDiffer(refs: seq<Ref>, r: Ref)
    requires Distinct(refs) && |refs| > 1
    ensures exists q :: q in refs && q != r
  {
    if refs[0] != r { assert refs[0] in refs; } else { assert refs[1] in refs; }
  }

  /** An output that only section `r` can go to is as long as that section. */
  lemma OneSection(objects: seq<Object>, placed: set<Ref>, name: string, r: Ref)
    requires Exists(objects, r) && LogicalSize(At(objects, r)) < 0x8000_0000
    requires forall q :: q in PlacedIn(objects, placed, name) ==> q == r
    ensures ExtentFits(objects, placed, name)
    ensures Extent(objects, placed, name) == if r in PlacedIn(objects, placed, name) then LogicalSize(At(objects, r))
      else 0
  {
    var refs := PlacedIn(objects, placed, name);
    if |refs| > 1 { TwoDiffer(refs, r); }
    SortedOk(objects, refs);
    if |refs| == 1 { OneItem(GroupItems(objects, refs), objects, refs, r); }
  }

  lemma OneItem(items: seq<Item>, objects: seq<Object>, refs: seq<Ref>, r: Ref)
    requires AllExist(objects, refs) && |refs| == 1 && items == GroupItems(objects, refs) && Exists(objects, r)
    requires (forall q :: q in refs ==> q == r) && LogicalSize(At(objects, r)) < 0x8000_0000
    ensures r in refs && NoOverflow(items, 0) && EndOf(items, 0, 1) == LogicalSize(At(objects, r))
  {
    SortedOk(objects, refs);
    var sorted := SortContributions(objects, refs);
    assert sorted[0] in sorted && refs[0] in refs;
    assert items[0] == ItemOf(At(objects, r));
    NextMultipleBounds(0, items[0].alignment);
    ModUnique(NextMultiple(0, items[0].alignment), items[0].alignment, 0, NextMultiple(0, items[0].alignment));
    assert EndOf(items, 0, 0) == 0;
  }

  // ---------- what the image shows ----------

  /** Without overflow section `r` is at the offset of its item in `out`, with its bytes, and inside. */
  ghost predicate ExactlyAt(objects: seq<Object>, placed: set<Ref>, r: Ref, offset: int, out: Out)
    requires Exists(objects, r)
  {
    && AtItem(objects, placed, r, offset) && Extent(objects, placed, OutputName(objects, r)) <= out.virtualSize
    && (At(objects, r).data != [] ==> Holds(out.data, offset, At(objects, r).data))
  }

  /** Section `r` is in the first output of its canonical name. */
  ghost predicate InOutput(objects: seq<Object>, placed: set<Ref>, r: Ref, a: Address, outs: seq<Out>)
    requires Exists(objects, r)
  {
    && a.output == Find(outs, OutputName(objects, r)) < |outs|
    && (ExtentFits(objects, placed, OutputName(objects, r)) ==> ExactlyAt(objects, placed, r, a.offset, outs[a.output]))
  }

  /** The output that the base relocations go to: a contributed .reloc before the reserved one. */
  ghost predicate RelocOutput(objects: seq<Object>, placed: set<Ref>, outs: seq<Out>) {
    var k := Find(outs, ".reloc");
    && k < |outs|
    && if Contributed(objects, placed, ".reloc")
       then ExtentFits(objects, placed, ".reloc") ==> outs[k].virtualSize == Extent(objects, placed, ".reloc")
       else outs[k].virtualSize == 12 * Absolutes(objects, placed)
  }

  /** What is synthesized lies behind what is contributed. */
  ghost predicate BehindContributions(objects: seq<Object>, placed: set<Ref>, e: Extras, outs: seq<Out>, s: Synthesis)
    requires ExtrasOk(e)
  {
    SynthesisIn(outs, e, s, Extent(objects, placed, ".bss"), Initialized(objects, placed, ".text"),
      Extent(objects, placed, ".idata"))
  }

  /** The layout of an image: sections, synthesized contents, and no output without either. */
  ghost predicate LaidOut(objects: seq<Object>, placed: set<Ref>, e: Extras, outs: seq<Out>,
          placements: map<Ref, Address>, s: Synthesis)
    requires ExtrasOk(e)
  {
    && (forall r :: r in placements <==>
          Exists(objects, r) && r in placed && Occupied(objects, placed, e, OutputName(objects, r)))
    && (forall r :: r in placements ==> InOutput(objects, placed, r, placements[r], outs))
    && (Absolutes(objects, placed) > 0 ==> RelocOutput(objects, placed, outs))
    && BehindContributions(objects, placed, e, outs, s)
    && (forall k :: 0 <= k < |outs| ==> !Blank(outs[k])) && (outs == [] <==> NothingThere(objects, placed, e))
  }

  // ---------- the groups against the input ----------

  lemma GroupIs(objects: seq<Object>, placed: set<Ref>, groups: seq<Group>, k: nat)
    requires GroupsOk(objects, placed, AllRefs(objects), groups) && k < |groups|
    ensures groups[k].refs == PlacedIn(objects, placed, groups[k].name)
  {
  }

  lemma NotGrouped(objects: seq<Object>, placed: set<Ref>, groups: seq<Group>, name: string)
    requires GroupsOk(objects, placed, AllRefs(objects), groups) && !HasName(groups, name)
    ensures PlacedIn(objects, placed, name) == []
  {
    NoMembers(objects, placed, name, AllRefs(objects));
  }

  /** All sections of a name are without size exactly when the name is not contributed to. */
  lemma AllZero(objects: seq<Object>, placed: set<Ref>, name: string)
    ensures var refs := PlacedIn(objects, placed, name);
      (forall i :: 0 <= i < |refs| ==> LogicalSize(At(objects, refs[i])) == 0) <==> !Contributed(objects, placed, name)
  {
    var refs := PlacedIn(objects, placed, name);
    if Contributed(objects, placed, name) {
      var r :| Exists(objects, r) && r in placed && OutputName(objects, r) == name && LogicalSize(At(objects, r)) > 0;
      assert r in refs;
      var i :| 0 <= i < |refs| && refs[i] == r;
      assert LogicalSize(At(objects, refs[i])) != 0;
    } else {
      forall i | 0 <= i < |refs| ensures LogicalSize(At(objects, refs[i])) == 0 {
        assert refs[i] in refs;
      }
    }
  }

  lemma GroupShows(objects: seq<Object>, group: Group, k: nat, out: Out, spots: map<Ref, Address>)
    requires GroupAt(objects, group, k, out, spots)
    ensures Blank(out) <==> forall i :: 0 <= i < |group.refs| ==> LogicalSize(At(objects, group.refs[i])) == 0
    ensures NoOverflow(GroupItems(objects, group.refs), 0) ==>
      && |out.data| <= out.virtualSize == EndOf(GroupItems(objects, group.refs), 0, |group.refs|)
      && |out.data| == DataEnd(GroupItems(objects, group.refs), 0, 0, |group.refs|)
  {
  }

  /** A group shows a size exactly when its name is contributed to. */
  lemma BlankIffNotContributed(objects: seq<Object>, placed: set<Ref>, group: Group, k: nat, out: Out,
          spots: map<Ref, Address>)
    requires GroupAt(objects, group, k, out, spots) && group.refs == PlacedIn(objects, placed, group.name)
    ensures Blank(out) <==> !Contributed(objects, placed, group.name)
  {
    GroupShows(objects, group, k, out, spots);
    AllZero(objects, placed, group.name);
  }

  lemma GroupNames(objects: seq<Object>, placed: set<Ref>, groups: seq<Group>, outs: seq<Out>, spots: map<Ref, Address>)
    requires GroupsOk(objects, placed, AllRefs(objects), groups) && GroupsPlaced(objects, groups, |groups|, outs, spots)
    ensures DistinctNames(outs)
    ensures forall k :: 0 <= k < |outs| ==> outs[k].name == groups[k].name && outs[k].virtualSize >= 0
  {
    forall k | 0 <= k < |outs| ensures outs[k].name == groups[k].name && outs[k].virtualSize >= 0 {
      assert GroupAt(objects, groups[k], k, outs[k], spots);
    }
  }

  lemma GroupExtent(objects: seq<Object>, placed: set<Ref>, group: Group, k: nat, out: Out, spots: map<Ref, Address>)
    requires GroupAt(objects, group, k, out, spots) && group.refs == PlacedIn(objects, placed, group.name)
    requires ExtentFits(objects, placed, group.name)
    ensures |out.data| <= out.virtualSize == Extent(objects, placed, group.name)
    ensures |out.data| == Initialized(objects, placed, group.name)
  {
    GroupShows(objects, group, k, out, spots);
  }

  lemma NotFound(groups: seq<Group>, outs: seq<Out>, name: string)
    requires |outs| == |groups| && (forall k :: 0 <= k < |outs| ==> outs[k].name == groups[k].name)
    requires Find(outs, name) == |outs|
    ensures !HasName(groups, name)
  {
    assert forall i :: 0 <= i < |outs| ==> outs[i].name != name;
  }

  /** Extent and bytes of the output called `name`, grouped or not. */
  lemma ExtentOf(objects: seq<Object>, placed: set<Ref>, groups: seq<Group>, outs: seq<Out>, spots: map<Ref, Address>,
          name: string)
    requires GroupsOk(objects, placed, AllRefs(objects), groups) && GroupsPlaced(objects, groups, |groups|, outs, spots)
    requires ExtentFits(objects, placed, name)
    ensures VirtualOf(outs, name) == Extent(objects, placed, name) && |DataOf(outs, name)| <= VirtualOf(outs, name)
    ensures |DataOf(outs, name)| == Initialized(objects, placed, name)
  {
    GroupNames(objects, placed, groups, outs, spots);
    var k := Find(outs, name);
    if k < |outs| {
      GroupIs(objects, placed, groups, k);
      GroupExtent(objects, placed, groups[k], k, outs[k], spots);
    } else {
      NotFound(groups, outs, name);
      NotGrouped(objects, placed, groups, name);
    }
  }

  lemma RoomFound(objects: seq<Object>, placed: set<Ref>, e: Extras, groups: seq<Group>, outs: seq<Out>,
          spots: map<Ref, Address>)
    requires ExtrasOk(e) && GroupsOk(objects, placed, AllRefs(objects), groups)
    requires GroupsPlaced(objects, groups, |groups|, outs, spots)
    requires Roomy(objects, placed, e)
    ensures Room(outs, e) && VirtualOf(outs, ".bss") == Extent(objects, placed, ".bss")
    ensures |DataOf(outs, ".text")| == Initialized(objects, placed, ".text")
    ensures VirtualOf(outs, ".idata") == Extent(objects, placed, ".idata")
  {
    ExtentOf(objects, placed, groups, outs, spots, ".bss");
    ExtentOf(objects, placed, groups, outs, spots, ".text");
    ExtentOf(objects, placed, groups, outs, spots, ".idata");
  }

  // ---------- the whole phase ----------

  /** Twelve bytes per absolute relocation, in an output of their own. */
  function WithReserve(outs: seq<Out>, absolutes: nat): seq<Out> {
    if absolutes == 0 then outs
    else
      var reserve := Wrap(12 * absolutes);
      outs + [Out(".reloc", Zeros(reserve), reserve)]
  }

  /** The state before blank outputs are dropped: groups, their outputs, and everything synthesized. */
  ghost predicate Prepared(objects: seq<Object>, placed: set<Ref>, e: Extras, groups: seq<Group>, outs: seq<Out>,
          spots: map<Ref, Address>, all: seq<Out>) {
    && GroupsOk(objects, placed, AllRefs(objects), groups) && GroupsPlaced(objects, groups, |groups|, outs, spots)
    && NamesKept(outs, all) && forall k :: 0 <= k < |outs| ==> Extended(outs[k], all[k], e)
  }

  /** One group in the final list of outputs before dropping. */
  lemma GroupKept(objects: seq<Object>, placed: set<Ref>, e: Extras, groups: seq<Group>, outs: seq<Out>,
          spots: map<Ref, Address>, all: seq<Out>, k: nat)
    requires Prepared(objects, placed, e, groups, outs, spots, all) && k < |groups|
    ensures all[k].name == groups[k].name && outs[k].data <= all[k].data
    ensures Blank(all[k]) <==> !Occupied(objects, placed, e, groups[k].name)
  {
    GroupIs(objects, placed, groups, k);
    GroupNames(objects, placed, groups, outs, spots);
    BlankIffNotContributed(objects, placed, groups[k], k, outs[k], spots);
    assert Extended(outs[k], all[k], e);
  }

  /** The group of a section that has a spot. */
  lemma SpotGroup(objects: seq<Object>, placed: set<Ref>, groups: seq<Group>, outs: seq<Out>, spots: map<Ref, Address>,
          r: Ref)
    requires GroupsOk(objects, placed, AllRefs(objects), groups) && GroupsPlaced(objects, groups, |groups|, outs, spots)
    requires r in spots
    ensures Exists(objects, r) && r in placed && spots[r].output < |groups|
    ensures r in groups[spots[r].output].refs && groups[spots[r].output].name == OutputName(objects, r)
  {
    assert Grouped(groups, |groups|, r);
    var k :| 0 <= k < |groups| && r in groups[k].refs;
    GroupsApart(objects, placed, groups, k);
    assert GroupAt(objects, groups[k], k, outs[k], spots);
  }

  lemma AllHaveSpots(objects: seq<Object>, placed: set<Ref>, groups: seq<Group>, outs: seq<Out>,
          spots: map<Ref, Address>, r: Ref)
    requires GroupsOk(objects, placed, AllRefs(objects), groups) && GroupsPlaced(objects, groups, |groups|, outs, spots)
    requires Exists(objects, r) && r in placed
    ensures r in spots
  {
    RefsAreSections(objects, |objects|);
    assert HasName(groups, OutputName(objects, r));
    var k :| 0 <= k < |groups| && groups[k].name == OutputName(objects, r);
    GroupsApart(objects, placed, groups, k);
    assert GroupAt(objects, groups[k], k, outs[k], spots);
  }

  lemma BytesHeld(objects: seq<Object>, refs: seq<Ref>, data: seq<byte>, spots: map<Ref, int>, r: Ref)
    requires AllExist(objects, refs) && BytesAt(objects, refs, data, spots) && r in refs && r in spots
    requires Exists(objects, r) && At(objects, r).data != []
    ensures Holds(data, spots[r], At(objects, r).data)
  {
    var i :| 0 <= i < |refs| && refs[i] == r;
  }

  /** The place of a section in its group's output. */
  lemma GroupSpot(objects: seq<Object>, placed: set<Ref>, group: Group, k: nat, out: Out, spots: map<Ref, Address>,
          r: Ref)
    requires GroupAt(objects, group, k, out, spots) && group.refs == PlacedIn(objects, placed, group.name)
    requires ExtentFits(objects, placed, group.name) && r in group.refs && r in spots && Exists(objects, r)
    requires OutputName(objects, r) == group.name
    ensures ExactlyAt(objects, placed, r, spots[r].offset, out)
  {
    var local := Offsets(spots, group.refs);
    assert ExactlyPlaced(objects, group.refs, out, local);
    if At(objects, r).data != [] { BytesHeld(objects, group.refs, out.data, local, r); }
    SpotAtItem(objects, group.refs, local, r);
    assert local[r] == spots[r].offset;
  }

  lemma SpotAtItem(objects: seq<Object>, refs: seq<Ref>, spots: map<Ref, int>, r: Ref)
    requires AllExist(objects, refs) && OffsetsAt(objects, refs, spots) && r in spots
    ensures var sorted := SortContributions(objects, refs);
      |sorted| == |refs| && forall i :: 0 <= i < |sorted| && sorted[i] == r ==>
        spots[r] == OffsetOf(GroupItems(objects, refs), 0, i)
  {
  }

  /** Synthesis does not move a section. */
  lemma ExactlyExtended(objects: seq<Object>, placed: set<Ref>, r: Ref, offset: int, before: Out, after: Out, e: Extras)
    requires Exists(objects, r) && ExactlyAt(objects, placed, r, offset, before) && Extended(before, after, e)
    ensures ExactlyAt(objects, placed, r, offset, after)
  {
    if At(objects, r).data != [] { HoldsLonger(before.data, after.data, offset, At(objects, r).data); }
  }

  lemma SpotExact(objects: seq<Object>, placed: set<Ref>, groups: seq<Group>, outs: seq<Out>, spots: map<Ref, Address>,
          all: seq<Out>, e: Extras, r: Ref, k: nat)
    requires Prepared(objects, placed, e, groups, outs, spots, all)
    requires k < |groups| && r in groups[k].refs && r in spots && Exists(objects, r)
    requires ExtentFits(objects, placed, groups[k].name) && OutputName(objects, r) == groups[k].name
    ensures ExactlyAt(objects, placed, r, spots[r].offset, all[k])
  {
    GroupIs(objects, placed, groups, k);
    GroupSpot(objects, placed, groups[k], k, outs[k], spots, r);
    ExactlyExtended(objects, placed, r, spots[r].offset, outs[k], all[k], e);
  }

  /** The first output of a group's name in the image is that of the group, when it is occupied. */
  lemma GroupFound(objects: seq<Object>, placed: set<Ref>, e: Extras, groups: seq<Group>, outs: seq<Out>,
          spots: map<Ref, Address>, all: seq<Out>, order: seq<nat>, full: seq<Out>, k: nat)
    requires Prepared(objects, placed, e, groups, outs, spots, all) && all <= full && OrderOk(full, order)
    requires k < |groups| && Occupied(objects, placed, e, groups[k].name)
    ensures var i := Find(Ordered(full, order), groups[k].name);
      i < |order| && order[i] == k && Ordered(full, order)[i] == all[k]
  {
    GroupKept(objects, placed, e, groups, outs, spots, all, k);
    assert forall j :: 0 <= j <= k ==> full[j] == all[j];
    FirstKept(full, order, groups[k].name, k);
  }

  /** A placed section is in the image exactly when its output is occupied. */
  lemma PlacedIffOccupied(objects: seq<Object>, placed: set<Ref>, e: Extras, groups: seq<Group>, outs: seq<Out>,
          spots: map<Ref, Address>, all: seq<Out>, order: seq<nat>, placements: map<Ref, Address>, full: seq<Out>,
          r: Ref)
    requires Prepared(objects, placed, e, groups, outs, spots, all) && all <= full
    requires OrderOk(full, order) && Renumbered(full, order, spots, placements)
    ensures r in placements <==>
      Exists(objects, r) && r in placed && Occupied(objects, placed, e, OutputName(objects, r))
  {
    if r in spots {
      SpotGroup(objects, placed, groups, outs, spots, r);
      GroupKept(objects, placed, e, groups, outs, spots, all, spots[r].output);
    } else if Exists(objects, r) && r in placed {
      AllHaveSpots(objects, placed, groups, outs, spots, r);
    }
  }

  lemma SectionFound(objects: seq<Object>, placed: set<Ref>, e: Extras, groups: seq<Group>, outs: seq<Out>,
          spots: map<Ref, Address>, all: seq<Out>, order: seq<nat>, placements: map<Ref, Address>, full: seq<Out>,
          r: Ref)
    requires Prepared(objects, placed, e, groups, outs, spots, all) && all <= full && r in placements
    requires OrderOk(full, order) && Renumbered(full, order, spots, placements)
    ensures Exists(objects, r) && InOutput(objects, placed, r, placements[r], Ordered(full, order))
  {
    PlacedIffOccupied(objects, placed, e, groups, outs, spots, all, order, placements, full, r);
    SpotGroup(objects, placed, groups, outs, spots, r);
    var k := spots[r].output;
    GroupFound(objects, placed, e, groups, outs, spots, all, order, full, k);
    OrderDistinct(full, order);
    if ExtentFits(objects, placed, groups[k].name) { SpotExact(objects, placed, groups, outs, spots, all, e, r, k); }
  }

  lemma RelocExtent(objects: seq<Object>, placed: set<Ref>, e: Extras, groups: seq<Group>, outs: seq<Out>,
          spots: map<Ref, Address>, all: seq<Out>, k: nat)
    requires Prepared(objects, placed, e, groups, outs, spots, all) && k < |groups| && groups[k].name == ".reloc"
    requires ExtentFits(objects, placed, ".reloc")
    ensures all[k].virtualSize == Extent(objects, placed, ".reloc")
  {
    GroupNames(objects, placed, groups, outs, spots);
    GroupIs(objects, placed, groups, k);
    GroupExtent(objects, placed, groups[k], k, outs[k], spots);
    assert Extended(outs[k], all[k], e);
  }

  /** A contributed .reloc comes first. */
  lemma ContributedReloc(objects: seq<Object>, placed: set<Ref>, e: Extras, groups: seq<Group>, outs: seq<Out>,
          spots: map<Ref, Address>, all: seq<Out>, order: seq<nat>, full: seq<Out>)
    requires Prepared(objects, placed, e, groups, outs, spots, all) && all <= full && OrderOk(full, order)
    requires Contributed(objects, placed, ".reloc")
    ensures RelocOutput(objects, placed, Ordered(full, order))
  {
    var r :| Exists(objects, r) && r in placed && OutputName(objects, r) == ".reloc" && LogicalSize(At(objects, r)) > 0;
    AllHaveSpots(objects, placed, groups, outs, spots, r);
    SpotGroup(objects, placed, groups, outs, spots, r);
    var k := spots[r].output;
    GroupFound(objects, placed, e, groups, outs, spots, all, order, full, k);
    if ExtentFits(objects, placed, ".reloc") { RelocExtent(objects, placed, e, groups, outs, spots, all, k); }
  }

  lemma BlankReloc(objects: seq<Object>, placed: set<Ref>, e: Extras, groups: seq<Group>, outs: seq<Out>,
          spots: map<Ref, Address>, all: seq<Out>, j: nat)
    requires Prepared(objects, placed, e, groups, outs, spots, all) && !Contributed(objects, placed, ".reloc")
    requires j < |all| && all[j].name == ".reloc"
    ensures Blank(all[j])
  {
    GroupKept(objects, placed, e, groups, outs, spots, all, j);
  }

  lemma ReserveLast(all: seq<Out>, absolutes: nat)
    requires 0 < absolutes && 12 * absolutes < 0x1_0000_0000
    ensures var full := WithReserve(all, absolutes);
      |full| == |all| + 1 && all <= full && full[|all|].name == ".reloc"
        && full[|all|].virtualSize == 12 * absolutes > 0
  {
  }

  /** Otherwise the reserved one is the only one that is kept. */
  lemma ReservedReloc(objects: seq<Object>, placed: set<Ref>, e: Extras, groups: seq<Group>, outs: seq<Out>,
          spots: map<Ref, Address>, all: seq<Out>, order: seq<nat>, full: seq<Out>, absolutes: nat)
    requires Prepared(objects, placed, e, groups, outs, spots, all) && full == WithReserve(all, absolutes)
    requires OrderOk(full, order)
    requires !Contributed(objects, placed, ".reloc") && absolutes == Absolutes(objects, placed) > 0
    requires 12 * absolutes < 0x1_0000_0000
    ensures RelocOutput(objects, placed, Ordered(full, order))
  {
    ReserveLast(all, absolutes);
    forall j | 0 <= j < |all| && full[j].name == ".reloc" ensures Blank(full[j]) {
      assert full[j] == all[j];
      BlankReloc(objects, placed, e, groups, outs, spots, all, j);
    }
    FirstKept(full, order, ".reloc", |all|);
  }

  // ---------- synthesized contents in the image ----------

  /** An output of its own name that is not blank has its contents in the image. */
  lemma ContentsKept(all: seq<Out>, full: seq<Out>, order: seq<nat>, name: string)
    requires DistinctNames(all) && all <= full && OrderOk(full, order) && Find(all, name) < |all|
    requires !Blank(all[Find(all, name)])
    ensures var outs := Ordered(full, order);
      Find(outs, name) < |outs| && DataOf(outs, name) == DataOf(all, name)
        && VirtualOf(outs, name) == VirtualOf(all, name)
  {
    var k := Find(all, name);
    assert forall j :: 0 <= j <= k ==> full[j] == all[j];
    FirstKept(full, order, name, k);
  }

  /** What is synthesized is not blank. */
  lemma SynthesizedFilled(all: seq<Out>, e: Extras, s: Synthesis, bss: int, code: nat, idata: int, name: string)
    requires ExtrasOk(e) && SynthesisIn(all, e, s, bss, code, idata) && Synthesized(e, name) && idata >= 0
    ensures Find(all, name) < |all| && !Blank(all[Find(all, name)])
  {
    CodeCounted(e.imports);
  }

  lemma SynthesisKept(all: seq<Out>, full: seq<Out>, order: seq<nat>, e: Extras, s: Synthesis, bss: int, code: nat,
          idata: int)
    requires ExtrasOk(e) && SynthesisIn(all, e, s, bss, code, idata) && idata >= 0
    requires DistinctNames(all) && all <= full && OrderOk(full, order)
    ensures SynthesisIn(Ordered(full, order), e, s, bss, code, idata)
  {
    if Synthesized(e, ".bss") { KeptUnder(all, full, order, e, s, bss, code, idata, ".bss"); }
    if Synthesized(e, ".text") { KeptUnder(all, full, order, e, s, bss, code, idata, ".text"); }
    if Synthesized(e, ".idata") { KeptUnder(all, full, order, e, s, bss, code, idata, ".idata"); }
  }

  lemma KeptUnder(all: seq<Out>, full: seq<Out>, order: seq<nat>, e: Extras, s: Synthesis, bss: int, code: nat,
          idata: int, name: string)
    requires ExtrasOk(e) && SynthesisIn(all, e, s, bss, code, idata) && idata >= 0 && Synthesized(e, name)
    requires DistinctNames(all) && all <= full && OrderOk(full, order)
    ensures var outs := Ordered(full, order);
      Find(outs, name) < |outs| && DataOf(outs, name) == DataOf(all, name)
        && VirtualOf(outs, name) == VirtualOf(all, name)
  {
    SynthesizedFilled(all, e, s, bss, code, idata, name);
    ContentsKept(all, full, order, name);
  }

  // ---------- when there is no output ----------

  /** Whatever is kept is occupied or the reservation. */
  lemma KeptIsThere(objects: seq<Object>, placed: set<Ref>, e: Extras, groups: seq<Group>, outs: seq<Out>,
          spots: map<Ref, Address>, all: seq<Out>, full: seq<Out>, k: nat)
    requires Prepared(objects, placed, e, groups, outs, spots, all) && NewFilled(outs, all, e)
    requires full == WithReserve(all, Absolutes(objects, placed)) && k < |full| && !Blank(full[k])
    ensures !NothingThere(objects, placed, e)
  {
    if k < |groups| {
      GroupKept(objects, placed, e, groups, outs, spots, all, k);
      assert Occupied(objects, placed, e, groups[k].name);
    } else if k < |all| {
      assert Occupied(objects, placed, e, all[k].name);
    }
  }

  /** Whatever is occupied, and the reservation, is kept. */
  lemma ThereIsKept(objects: seq<Object>, placed: set<Ref>, e: Extras, groups: seq<Group>, outs: seq<Out>,
          spots: map<Ref, Address>, all: seq<Out>, full: seq<Out>, s: Synthesis, bss: int, code: nat, idata: int,
          name: string)
    requires Prepared(objects, placed, e, groups, outs, spots, all) && all <= full && Occupied(objects, placed, e, name)
    requires ExtrasOk(e) && SynthesisIn(all, e, s, bss, code, idata) && idata >= 0
    ensures exists k: nat :: k < |full| && !Blank(full[k])
  {
    if Synthesized(e, name) {
      SynthesizedFilled(all, e, s, bss, code, idata, name);
      assert full[Find(all, name)] == all[Find(all, name)];
    } else {
      var r :| Exists(objects, r) && r in placed && OutputName(objects, r) == name && LogicalSize(At(objects, r)) > 0;
      AllHaveSpots(objects, placed, groups, outs, spots, r);
      SpotGroup(objects, placed, groups, outs, spots, r);
      GroupKept(objects, placed, e, groups, outs, spots, all, spots[r].output);
      assert full[spots[r].output] == all[spots[r].output];
    }
  }

  lemma EmptyIff(objects: seq<Object>, placed: set<Ref>, e: Extras, groups: seq<Group>, outs: seq<Out>,
          spots: map<Ref, Address>, all: seq<Out>, order: seq<nat>, full: seq<Out>, s: Synthesis, bss: int, code: nat,
          idata: int)
    requires Prepared(objects, placed, e, groups, outs, spots, all) && NewFilled(outs, all, e)
    requires full == WithReserve(all, Absolutes(objects, placed)) && OrderOk(full, order)
    requires 12 * Absolutes(objects, placed) < 0x1_0000_0000
    requires ExtrasOk(e) && SynthesisIn(all, e, s, bss, code, idata) && idata >= 0
    ensures order == [] <==> NothingThere(objects, placed, e)
  {
    if order != [] {
      InOrder(full, order, 0);
      KeptIsThere(objects, placed, e, groups, outs, spots, all, full, order[0]);
    } else if Absolutes(objects, placed) > 0 {
      ReserveLast(all, Absolutes(objects, placed));
    } else {
      forall name ensures !Occupied(objects, placed, e, name) {
        if Occupied(objects, placed, e, name) {
          ThereIsKept(objects, placed, e, groups, outs, spots, all, full, s, bss, code, idata, name);
        }
      }
    }
  }

  lemma LaidOutIs(objects: seq<Object>, placed: set<Ref>, e: Extras, groups: seq<Group>, outs: seq<Out>,
          spots: map<Ref, Address>, all: seq<Out>, order: seq<nat>, full: seq<Out>, placements: map<Ref, Address>,
          s: Synthesis)
    requires Prepared(objects, placed, e, groups, outs, spots, all) && NewFilled(outs, all, e)
    requires full == WithReserve(all, Absolutes(objects, placed)) && 12 * Absolutes(objects, placed) < 0x1_0000_0000
    requires OrderOk(full, order) && Renumbered(full, order, spots, placements)
    requires ExtrasOk(e) && BehindContributions(objects, placed, e, all, s) && Extent(objects, placed, ".idata") >= 0
    ensures LaidOut(objects, placed, e, Ordered(full, order), placements, s)
  {
    var bss, code, idata := Extent(objects, placed, ".bss"), Initialized(objects, placed, ".text"),
      Extent(objects, placed, ".idata");
    SynthesisKept(all, full, order, e, s, bss, code, idata);
    EmptyIff(objects, placed, e, groups, outs, spots, all, order, full, s, bss, code, idata);
    forall r
      ensures r in placements <==>
        Exists(objects, r) && r in placed && Occupied(objects, placed, e, OutputName(objects, r)) {
      PlacedIffOccupied(objects, placed, e, groups, outs, spots, all, order, placements, full, r);
    }
    forall r | r in placements ensures InOutput(objects, placed, r, placements[r], Ordered(full, order)) {
      SectionFound(objects, placed, e, groups, outs, spots, all, order, placements, full, r);
    }
    if Absolutes(objects, placed) > 0 {
      if Contributed(objects, placed, ".reloc") {
        ContributedReloc(objects, placed, e, groups, outs, spots, all, order, full);
      } else {
        ReservedReloc(objects, placed, e, groups, outs, spots, all, order, full, Absolutes(objects, placed));
      }
    }
    forall k | 0 <= k < |order| ensures !Blank(Ordered(full, order)[k]) { InOrder(full, order, k); }
  }

  /** The counting loop before the reservation. */
  method CountRelocations(objects: seq<Object>, placed: set<Ref>) returns (n: nat)
    ensures n == Absolutes(objects, placed)
  {
    var refs := AllRefs(objects);
    n := 0;
    for k := 0 to |refs|
      invariant n == CountAbsolute(objects, placed, refs[..k])
    {
      assert refs[..k + 1][..k] == refs[..k];
      if refs[k] in placed && Exists(objects, refs[k]) { n := n + CountIn(At(objects, refs[k]).relocations); }
    }
    assert refs[..|refs|] == refs;
  }

  /**
   Layout: groups, placement, synthesized contents, dropping and ordering. `placed` are the
   sections that take part.
   */
  method LayOut(objects: seq<Object>, placed: set<Ref>, e: Extras)
    returns (outs: seq<Out>, placements: map<Ref, Address>, s: Synthesis)
    requires Sized(objects) && ExtrasOk(e)
    ensures Roomy(objects, placed, e) ==> LaidOut(objects, placed, e, outs, placements, s)
    ensures (forall r :: r in placements ==> Exists(objects, r) && r in placed) && ImageOrder(outs)
  {
    var groups := GroupSections(objects, placed);
    var contributed, spots := PlaceGroups(objects, placed, groups);
    GroupNames(objects, placed, groups, contributed, spots);
    var all;
    all, s := Synthesize(contributed, e);
    var absolutes := CountRelocations(objects, placed);
    var full := WithReserve(all, absolutes);
    outs, placements := DropAndOrder(full, spots);
    if Roomy(objects, placed, e) {
      RoomFound(objects, placed, e, groups, contributed, spots);
      LaidOutIs(objects, placed, e, groups, contributed, spots, all, Order(full), full, placements, s);
    }
    forall r | r in placements ensures Exists(objects, r) && r in placed {
      SpotGroup(objects, placed, groups, contributed, spots, r);
    }
  }
}
