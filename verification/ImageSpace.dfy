/**
 Who owns which bytes of an output: sections, common symbols, import thunks and the import block
 of a link are pairwise disjoint, except for thunks in the way of an uninitialised tail of .text.
 */
module ImageSpace {
  import opened Coff
  import opened Align
  import opened Layout
  import opened Outputs
  import opened Arrange
  import opened ImageLayout
  import opened ThunkSpace
  import opened ReferenceSafety
  import ImportThunks

  /** What lies in an output. */
  datatype Piece = OfSection(r: Ref) | OfCommon(i: nat) | OfThunk(m: nat) | OfImports

  predicate IsPiece(l: Link, p: Piece) {
    match p
    case OfSection(r) => r in l.placements && Exists(l.c.x.objects, r)
    case OfCommon(i) => i < |l.e.commons|
    case OfThunk(m) => m < |l.e.imports| && l.e.imports[m].isCode
    case OfImports => l.e.imports != []
  }

  function Nth(s: seq<int>, i: nat): int {
    if i < |s| then s[i] else 0
  }

  /** The name of the output it lies in. */
  function Home(l: Link, p: Piece): string {
    match p
    case OfSection(r) => OutputName(l.c.x.objects, r)
    case OfCommon(_) => ".bss"
    case OfThunk(_) => ".text"
    case OfImports => ".idata"
  }

  function Begin(l: Link, p: Piece): int
    requires IsPiece(l, p)
  {
    match p
    case OfSection(r) => l.placements[r].offset
    case OfCommon(i) => Nth(l.s.commons, i)
    case OfThunk(m) => Nth(l.s.thunks, m)
    case OfImports => l.s.importBase
  }

  function End(l: Link, p: Piece): int
    requires IsPiece(l, p)
  {
    Begin(l, p) +
    match p
    case OfSection(r) => LogicalSize(At(l.c.x.objects, r))
    case OfCommon(i) => l.e.commons[i]
    case OfThunk(_) => 6
    case OfImports => l.e.importBytes
  }

  /** The alignment it asks for. */
  function AlignmentOf(l: Link, p: Piece): int
    requires IsPiece(l, p)
  {
    match p
    case OfSection(r) => SectionAlignment(At(l.c.x.objects, r).characteristics)
    case OfCommon(i) => CommonItem(l.e.commons[i]).alignment
    case OfThunk(_) => 2
    case OfImports => 8
  }

  predicate Owns(l: Link, p: Piece, at: int) {
    IsPiece(l, p) && Begin(l, p) <= at < End(l, p)
  }

  /** Some byte of an output belongs to both. */
  ghost predicate Collide(l: Link, p: Piece, q: Piece) {
    Home(l, p) == Home(l, q) && exists at :: Owns(l, p, at) && Owns(l, q, at)
  }

  /** A link whose contributions and synthesized parts fit 32 bits. */
  ghost predicate Sound(l: Link) {
    && LinkOk(l) && Fits(l.c, l.e)
    && forall r :: r in l.placements ==> ExtentFits(l.c.x.objects, Placed(l.c), OutputName(l.c.x.objects, r))
  }

  /** What its layout promises. */
  ghost predicate Laid(l: Link) {
    && ExtrasOk(l.e) && Fits(l.c, l.e) && LaidOut(l.c.x.objects, Placed(l.c), l.e, l.outs, l.placements, l.s)
    && forall r :: r in l.placements ==> ExtentFits(l.c.x.objects, Placed(l.c), OutputName(l.c.x.objects, r))
  }

  lemma SoundIsLaid(l: Link)
    requires Sound(l)
    ensures Laid(l)
  {
  }

  // ---------- sections ----------

  ghost function ItemsOf(l: Link, name: string): (items: seq<Item>)
    ensures AllOk(items)
  {
    GroupItems(l.c.x.objects, PlacedIn(l.c.x.objects, Placed(l.c), name))
  }

  /** The sections of an output in the order of their offsets. */
  ghost function InOrder(l: Link, name: string): (sorted: seq<Ref>)
    ensures |sorted| == |ItemsOf(l, name)|
    ensures forall i :: 0 <= i < |sorted| ==>
      Exists(l.c.x.objects, sorted[i]) && ItemsOf(l, name)[i] == ItemOf(At(l.c.x.objects, sorted[i]))
  {
    var refs := PlacedIn(l.c.x.objects, Placed(l.c), name);
    SortedOk(l.c.x.objects, refs);
    SortContributions(l.c.x.objects, refs)
  }

  /** What the layout says of one section. */
  lemma SectionPlaced(l: Link, r: Ref)
    requires Laid(l) && r in l.placements
    ensures Exists(l.c.x.objects, r) && r in Placed(l.c)
    ensures AtItem(l.c.x.objects, Placed(l.c), r, l.placements[r].offset)
    ensures var k := Find(l.outs, OutputName(l.c.x.objects, r));
      l.placements[r].output == k < |l.outs|
        && Extent(l.c.x.objects, Placed(l.c), OutputName(l.c.x.objects, r)) <= l.outs[k].virtualSize
  {
    FoundThere(l, r);
    ItsOutput(l, r, OutputName(l.c.x.objects, r));
  }

  lemma FoundThere(l: Link, r: Ref)
    requires Laid(l) && r in l.placements
    ensures Exists(l.c.x.objects, r) && r in Placed(l.c)
    ensures InOutput(l.c.x.objects, Placed(l.c), r, l.placements[r], l.outs)
  {
  }

  lemma ItsOutput(l: Link, r: Ref, name: string)
    requires Exists(l.c.x.objects, r) && r in l.placements
    requires InOutput(l.c.x.objects, Placed(l.c), r, l.placements[r], l.outs)
    requires name == OutputName(l.c.x.objects, r) && ExtentFits(l.c.x.objects, Placed(l.c), name)
    ensures AtItem(l.c.x.objects, Placed(l.c), r, l.placements[r].offset)
    ensures var k := Find(l.outs, name);
      l.placements[r].output == k < |l.outs| && Extent(l.c.x.objects, Placed(l.c), name) <= l.outs[k].virtualSize
  {
  }

  /** The item of a section. */
  lemma ItemOfSection(l: Link, r: Ref, name: string, offset: int) returns (i: nat)
    requires Exists(l.c.x.objects, r) && r in Placed(l.c) && name == OutputName(l.c.x.objects, r)
    requires AtItem(l.c.x.objects, Placed(l.c), r, offset)
    ensures i < |InOrder(l, name)| && InOrder(l, name)[i] == r && offset == OffsetOf(ItemsOf(l, name), 0, i)
  {
    SortedOk(l.c.x.objects, PlacedIn(l.c.x.objects, Placed(l.c), name));
    assert r in InOrder(l, name);
    i :| 0 <= i < |InOrder(l, name)| && InOrder(l, name)[i] == r;
  }

  /** Section `r` is item `i` of its output, and has its offset. */
  ghost predicate SpotAt(l: Link, r: Ref, name: string, i: nat) {
    && r in l.placements && i < |InOrder(l, name)| && InOrder(l, name)[i] == r
    && l.placements[r].offset == OffsetOf(ItemsOf(l, name), 0, i)
  }

  /** Where section `r` lies among the items of its output. */
  lemma Spot(l: Link, r: Ref, name: string) returns (i: nat)
    requires Laid(l) && r in l.placements && name == OutputName(l.c.x.objects, r)
    ensures SpotAt(l, r, name, i)
  {
    SectionPlaced(l, r);
    i := ItemOfSection(l, r, name, l.placements[r].offset);
  }

  /** The section of an item that has a size. */
  lemma SectionOfItem(l: Link, name: string, i: nat) returns (r: Ref)
    requires Laid(l) && i < |ItemsOf(l, name)| && ItemsOf(l, name)[i].size > 0
    ensures OutputName(l.c.x.objects, r) == name && SpotAt(l, r, name, i)
  {
    r := InOrder(l, name)[i];
    ItemContributes(l, name, i, r);
    HasPlace(l, r, name);
    SectionPlaced(l, r);
  }

  lemma ItemContributes(l: Link, name: string, i: nat, r: Ref)
    requires i < |ItemsOf(l, name)| && ItemsOf(l, name)[i].size > 0 && r == InOrder(l, name)[i]
    ensures Exists(l.c.x.objects, r) && r in Placed(l.c) && OutputName(l.c.x.objects, r) == name
    ensures Contributed(l.c.x.objects, Placed(l.c), name)
  {
    var refs := PlacedIn(l.c.x.objects, Placed(l.c), name);
    SortedOk(l.c.x.objects, refs);
    assert r in refs;
    assert LogicalSize(At(l.c.x.objects, r)) > 0;
  }

  lemma HasPlace(l: Link, r: Ref, name: string)
    requires Laid(l) && Exists(l.c.x.objects, r) && r in Placed(l.c) && OutputName(l.c.x.objects, r) == name
    requires Contributed(l.c.x.objects, Placed(l.c), name)
    ensures r in l.placements
  {
  }

  /** What section `r` owns, in terms of its item. */
  lemma SectionSpan(l: Link, r: Ref, name: string, i: nat)
    requires SpotAt(l, r, name, i)
    ensures Begin(l, OfSection(r)) == OffsetOf(ItemsOf(l, name), 0, i)
    ensures End(l, OfSection(r)) == OffsetOf(ItemsOf(l, name), 0, i) + ItemsOf(l, name)[i].size
    ensures AlignmentOf(l, OfSection(r)) == ItemsOf(l, name)[i].alignment
  {
  }

  /** Two different sections of one output: the first in contribution order ends before the second begins. */
  lemma SectionsApart(l: Link, q: Ref, r: Ref, name: string)
    requires Laid(l) && q in l.placements && r in l.placements && q != r
    requires OutputName(l.c.x.objects, q) == name == OutputName(l.c.x.objects, r)
    ensures End(l, OfSection(q)) <= Begin(l, OfSection(r)) || End(l, OfSection(r)) <= Begin(l, OfSection(q))
    ensures ContributionLess(l.c.x.objects, q, r) ==> End(l, OfSection(q)) <= Begin(l, OfSection(r))
  {
    var i := Spot(l, q, name);
    var j := Spot(l, r, name);
    SpotsApart(l, q, r, name, i, j);
  }

  lemma SpotsApart(l: Link, q: Ref, r: Ref, name: string, i: nat, j: nat)
    requires SpotAt(l, q, name, i) && SpotAt(l, r, name, j) && q != r
    ensures End(l, OfSection(q)) <= Begin(l, OfSection(r)) || End(l, OfSection(r)) <= Begin(l, OfSection(q))
    ensures ContributionLess(l.c.x.objects, q, r) ==> End(l, OfSection(q)) <= Begin(l, OfSection(r))
  {
    SectionSpan(l, q, name, i);
    SectionSpan(l, r, name, j);
    if i < j {
      ContributionsDisjoint(ItemsOf(l, name), 0, i, j);
    } else {
      ContributionsDisjoint(ItemsOf(l, name), 0, j, i);
      NotLess(l, name, j, i);
    }
  }

  lemma NotLess(l: Link, name: string, i: nat, j: nat)
    requires i < j < |InOrder(l, name)|
    ensures !ContributionLess(l.c.x.objects, InOrder(l, name)[j], InOrder(l, name)[i])
  {
    ContributionsSorted(l.c.x.objects, PlacedIn(l.c.x.objects, Placed(l.c), name));
  }

  /** A section is aligned and inside the contributed extent. */
  lemma SectionInside(l: Link, r: Ref, name: string)
    requires Laid(l) && r in l.placements && name == OutputName(l.c.x.objects, r)
    ensures 0 <= Begin(l, OfSection(r)) <= End(l, OfSection(r)) <= Extent(l.c.x.objects, Placed(l.c), name)
    ensures Begin(l, OfSection(r)) % AlignmentOf(l, OfSection(r)) == 0
  {
    var i := Spot(l, r, name);
    SectionSpan(l, r, name, i);
    ItemInside(ItemsOf(l, name), i);
  }

  lemma ItemInside(items: seq<Item>, i: nat)
    requires AllOk(items) && i < |items|
    ensures 0 <= OffsetOf(items, 0, i) <= OffsetOf(items, 0, i) + items[i].size <= EndOf(items, 0, |items|)
    ensures OffsetOf(items, 0, i) % items[i].alignment == 0
  {
    NextMultipleBounds(EndOf(items, 0, i), items[i].alignment);
    EndGrows(items, 0, 0, i);
    EndGrows(items, 0, i, |items|);
  }

  // ---------- what is synthesized ----------

  /** Where common symbols, thunks and the import block lie. */
  lemma SynthesisHere(l: Link)
    requires Laid(l)
    ensures l.e.commons != [] ==>
      CommonsIn(l.outs, l.e.commons, Extent(l.c.x.objects, Placed(l.c), ".bss"), l.s.commons)
    ensures HasCode(l.e.imports) ==>
      ThunksIn(l.outs, l.e.imports, Initialized(l.c.x.objects, Placed(l.c), ".text"), l.s.thunks)
    ensures l.e.imports != [] ==>
      ImportsIn(l.outs, l.e.importBytes, Extent(l.c.x.objects, Placed(l.c), ".idata"), l.s.importBase)
  {
  }

  lemma CommonsFit(l: Link)
    requires Laid(l)
    ensures forall i :: 0 <= i < |l.e.commons| ==> l.e.commons[i] > 0
    ensures 0 <= Extent(l.c.x.objects, Placed(l.c), ".bss")
  {
  }

  lemma CommonInside(l: Link, i: nat)
    requires Laid(l) && i < |l.e.commons|
    ensures Extent(l.c.x.objects, Placed(l.c), ".bss") <= Begin(l, OfCommon(i)) <= End(l, OfCommon(i)) <=
      VirtualOf(l.outs, ".bss")
    ensures Begin(l, OfCommon(i)) % AlignmentOf(l, OfCommon(i)) == 0
    ensures Find(l.outs, ".bss") < |l.outs|
  {
    SynthesisHere(l);
    CommonsFit(l);
    CommonSpan(l, l.e.commons, Extent(l.c.x.objects, Placed(l.c), ".bss"), i);
    CommonItems(l.e.commons, Extent(l.c.x.objects, Placed(l.c), ".bss"), i);
  }

  lemma CommonSpan(l: Link, sizes: seq<int>, extent: int, i: nat)
    requires sizes == l.e.commons && i < |sizes| && (forall k :: 0 <= k < |sizes| ==> sizes[k] > 0)
    requires CommonsIn(l.outs, sizes, extent, l.s.commons)
    ensures Begin(l, OfCommon(i)) == OffsetOf(Commons(sizes), extent, i)
    ensures End(l, OfCommon(i)) == OffsetOf(Commons(sizes), extent, i) + sizes[i]
  {
  }

  lemma CommonItems(sizes: seq<int>, extent: int, i: nat)
    requires i < |sizes| && (forall k :: 0 <= k < |sizes| ==> sizes[k] > 0)
    ensures extent <= OffsetOf(Commons(sizes), extent, i)
    ensures OffsetOf(Commons(sizes), extent, i) + sizes[i] <= EndOf(Commons(sizes), extent, |sizes|)
    ensures OffsetOf(Commons(sizes), extent, i) % CommonItem(sizes[i]).alignment == 0
  {
    NextMultipleBounds(EndOf(Commons(sizes), extent, i), CommonItem(sizes[i]).alignment);
    EndGrows(Commons(sizes), extent, 0, i);
    EndGrows(Commons(sizes), extent, i, |sizes|);
  }

  lemma CommonsApart(l: Link, i: nat, j: nat)
    requires Laid(l) && i < j < |l.e.commons|
    ensures End(l, OfCommon(i)) <= Begin(l, OfCommon(j))
  {
    var sizes, extent := l.e.commons, Extent(l.c.x.objects, Placed(l.c), ".bss");
    SynthesisHere(l);
    CommonsFit(l);
    CommonSpan(l, sizes, extent, i);
    CommonSpan(l, sizes, extent, j);
    ContributionsDisjoint(Commons(sizes), extent, i, j);
  }

  lemma ThunkSpan(l: Link, code: nat, m: nat)
    requires ThunksIn(l.outs, l.e.imports, code, l.s.thunks) && IsPiece(l, OfThunk(m))
    ensures Begin(l, OfThunk(m)) == l.s.thunks[m] && ImportThunks.IsThunk(DataOf(l.outs, ".text"), l.s.thunks[m])
    ensures code <= l.s.thunks[m] && l.s.thunks[m] % 2 == 0 && |DataOf(l.outs, ".text")| <= VirtualOf(l.outs, ".text")
  {
  }

  lemma ThunksApart(l: Link, m: nat, n: nat)
    requires Laid(l) && IsPiece(l, OfThunk(m)) && IsPiece(l, OfThunk(n)) && m < n
    ensures End(l, OfThunk(m)) <= Begin(l, OfThunk(n))
  {
    SynthesisHere(l);
    TwoThunks(l, Initialized(l.c.x.objects, Placed(l.c), ".text"), m, n);
  }

  lemma TwoThunks(l: Link, code: nat, m: nat, n: nat)
    requires ThunksIn(l.outs, l.e.imports, code, l.s.thunks) && IsPiece(l, OfThunk(m)) && IsPiece(l, OfThunk(n))
    requires m < n
    ensures End(l, OfThunk(m)) <= Begin(l, OfThunk(n))
  {
  }

  lemma ImportsInside(l: Link)
    requires Laid(l) && l.e.imports != []
    ensures Extent(l.c.x.objects, Placed(l.c), ".idata") <= Begin(l, OfImports) <= End(l, OfImports) ==
      VirtualOf(l.outs, ".idata")
    ensures Begin(l, OfImports) % 8 == 0 && Find(l.outs, ".idata") < |l.outs|
  {
    SynthesisHere(l);
    ImportSpan(l, Extent(l.c.x.objects, Placed(l.c), ".idata"));
  }

  lemma ImportSpan(l: Link, extent: int)
    requires l.e.imports != [] && ImportsIn(l.outs, l.e.importBytes, extent, l.s.importBase)
    ensures extent <= Begin(l, OfImports) <= End(l, OfImports) == VirtualOf(l.outs, ".idata")
    ensures Begin(l, OfImports) % 8 == 0 && Find(l.outs, ".idata") < |l.outs|
  {
  }

  // ---------- every piece ----------

  /** The piece is aligned, and inside the first output of its name. */
  ghost predicate Inside(l: Link, p: Piece)
    requires IsPiece(l, p)
  {
    var k := Find(l.outs, Home(l, p));
    && k < |l.outs| && 0 <= Begin(l, p) <= End(l, p) <= l.outs[k].virtualSize
    && AlignmentOf(l, p) > 0 && Begin(l, p) % AlignmentOf(l, p) == 0
  }

  /** Every piece lies in the first output of its name, aligned as it asks for, and inside the virtual size. */
  lemma PieceInside(l: Link, p: Piece)
    requires Sound(l) && IsPiece(l, p)
    ensures Inside(l, p)
  {
    SoundIsLaid(l);
    FitsInside(l, p);
  }

  lemma FitsInside(l: Link, p: Piece)
    requires Laid(l) && IsPiece(l, p)
    ensures Inside(l, p)
  {
    match p
    case OfSection(r) => SectionFits(l, r, OutputName(l.c.x.objects, r));
    case OfCommon(i) => CommonFits(l, i);
    case OfThunk(m) => ThunkFits(l, m);
    case OfImports => ImportsFit(l);
  }

  lemma ThunkFits(l: Link, m: nat)
    requires Laid(l) && IsPiece(l, OfThunk(m))
    ensures Inside(l, OfThunk(m))
  {
    SynthesisHere(l);
    ThunkHeld(l, Initialized(l.c.x.objects, Placed(l.c), ".text"), m);
  }

  lemma ThunkHeld(l: Link, code: nat, m: nat)
    requires ThunksIn(l.outs, l.e.imports, code, l.s.thunks) && IsPiece(l, OfThunk(m))
    ensures Inside(l, OfThunk(m))
  {
    ThunkSpan(l, code, m);
  }

  lemma CommonFits(l: Link, i: nat)
    requires Laid(l) && i < |l.e.commons|
    ensures Inside(l, OfCommon(i))
  {
    CommonsFit(l);
    CommonInside(l, i);
  }

  lemma ImportsFit(l: Link)
    requires Laid(l) && l.e.imports != []
    ensures Inside(l, OfImports)
  {
    SynthesisHere(l);
    ExtentPositive(l, ".idata");
    BlockFits(l, Extent(l.c.x.objects, Placed(l.c), ".idata"));
  }

  lemma BlockFits(l: Link, extent: int)
    requires l.e.imports != [] && 0 <= extent && ImportsIn(l.outs, l.e.importBytes, extent, l.s.importBase)
    ensures Inside(l, OfImports)
  {
  }

  lemma SectionFits(l: Link, r: Ref, name: string)
    requires Laid(l) && r in l.placements && name == OutputName(l.c.x.objects, r)
    ensures IsPiece(l, OfSection(r)) && Inside(l, OfSection(r))
  {
    SectionInside(l, r, name);
    SectionPlaced(l, r);
  }

  lemma ExtentPositive(l: Link, name: string)
    ensures 0 <= Extent(l.c.x.objects, Placed(l.c), name)
  {
    var refs := PlacedIn(l.c.x.objects, Placed(l.c), name);
    EndGrows(GroupItems(l.c.x.objects, refs), 0, 0, |refs|);
  }

  /** No two pieces of an output share a byte, other than a section and a thunk. */
  lemma PiecesApart(l: Link, p: Piece, q: Piece)
    requires Laid(l) && IsPiece(l, p) && IsPiece(l, q) && p != q && !(p.OfSection? && q.OfThunk?)
    requires !(p.OfThunk? && q.OfSection?)
    ensures !Collide(l, p, q)
  {
    if Home(l, p) == Home(l, q) { Ordered(l, p, q); }
  }

  lemma Ordered(l: Link, p: Piece, q: Piece)
    requires Laid(l) && IsPiece(l, p) && IsPiece(l, q) && p != q && !(p.OfSection? && q.OfThunk?)
    requires !(p.OfThunk? && q.OfSection?)
    requires Home(l, p) == Home(l, q)
    ensures End(l, p) <= Begin(l, q) || End(l, q) <= Begin(l, p)
  {
    match (p, q)
    case (OfSection(a), OfSection(b)) => SectionsApart(l, a, b, Home(l, p));
    case (OfSection(r), _) => BehindSection(l, r, q);
    case (_, OfSection(r)) => BehindSection(l, r, p);
    case _ => SynthesizedOrdered(l, p, q);
  }

  lemma SynthesizedOrdered(l: Link, p: Piece, q: Piece)
    requires Laid(l) && IsPiece(l, p) && IsPiece(l, q) && p != q && !p.OfSection? && !q.OfSection?
    requires Home(l, p) == Home(l, q)
    ensures End(l, p) <= Begin(l, q) || End(l, q) <= Begin(l, p)
  {
    SameKind(l, p, q);
    if p.OfCommon? {
      if p.i < q.i { CommonsApart(l, p.i, q.i); } else { CommonsApart(l, q.i, p.i); }
    } else if p.OfThunk? {
      if p.m < q.m { ThunksApart(l, p.m, q.m); } else { ThunksApart(l, q.m, p.m); }
    }
  }

  /** Of what is synthesized, only pieces of one kind share an output. */
  lemma SameKind(l: Link, p: Piece, q: Piece)
    requires !p.OfSection? && !q.OfSection? && Home(l, p) == Home(l, q)
    ensures (p.OfCommon? <==> q.OfCommon?) && (p.OfThunk? <==> q.OfThunk?)
  {
    assert ".bss"[1] == 'b' && ".text"[1] == 't' && ".idata"[1] == 'i';
  }

  /** Common symbols and the import block lie behind the contributions. */
  lemma BehindSection(l: Link, r: Ref, q: Piece)
    requires Laid(l) && IsPiece(l, OfSection(r)) && IsPiece(l, q) && (q.OfCommon? || q.OfImports?)
    requires OutputName(l.c.x.objects, r) == Home(l, q)
    ensures End(l, OfSection(r)) <= Begin(l, q)
  {
    SectionInside(l, r, Home(l, q));
    if q.OfCommon? { CommonInside(l, q.i); } else { ImportsInside(l); }
  }

  // ---------- thunks against sections ----------

  /** Some contribution to .text reaches past the initialised bytes and begins before the thunks end. */
  ghost predicate TailBeforeThunks(c: Choice, e: Extras) {
    var code := Initialized(c.x.objects, Placed(c), ".text");
    TailInTheWay(GroupItems(c.x.objects, PlacedIn(c.x.objects, Placed(c), ".text")), code,
      ImportThunks.ThunksEnd(code, e.imports))
  }

  /** A thunk shares a byte with a placed section. */
  ghost predicate ThunkCollides(l: Link) {
    exists r, m :: IsPiece(l, OfSection(r)) && IsPiece(l, OfThunk(m)) && Collide(l, OfSection(r), OfThunk(m))
  }

  lemma CollidingIsTail(l: Link, r: Ref, m: nat)
    requires Laid(l) && IsPiece(l, OfSection(r)) && IsPiece(l, OfThunk(m)) && Collide(l, OfSection(r), OfThunk(m))
    ensures TailBeforeThunks(l.c, l.e)
  {
    var code := Initialized(l.c.x.objects, Placed(l.c), ".text");
    SynthesisHere(l);
    ThunkSpan(l, code, m);
    var i := Spot(l, r, ".text");
    SectionSpan(l, r, ".text", i);
    OverlapIsTail(ItemsOf(l, ".text"), code, DataOf(l.outs, ".text"), l.e.imports, l.s.thunks, i, m);
  }

  lemma TailCollides(l: Link)
    requires Laid(l) && HasCode(l.e.imports) && TailBeforeThunks(l.c, l.e)
    ensures ThunkCollides(l)
  {
    var code := Initialized(l.c.x.objects, Placed(l.c), ".text");
    SynthesisHere(l);
    var i, m := TailOverlaps(ItemsOf(l, ".text"), code, DataOf(l.outs, ".text"), l.e.imports, l.s.thunks);
    var r := SectionOfItem(l, ".text", i);
    SectionSpan(l, r, ".text", i);
    ThunkSpan(l, code, m);
    Meeting(l, OfSection(r), OfThunk(m));
  }

  lemma Meeting(l: Link, p: Piece, q: Piece)
    requires IsPiece(l, p) && IsPiece(l, q) && Home(l, p) == Home(l, q)
    requires Begin(l, p) < End(l, p) && Begin(l, q) < End(l, q) && Begin(l, p) < End(l, q) && Begin(l, q) < End(l, p)
    ensures Collide(l, p, q)
  {
    var at := if Begin(l, p) < Begin(l, q) then Begin(l, q) else Begin(l, p);
    assert Owns(l, p, at) && Owns(l, q, at);
  }

  /**
   In a link with code imports a thunk shares a byte with a placed section if and only if an
   uninitialised tail is in the way.
   */
  lemma ThunksClearIff(l: Link)
    requires Sound(l) && HasCode(l.e.imports)
    ensures ThunkCollides(l) <==> TailBeforeThunks(l.c, l.e)
  {
    SoundIsLaid(l);
    if r, m :| IsPiece(l, OfSection(r)) && IsPiece(l, OfThunk(m)) && Collide(l, OfSection(r), OfThunk(m)) {
      CollidingIsTail(l, r, m);
    }
    if TailBeforeThunks(l.c, l.e) { TailCollides(l); }
  }

  /** No two pieces of the link share a byte. */
  ghost predicate AllApart(l: Link) {
    forall p, q :: IsPiece(l, p) && IsPiece(l, q) && p != q ==> !Collide(l, p, q)
  }

  lemma CollisionIsTail(l: Link, p: Piece, q: Piece)
    requires Laid(l) && IsPiece(l, p) && IsPiece(l, q) && p != q && Collide(l, p, q)
    ensures HasCode(l.e.imports) && TailBeforeThunks(l.c, l.e)
  {
    if p.OfSection? && q.OfThunk? {
      CollidingIsTail(l, p.r, q.m);
    } else if p.OfThunk? && q.OfSection? {
      CollidingIsTail(l, q.r, p.m);
    } else {
      PiecesApart(l, p, q);
    }
  }

  lemma ThunkCollidesToo(l: Link)
    requires ThunkCollides(l)
    ensures !AllApart(l)
  {
    var r, m :| IsPiece(l, OfSection(r)) && IsPiece(l, OfThunk(m)) && Collide(l, OfSection(r), OfThunk(m));
  }

  /** The pieces of a link are pairwise disjoint if and only if no tail is in the way of a thunk. */
  lemma AllApartIff(l: Link)
    requires Sound(l)
    ensures AllApart(l) <==> !(HasCode(l.e.imports) && TailBeforeThunks(l.c, l.e))
  {
    SoundIsLaid(l);
    if !AllApart(l) {
      var p, q :| IsPiece(l, p) && IsPiece(l, q) && p != q && Collide(l, p, q);
      CollisionIsTail(l, p, q);
    } else if HasCode(l.e.imports) && TailBeforeThunks(l.c, l.e) {
      TailCollides(l);
      ThunkCollidesToo(l);
    }
  }
}
