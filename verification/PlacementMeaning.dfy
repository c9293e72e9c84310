/**
 Where a link puts the sections of its input, in terms of their headers: aligned as the header
 asks, as long as the header says, and no further apart than alignment makes necessary.
 */
module PlacementMeaning {
  import opened Coff
  import opened Layout
  import opened Outputs
  import opened ImageLayout
  import opened ReferenceSafety
  import opened ImageSpace

  /** The size a section header claims: its virtual size, or its bytes if they are more. */
  function SizeOf(s: Section): int {
    Larger(s.virtualSize, |s.data|)
  }

  /** Section `q` is another section of the same output. */
  ghost predicate Neighbours(l: Link, q: Ref, r: Ref) {
    && q in l.placements && r in l.placements && q != r && Exists(l.c.x.objects, q) && Exists(l.c.x.objects, r)
    && l.placements[q].output == l.placements[r].output
  }

  /** `r` begins at the first multiple of the alignment its header asks for that is not below the end of `q`. */
  ghost predicate Follows(l: Link, q: Ref, r: Ref)
    requires Neighbours(l, q, r)
  {
    FirstMultiple(l.placements[r].offset, Asked(At(l.c.x.objects, r).characteristics),
      l.placements[q].offset + SizeOf(At(l.c.x.objects, q)))
  }

  lemma EarlierItem(l: Link, r: Ref, name: string, j: nat, i: nat) returns (q: Ref)
    requires Laid(l) && SpotAt(l, r, name, j) && i < j
    requires Exists(l.c.x.objects, r) && name == OutputName(l.c.x.objects, r)
    ensures Neighbours(l, q, r) && SpotAt(l, q, name, i)
  {
    q := InOrder(l, name)[i];
    OrderedSections(l, name, i, j);
    SameOutput(l, q, r, name);
    var k := Spot(l, q, name);
    SpotUnique(l, name, k, i);
  }

  lemma OrderedSections(l: Link, name: string, i: nat, j: nat)
    requires i < j < |InOrder(l, name)|
    ensures var q := InOrder(l, name)[i];
      Exists(l.c.x.objects, q) && q in Placed(l.c) && OutputName(l.c.x.objects, q) == name && q != InOrder(l, name)[j]
  {
    SortedOk(l.c.x.objects, PlacedIn(l.c.x.objects, Placed(l.c), name));
    assert InOrder(l, name)[i] in InOrder(l, name);
  }

  lemma SpotUnique(l: Link, name: string, i: nat, j: nat)
    requires i < |InOrder(l, name)| && j < |InOrder(l, name)| && InOrder(l, name)[i] == InOrder(l, name)[j]
    ensures i == j
  {
    SortedOk(l.c.x.objects, PlacedIn(l.c.x.objects, Placed(l.c), name));
  }

  /** Outputs hold all placed sections of their name or none. */
  lemma AllOrNone(l: Link, q: Ref, r: Ref, name: string)
    requires Laid(l) && r in l.placements && Exists(l.c.x.objects, r) && Exists(l.c.x.objects, q) && q in Placed(l.c)
    requires OutputName(l.c.x.objects, q) == name == OutputName(l.c.x.objects, r)
    ensures q in l.placements
  {
  }

  lemma SameOutput(l: Link, q: Ref, r: Ref, name: string)
    requires Laid(l) && r in l.placements && Exists(l.c.x.objects, r) && Exists(l.c.x.objects, q) && q in Placed(l.c)
    requires OutputName(l.c.x.objects, q) == name == OutputName(l.c.x.objects, r)
    ensures q in l.placements && l.placements[q].output == l.placements[r].output
  {
    AllOrNone(l, q, r, name);
    SectionPlaced(l, q);
    SectionPlaced(l, r);
  }

  /** The offset of item `j`, behind item `j - 1`, in terms of the two headers. */
  lemma ItemFollows(items: seq<Item>, j: nat, q: Section, r: Section)
    requires AllOk(items) && 0 < j < |items| && items[j - 1] == ItemOf(q) && items[j] == ItemOf(r)
    ensures FirstMultiple(OffsetOf(items, 0, j), Asked(r.characteristics), OffsetOf(items, 0, j - 1) + SizeOf(q))
  {
    AlignmentAsked(r.characteristics);
    NextIsFirst(EndOf(items, 0, j), items[j].alignment);
  }

  lemma SpotFollows(l: Link, q: Ref, r: Ref, name: string, j: nat)
    requires Neighbours(l, q, r) && j > 0 && SpotAt(l, r, name, j) && SpotAt(l, q, name, j - 1)
    ensures Follows(l, q, r)
  {
    ItemFollows(ItemsOf(l, name), j, At(l.c.x.objects, q), At(l.c.x.objects, r));
  }

  lemma FirstAtZero(items: seq<Item>)
    requires AllOk(items) && items != []
    ensures OffsetOf(items, 0, 0) == 0
  {
    NextIsFirst(0, items[0].alignment);
    assert IsMultiple(0, items[0].alignment);
  }

  /** A section begins its output, or follows another section of it. */
  ghost predicate TightAt(l: Link, r: Ref)
    requires r in l.placements
  {
    l.placements[r].offset == 0 || exists q :: Neighbours(l, q, r) && Follows(l, q, r)
  }

  lemma FirstSpot(l: Link, r: Ref, name: string)
    requires SpotAt(l, r, name, 0)
    ensures l.placements[r].offset == 0
  {
    FirstAtZero(ItemsOf(l, name));
  }

  /** A section behind the first one follows the one before it. */
  lemma LaterTight(l: Link, r: Ref, name: string, i: nat, j: nat)
    requires Laid(l) && SpotAt(l, r, name, j) && j == i + 1
    requires Exists(l.c.x.objects, r) && name == OutputName(l.c.x.objects, r)
    ensures TightAt(l, r)
  {
    var q := EarlierItem(l, r, name, j, i);
    FollowerTight(l, q, r, name, i, j);
  }

  lemma FollowerTight(l: Link, q: Ref, r: Ref, name: string, i: nat, j: nat)
    requires Neighbours(l, q, r) && j == i + 1 && SpotAt(l, r, name, j) && SpotAt(l, q, name, i)
    ensures TightAt(l, r)
  {
    SpotFollows(l, q, r, name, j);
  }

  /**
   Every placed section begins its output or follows another section of the output as closely as
   the alignment in its header allows.
   */
  lemma SectionsTight(l: Link, r: Ref)
    requires Sound(l) && r in l.placements
    ensures Exists(l.c.x.objects, r) && TightAt(l, r)
  {
    SoundIsLaid(l);
    SectionPlaced(l, r);
    var name := OutputName(l.c.x.objects, r);
    var j := Spot(l, r, name);
    if j > 0 {
      LaterTight(l, r, name, j - 1, j);
    } else {
      FirstSpot(l, r, name);
    }
  }

  /** The alignment a piece asks for, read off its header or its kind. */
  ghost function AskedBy(l: Link, p: Piece): int
    requires IsPiece(l, p)
  {
    match p
    case OfSection(r) => Asked(At(l.c.x.objects, r).characteristics)
    case OfCommon(i) => if l.e.commons[i] < 16 then l.e.commons[i] else 16
    case OfThunk(_) => 2
    case OfImports => 8
  }

  ghost function SizeAsked(l: Link, p: Piece): int
    requires IsPiece(l, p)
  {
    match p
    case OfSection(r) => SizeOf(At(l.c.x.objects, r))
    case OfCommon(i) => l.e.commons[i]
    case OfThunk(_) => 6
    case OfImports => l.e.importBytes
  }

  /** The alignment and extent of a piece are what the input asks for. */
  lemma PieceAsAsked(l: Link, p: Piece)
    requires IsPiece(l, p) && (p.OfCommon? ==> l.e.commons[p.i] > 0)
    ensures AlignmentOf(l, p) == AskedBy(l, p) && End(l, p) == Begin(l, p) + SizeAsked(l, p)
  {
    if p.OfSection? { AlignmentAsked(At(l.c.x.objects, p.r).characteristics); }
  }

  /** Every piece of a link lies at a multiple of the alignment its input asks for. */
  lemma PieceAligned(l: Link, p: Piece)
    requires Sound(l) && IsPiece(l, p)
    ensures AskedBy(l, p) > 0 && Begin(l, p) % AskedBy(l, p) == 0
  {
    SoundIsLaid(l);
    CommonsFit(l);
    PieceAsAsked(l, p);
    PieceInside(l, p);
  }
}
