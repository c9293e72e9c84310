/** Placing contributions inside an output section, and output sections in the image. */
module Layout {
  import opened Coff
  import opened Bytes
  import opened Align
  import opened Sorting
  import opened Words

  /** IMAGE_SCN_ALIGN_*: 1 to 8192 bytes, 16 when unspecified. */
  function SectionAlignment(characteristics: int): (a: int)
    ensures 1 <= a <= 8192
  {
    var encoded := characteristics / 0x100000 % 16;
    if 1 <= encoded <= 14 then PowerOfTwo(encoded - 1) else 16
  }

  function PowerOfTwo(n: nat): (p: int)
    requires n <= 13
    ensures 1 <= p <= 8192
  {
    if n == 0 then 1
    else if n <= 4 then (if n == 1 then 2 else if n == 2 then 4 else if n == 3 then 8 else 16)
    else if n <= 8 then (if n == 5 then 32 else if n == 6 then 64 else if n == 7 then 128 else 256)
    else if n <= 11 then (if n == 9 then 512 else if n == 10 then 1024 else 2048)
    else if n == 12 then 4096 else 8192
  }

  /** What the alignment bits of a section header ask for: 2 to the power of the nibble less one, or 16. */
  ghost function Asked(characteristics: int): int {
    var nibble := characteristics / 0x100000 % 16;
    if nibble == 0 || nibble == 15 then 16 else Pow2(nibble - 1)
  }

  lemma {:induction false} PowerIs(n: nat)
    requires n <= 13
    ensures PowerOfTwo(n) == Pow2(n)
  {
    if n > 0 { PowerIs(n - 1); }
  }

  /** Sections are aligned as their headers ask. */
  lemma AlignmentAsked(characteristics: int)
    ensures SectionAlignment(characteristics) == Asked(characteristics)
  {
    var nibble := characteristics / 0x100000 % 16;
    if nibble != 0 && nibble != 15 { PowerIs(nibble - 1); }
  }

  function Larger(x: int, y: int): int {
    if x < y then y else x
  }

  /** The first multiple of `a` that is not below `from`. */
  ghost predicate FirstMultiple(offset: int, a: int, from: int) {
    && a > 0 && from <= offset && offset % a == 0
    && forall k :: from <= k && IsMultiple(k, a) ==> offset <= k
  }

  predicate IsMultiple(k: int, a: int)
    requires a > 0
  {
    k % a == 0
  }

  lemma NextIsFirst(v: int, a: int)
    requires a > 0
    ensures FirstMultiple(NextMultiple(v, a), a, v)
  {
    var next := NextMultiple(v, a);
    NextMultipleBounds(v, a);
    forall k | v <= k && IsMultiple(k, a) ensures next <= k { NoneBetween(k, next, a); }
  }

  /** Two multiples closer together than `a` are the same. */
  lemma NoneBetween(k: int, next: int, a: int)
    requires a > 0 && IsMultiple(k, a) && IsMultiple(next, a) && next < k + a
    ensures next <= k
  {
    var m, n := k / a, next / a;
    assert k == m * a && next == n * a;
    if m < n { Gap(m, n, a); }
  }

  lemma Gap(m: int, n: int, a: int)
    requires m < n && 0 < a
    ensures m * a + a <= n * a
  {
    var d := n - m - 1;
    assert n * a == m * a + a + d * a;
    assert 0 <= d * a;
  }

  // ---------- contributions ----------

  /** One contribution: alignment, logical size and initialized bytes. */
  datatype Item = Item(alignment: int, size: int, bytes: seq<byte>)

  predicate ItemOk(i: Item) {
    1 <= i.alignment && 0 <= |i.bytes| <= i.size
  }

  function ItemOf(s: Section): Item {
    Item(SectionAlignment(s.characteristics), LogicalSize(s), s.data)
  }

  /** A COFF common symbol: up to 16-byte alignment, no bytes. */
  function CommonItem(size: int): Item {
    Item(if size >= 16 then 16 else if size >= 1 then size else 1, size, [])
  }

  ghost predicate AllOk(items: seq<Item>) {
    forall i :: 0 <= i < |items| ==> ItemOk(items[i])
  }

  /** Where item `i` ends when placing starts at `start`: the cursor without wrap-around. */
  ghost function EndOf(items: seq<Item>, start: int, i: nat): int
    requires AllOk(items) && i <= |items|
  {
    if i == 0 then start else NextMultiple(EndOf(items, start, i - 1), items[i - 1].alignment) + items[i - 1].size
  }

  ghost function OffsetOf(items: seq<Item>, start: int, i: nat): int
    requires AllOk(items) && i < |items|
  {
    NextMultiple(EndOf(items, start, i), items[i].alignment)
  }

  /** No cursor value overflows 32 bits, also while being rounded up. */
  ghost predicate NoOverflow(items: seq<Item>, start: int)
    requires AllOk(items)
  {
    0 <= start && forall i :: 0 <= i < |items| ==>
      EndOf(items, start, i) + items[i].alignment + items[i].size < 0x1_0000_0000
  }

  lemma {:induction false} EndGrows(items: seq<Item>, start: int, i: nat, j: nat)
    requires AllOk(items) && i <= j <= |items|
    ensures start <= EndOf(items, start, i) <= EndOf(items, start, j)
    ensures i < j ==>
      EndOf(items, start, i) <= OffsetOf(items, start, i)
        && OffsetOf(items, start, i) + items[i].size <= EndOf(items, start, j)
    decreases j
  {
    if i < j {
      NextMultipleBounds(EndOf(items, start, j - 1), items[j - 1].alignment);
      EndGrows(items, start, i, j - 1);
    } else if i > 0 {
      NextMultipleBounds(EndOf(items, start, i - 1), items[i - 1].alignment);
      EndGrows(items, start, i - 1, i - 1);
    }
  }

  /** Contributions are aligned, in order, disjoint, and inside the virtual size. */
  lemma ContributionsDisjoint(items: seq<Item>, start: int, i: nat, j: nat)
    requires AllOk(items) && i < j < |items|
    ensures OffsetOf(items, start, i) % items[i].alignment == 0 && OffsetOf(items, start, j) % items[j].alignment == 0
    ensures start <= OffsetOf(items, start, i)
    ensures OffsetOf(items, start, i) + items[i].size <= OffsetOf(items, start, j)
    ensures OffsetOf(items, start, j) + items[j].size <= EndOf(items, start, |items|)
  {
    NextMultipleBounds(EndOf(items, start, i), items[i].alignment);
    NextMultipleBounds(EndOf(items, start, j), items[j].alignment);
    EndGrows(items, start, i, j);
    EndGrows(items, start, j, |items|);
  }

  // ---------- the placing loop ----------

  /** std::vector::resize with zero fill. */
  function Resize(data: seq<byte>, n: int): (r: seq<byte>)
    requires n >= 0
    ensures |r| == n
  {
    if n <= |data| then data[..n] else data + seq(n - |data|, i requires 0 <= i => 0)
  }

  /** These bytes are at this offset. */
  predicate Holds(data: seq<byte>, at: int, bytes: seq<byte>) {
    0 <= at && at + |bytes| <= |data| && data[at..at + |bytes|] == bytes
  }

  /** Bytes of the first `n` items are where they belong, and the data ends inside the extent. */
  ghost predicate BytesPlaced(data: seq<byte>, items: seq<Item>, start: int, n: nat)
    requires AllOk(items) && n <= |items|
  {
    && |data| <= EndOf(items, start, n)
    && forall i :: 0 <= i < n && items[i].bytes != [] ==> Holds(data, OffsetOf(items, start, i), items[i].bytes)
  }

  lemma HoldsLonger(data: seq<byte>, next: seq<byte>, at: int, bytes: seq<byte>)
    requires Holds(data, at, bytes) && data <= next
    ensures Holds(next, at, bytes)
  {
    assert next[at..at + |bytes|] == data[at..at + |bytes|];
  }

  lemma Appended(data: seq<byte>, offset: int, bytes: seq<byte>)
    requires |data| <= offset
    ensures data <= Resize(data, offset) + bytes && Holds(Resize(data, offset) + bytes, offset, bytes)
  {
  }

  lemma AppendKeeps(data: seq<byte>, items: seq<Item>, start: int, n: nat, offset: int)
    requires AllOk(items) && n < |items| && BytesPlaced(data, items, start, n) && offset == OffsetOf(items, start, n)
    requires 0 <= start
    ensures |data| <= offset && 0 <= offset
    ensures items[n].bytes != [] ==> BytesPlaced(Resize(data, offset) + items[n].bytes, items, start, n + 1)
    ensures items[n].bytes == [] ==> BytesPlaced(data, items, start, n + 1)
  {
    NextMultipleBounds(EndOf(items, start, n), items[n].alignment);
    EndGrows(items, start, 0, n);
    Appended(data, offset, items[n].bytes);
    var next := Resize(data, offset) + items[n].bytes;
    forall i | 0 <= i < n && items[i].bytes != [] ensures Holds(next, OffsetOf(items, start, i), items[i].bytes) {
      HoldsLonger(data, next, OffsetOf(items, start, i), items[i].bytes);
    }
  }

  /** Where the bytes of the first `n` items end, behind `from` bytes that were there before. */
  ghost function DataEnd(items: seq<Item>, start: int, from: nat, n: nat): int
    requires AllOk(items) && n <= |items|
  {
    if n == 0 then from
    else if items[n - 1].bytes == [] then DataEnd(items, start, from, n - 1)
    else OffsetOf(items, start, n - 1) + |items[n - 1].bytes|
  }

  lemma {:induction false} DataEndPositive(items: seq<Item>, start: int, from: int, n: nat)
    requires AllOk(items) && n <= |items| && 0 <= start && 0 <= from
    ensures 0 <= DataEnd(items, start, from, n)
  {
    if n > 0 {
      DataEndPositive(items, start, from, n - 1);
      EndGrows(items, start, n - 1, n);
    }
  }

  /** What placing computes when nothing overflows. */
  ghost predicate PlacedUpTo(data: seq<byte>, out: seq<byte>, cursor: int, offsets: seq<int>, items: seq<Item>,
          start: int, n: nat)
    requires AllOk(items) && n <= |items|
  {
    && cursor == EndOf(items, start, n) && |offsets| == n
    && (forall i :: 0 <= i < n ==> offsets[i] == OffsetOf(items, start, i))
    && BytesPlaced(out, items, start, n) && data <= out && |out| == DataEnd(items, start, |data|, n)
  }

  /** Without overflow the 32-bit cursor is the exact one. */
  lemma CursorStep(cursor: int, item: Item)
    requires ItemOk(item) && 0 <= cursor && cursor + item.alignment + item.size < 0x1_0000_0000
    ensures var offset := NextMultiple(cursor, item.alignment);
      AlignUp(cursor, item.alignment) == offset && Wrap(offset + item.size) == offset + item.size && cursor <= offset
  {
    AlignUpExact(cursor, item.alignment);
    NextMultipleBounds(cursor, item.alignment);
  }

  lemma PlaceStep(data: seq<byte>, out: seq<byte>, cursor: int, offsets: seq<int>, items: seq<Item>, start: int, n: nat,
          offset: int)
    requires AllOk(items) && n < |items| && 0 <= start && PlacedUpTo(data, out, cursor, offsets, items, start, n)
    requires offset == OffsetOf(items, start, n)
    ensures 0 <= offset
    ensures var next := if items[n].bytes == [] then out else Resize(out, offset) + items[n].bytes;
      PlacedUpTo(data, next, offset + items[n].size, offsets + [offset], items, start, n + 1)
  {
    AppendKeeps(out, items, start, n, offset);
    Appended(out, offset, items[n].bytes);
  }

  /** Without overflow a round in 32-bit arithmetic is a round in exact arithmetic. */
  lemma PlaceNext(data: seq<byte>, out: seq<byte>, cursor: int, offsets: seq<int>, items: seq<Item>, start: int, n: nat,
          next: seq<byte>, offset: int, end: int)
    requires AllOk(items) && n < |items| && NoOverflow(items, start)
    requires PlacedUpTo(data, out, cursor, offsets, items, start, n)
    requires offset == AlignUp(cursor, items[n].alignment) && end == Wrap(offset + items[n].size)
    requires next == if items[n].bytes == [] then out else Resize(out, offset) + items[n].bytes
    ensures cursor <= end && PlacedUpTo(data, next, end, offsets + [offset], items, start, n + 1)
  {
    EndGrows(items, start, n, n);
    CursorStep(cursor, items[n]);
    PlaceStep(data, out, cursor, offsets, items, start, n, offset);
  }

  /** One round of the placing loop. */
  method PlaceItem(out: seq<byte>, cursor: int, item: Item) returns (next: seq<byte>, offset: int, end: int)
    requires ItemOk(item) && 0 <= cursor
    ensures 0 <= offset == AlignUp(cursor, item.alignment) && 0 <= end == Wrap(offset + item.size)
    ensures next == if item.bytes == [] then out else Resize(out, offset) + item.bytes
  {
    offset := AlignUp(cursor, item.alignment);
    next := if item.bytes == [] then out else Resize(out, offset) + item.bytes;
    end := Wrap(offset + item.size);
  }

  /**
   What the placing loop shows after `n` items from an empty start, overflow or not: it is blank
   while all sizes are zero.
   */
  ghost predicate Started(items: seq<Item>, n: nat, out: seq<byte>, cursor: int, virtualSize: int)
    requires n <= |items|
  {
    && ((forall i :: 0 <= i < n ==> items[i].size == 0) ==> out == [] && cursor == 0 && virtualSize == 0)
    && ((exists i :: 0 <= i < n && items[i].size != 0) ==> virtualSize > 0)
  }

  lemma AlignZero(a: int)
    requires 1 <= a < 0x1_0000_0000
    ensures AlignUp(0, a) == 0
  {
    AlignUpBounds(0, a);
    ModUnique(AlignUp(0, a), a, 0, AlignUp(0, a));
  }

  lemma StartedStep(items: seq<Item>, n: nat, out: seq<byte>, cursor: int, virtualSize: int, next: seq<byte>,
          offset: int, end: int)
    requires AllOk(items) && n < |items| && items[n].alignment <= 8192 && items[n].size < 0x1_0000_0000
    requires Started(items, n, out, cursor, virtualSize)
    requires offset == AlignUp(cursor, items[n].alignment) && end == Wrap(offset + items[n].size)
    requires next == if items[n].bytes == [] then out else Resize(out, offset) + items[n].bytes
    ensures Started(items, n + 1, next, end, if end > virtualSize then end else virtualSize)
  {
    AlignZero(items[n].alignment);
  }

  /** Sizes and alignments of 32-bit section fields. */
  ghost predicate Fields32(items: seq<Item>) {
    forall i :: 0 <= i < |items| ==> items[i].alignment <= 8192 && items[i].size < 0x1_0000_0000
  }

  /** Places items one behind the other, in 32-bit arithmetic. */
  method PlaceItems(data: seq<byte>, start: int, items: seq<Item>)
    returns (out: seq<byte>, virtualSize: int, offsets: seq<int>)
    requires AllOk(items) && |data| <= start
    ensures |offsets| == |items| && virtualSize >= start
    ensures NoOverflow(items, start) ==> PlacedUpTo(data, out, virtualSize, offsets, items, start, |items|)
    ensures data == [] && start == 0 && Fields32(items) ==>
      (out == [] && virtualSize == 0 <==> forall i :: 0 <= i < |items| ==> items[i].size == 0)
  {
    out, virtualSize, offsets := data, start, [];
    var cursor := start;
    for i := 0 to |items|
      invariant |offsets| == i && cursor >= 0 && virtualSize >= start
      invariant NoOverflow(items, start) ==>
        PlacedUpTo(data, out, cursor, offsets, items, start, i) && virtualSize == cursor
      invariant data == [] && start == 0 && Fields32(items) ==> Started(items, i, out, cursor, virtualSize)
    {
      var next, offset, end := PlaceItem(out, cursor, items[i]);
      if data == [] && start == 0 && Fields32(items) {
        StartedStep(items, i, out, cursor, virtualSize, next, offset, end);
      }
      if NoOverflow(items, start) { PlaceNext(data, out, cursor, offsets, items, start, i, next, offset, end); }
      out, cursor := next, end;
      virtualSize := if cursor > virtualSize then cursor else virtualSize;
      offsets := offsets + [offset];
    }
  }

  // ---------- contributions of one output section ----------

  ghost function Items(sections: seq<Section>): (items: seq<Item>)
    ensures |items| == |sections| && AllOk(items)
    ensures forall i :: 0 <= i < |items| ==> items[i] == ItemOf(sections[i])
  {
    seq(|sections|, i requires 0 <= i < |sections| => ItemOf(sections[i]))
  }

  /** Section `i` follows its predecessor at the first address that is aligned as its header asks. */
  ghost predicate FollowsAt(sections: seq<Section>, offsets: seq<int>, i: nat)
    requires |offsets| == |sections| && i < |sections|
  {
    if i == 0 then offsets[0] == 0
    else
      var before := sections[i - 1];
      FirstMultiple(offsets[i], Asked(sections[i].characteristics),
        offsets[i - 1] + Larger(before.virtualSize, |before.data|))
  }

  lemma OffsetFollows(sections: seq<Section>, offsets: seq<int>, i: nat)
    requires |offsets| == |sections| && i < |sections|
    requires forall k :: 0 <= k < |sections| ==> offsets[k] == OffsetOf(Items(sections), 0, k)
    ensures FollowsAt(sections, offsets, i)
  {
    var items := Items(sections);
    AlignmentAsked(sections[i].characteristics);
    NextIsFirst(EndOf(items, 0, i), items[i].alignment);
  }

  /** The placing loop over the input sections of one output section. */
  method PlaceContributions(sections: seq<Section>) returns (data: seq<byte>, virtualSize: int, offsets: seq<int>)
    ensures |offsets| == |sections| && virtualSize >= 0
    ensures NoOverflow(Items(sections), 0) ==>
      PlacedUpTo([], data, virtualSize, offsets, Items(sections), 0, |sections|)
    ensures NoOverflow(Items(sections), 0) ==> forall i :: 0 <= i < |sections| ==> FollowsAt(sections, offsets, i)
    ensures Fields32(Items(sections)) ==>
      (data == [] && virtualSize == 0 <==> forall i :: 0 <= i < |sections| ==> LogicalSize(sections[i]) == 0)
  {
    var items := seq(|sections|, i requires 0 <= i < |sections| => ItemOf(sections[i]));
    assert items == Items(sections);
    data, virtualSize, offsets := PlaceItems([], 0, items);
    if NoOverflow(items, 0) {
      forall i | 0 <= i < |sections| ensures FollowsAt(sections, offsets, i) { OffsetFollows(sections, offsets, i); }
    }
  }

  ghost function Commons(sizes: seq<int>): (items: seq<Item>)
    requires forall i :: 0 <= i < |sizes| ==> sizes[i] >= 0
    ensures |items| == |sizes| && AllOk(items) && forall i :: 0 <= i < |items| ==> items[i] == CommonItem(sizes[i])
  {
    seq(|sizes|, i requires 0 <= i < |sizes| => CommonItem(sizes[i]))
  }

  /** The common symbols placed so far, when nothing overflows. */
  ghost predicate CommonsUpTo(items: seq<Item>, start: int, offsets: seq<int>, end: int, n: nat)
    requires AllOk(items) && n <= |items|
  {
    end == EndOf(items, start, n) && |offsets| == n && forall k :: 0 <= k < n ==>
      offsets[k] == OffsetOf(items, start, k)
  }

  lemma CommonsStep(items: seq<Item>, start: int, offsets: seq<int>, end: int, n: nat, offset: int, next: int)
    requires AllOk(items) && n < |items| && NoOverflow(items, start) && CommonsUpTo(items, start, offsets, end, n)
    requires offset == AlignUp(end, items[n].alignment) && next == Wrap(offset + items[n].size)
    ensures CommonsUpTo(items, start, offsets + [offset], next, n + 1)
  {
    EndGrows(items, start, n, n);
    CursorStep(end, items[n]);
  }

  /** Common symbols go behind what .bss already holds and add no bytes. */
  method PlaceCommons(virtualSize: int, sizes: seq<int>) returns (end: int, offsets: seq<int>)
    requires 0 <= virtualSize && forall i :: 0 <= i < |sizes| ==> sizes[i] >= 0
    ensures |offsets| == |sizes| && end >= 0
    ensures NoOverflow(Commons(sizes), virtualSize) ==> CommonsUpTo(Commons(sizes), virtualSize, offsets, end, |sizes|)
  {
    var items := seq(|sizes|, i requires 0 <= i < |sizes| => CommonItem(sizes[i]));
    assert items == Commons(sizes);
    end, offsets := virtualSize, [];
    for i := 0 to |items|
      invariant |offsets| == i && end >= 0
      invariant NoOverflow(items, virtualSize) ==> CommonsUpTo(items, virtualSize, offsets, end, i)
    {
      var offset := AlignUp(end, items[i].alignment);
      var next := Wrap(offset + items[i].size);
      if NoOverflow(items, virtualSize) { CommonsStep(items, virtualSize, offsets, end, i, offset, next); }
      end, offsets := next, offsets + [offset];
    }
  }

  function NameOf(objects: seq<Object>, r: Ref): string {
    if Exists(objects, r) then At(objects, r).name else ""
  }

  /** By full subsection name, input order for equal names: the stable sort of the linker. */
  predicate ContributionLess(objects: seq<Object>, a: Ref, b: Ref) {
    StringLess(NameOf(objects, a), NameOf(objects, b)) || (NameOf(objects, a) == NameOf(objects, b) && Before(a, b))
  }

  function SortContributions(objects: seq<Object>, refs: seq<Ref>): seq<Ref> {
    Sort(refs, (a: Ref, b: Ref) => ContributionLess(objects, a, b))
  }

  /** Contributions come out in name order, in input order within a name, none lost and none twice. */
  lemma ContributionsSorted(objects: seq<Object>, refs: seq<Ref>)
    ensures multiset(SortContributions(objects, refs)) == multiset(refs) && |SortContributions(objects, refs)| == |refs|
    ensures forall i, j :: 0 <= i < j < |refs| ==>
      !ContributionLess(objects, SortContributions(objects, refs)[j], SortContributions(objects, refs)[i])
  {
    var less := (a: Ref, b: Ref) => ContributionLess(objects, a, b);
    forall a, b | less(a, b) ensures !less(b, a) { StringLessTotal(NameOf(objects, a), NameOf(objects, b)); }
    forall a, b, c | !less(a, b) && !less(b, c) ensures !less(a, c) {
      StringLessWeak(NameOf(objects, a), NameOf(objects, b), NameOf(objects, c));
      StringLessTotal(NameOf(objects, a), NameOf(objects, b));
      StringLessTotal(NameOf(objects, b), NameOf(objects, c));
      StringLessTotal(NameOf(objects, a), NameOf(objects, c));
    }
    SortIsSorted(refs, less);
    var sorted := Sort(refs, less);
    forall i, j | 0 <= i < j < |refs| ensures !ContributionLess(objects, sorted[j], sorted[i]) {
      assert !less(sorted[j], sorted[i]);
    }
  }

  // ---------- section RVAs ----------

  ghost function RvaOf(extents: seq<int>, alignment: int, i: nat): int
    requires alignment > 0 && i <= |extents|
  {
    if i == 0 then alignment else NextMultiple(RvaOf(extents, alignment, i - 1) + extents[i - 1], alignment)
  }

  ghost predicate RvasFit(extents: seq<int>, alignment: int) {
    && 0 < alignment < 0x1_0000_0000 && (forall i :: 0 <= i < |extents| ==> 0 <= extents[i])
    && forall i :: 0 <= i < |extents| ==> RvaOf(extents, alignment, i) + extents[i] + alignment < 0x1_0000_0000
  }

  /** The RVA loop of the linker over the extents of the output sections. */
  method AssignRvas(extents: seq<int>, alignment: int) returns (rvas: seq<int>)
    requires alignment >= 0
    ensures |rvas| == |extents|
    ensures RvasFit(extents, alignment) ==> forall i :: 0 <= i < |extents| ==> rvas[i] == RvaOf(extents, alignment, i)
  {
    rvas := [];
    var rva := alignment;
    for i := 0 to |extents|
      invariant |rvas| == i
      invariant RvasFit(extents, alignment) ==> rva == RvaOf(extents, alignment, i)
      invariant RvasFit(extents, alignment) ==> forall k :: 0 <= k < i ==> rvas[k] == RvaOf(extents, alignment, k)
    {
      rvas := rvas + [rva];
      ghost var ok := RvasFit(extents, alignment);
      if ok {
        RvaPositive(extents, alignment, i);
        AlignUpExact(rva + extents[i], alignment);
      }
      rva := AlignUp(rva + extents[i], alignment);
    }
  }

  lemma {:induction false} RvaPositive(extents: seq<int>, alignment: int, i: nat)
    requires RvasFit(extents, alignment) && i <= |extents|
    ensures 0 < RvaOf(extents, alignment, i) && RvaOf(extents, alignment, i) % alignment == 0
  {
    if i > 0 {
      RvaPositive(extents, alignment, i - 1);
      NextMultipleBounds(RvaOf(extents, alignment, i - 1) + extents[i - 1], alignment);
    } else {
      ModUnique(alignment, alignment, 1, 0);
    }
  }

  /** Section RVAs are aligned, and sections follow each other without overlap. */
  lemma {:induction false} RvasDisjoint(extents: seq<int>, alignment: int, i: nat, j: nat)
    requires RvasFit(extents, alignment) && i < j < |extents|
    ensures RvaOf(extents, alignment, i) + extents[i] <= RvaOf(extents, alignment, j)
    ensures extents[i] > 0 ==> RvaOf(extents, alignment, i) < RvaOf(extents, alignment, j)
    ensures RvaOf(extents, alignment, j) % alignment == 0
    decreases j
  {
    RvaPositive(extents, alignment, j);
    NextMultipleBounds(RvaOf(extents, alignment, j - 1) + extents[j - 1], alignment);
    if i < j - 1 { RvasDisjoint(extents, alignment, i, j - 1); }
  }
}
