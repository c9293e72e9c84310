/** Import synthesis end to end: a code thunk reaches the table entry of its own import. */
module ImportLink {
  import opened Basics
  import opened Coff
  import opened ImportPlan
  import opened ImportDirectory
  import opened ImportReader
  import opened ImportThunks

  /** Every import belongs to a group. */
  lemma {:induction false} GroupOf(imports: seq<Import>, groups: seq<Group>, m: nat, h: nat) returns (g: nat)
    requires Grouped(imports, groups, |imports|) && h < |groups| && m < groups[h].start + groups[h].count
    ensures g < |groups| && groups[g].start <= m < groups[g].start + groups[g].count
    decreases h
  {
    if groups[h].start <= m {
      g := h;
    } else {
      assert groups[h - 1].start + groups[h - 1].count == groups[h].start;
      g := GroupOf(imports, groups, m, h - 1);
    }
  }

  /** The address-table slot planned for import `m` holds import `m`. */
  lemma SlotHolds(b: Done, m: nat)
    requires m < |b.l.imports|
    ensures m < |b.l.slots| && EntryAt(b.buf, b.rva, b.l.slots[m]) == Some(EntryOf(b.l.imports[m]))
  {
    var g := GroupOf(b.l.imports, b.l.groups, m, |b.l.groups| - 1);
    assert GroupSlots(b.l.groups[g], g, b.l.slots, b.l.bases.iat);
    EntryHeld(b, 2, g, m, b.l.slots[m]);
  }

  /** The thunk of code import `m` loads from an RVA of the block where the loader finds import `m`. */
  ghost predicate ReachesImport(text: seq<byte>, textRva: int, offset: int, buf: seq<byte>, idataRva: int, i: Import) {
    && IsThunk(text, offset)
    && EntryAt(buf, idataRva, LoadsFrom(text, textRva, offset) - idataRva) == Some(EntryOf(i))
  }

  lemma AllReach(b: Done, text: seq<byte>, textRva: int, offsets: seq<int>, from: nat)
    requires Placed(text, b.l.imports, offsets, |b.l.imports|, from) && |b.l.slots| == |b.l.imports|
    requires forall m :: 0 <= m < |b.l.imports| && b.l.imports[m].isCode ==>
      LoadsFrom(text, textRva, offsets[m]) == b.rva + b.l.slots[m]
    ensures forall m :: 0 <= m < |b.l.imports| && b.l.imports[m].isCode ==>
      ReachesImport(text, textRva, offsets[m], b.buf, b.rva, b.l.imports[m])
  {
    forall m | 0 <= m < |b.l.imports| && b.l.imports[m].isCode
      ensures ReachesImport(text, textRva, offsets[m], b.buf, b.rva, b.l.imports[m]) {
      SlotHolds(b, m);
    }
  }

  /**
   Plans the imports, appends the thunks to the code, writes the directory and aims the thunks.
   It fails exactly when a thunk is out of reach of its slot.
   */
  method LinkImports(code: seq<byte>, imports: seq<Import>, textRva: int, idataRva: int)
    returns (l: ImportLayout, buf: seq<byte>, offsets: seq<int>, r: Result<seq<byte>>)
    ensures LayoutOk(l) && l.bases.total >= 0 && multiset(l.imports) == multiset(imports) && |offsets| == |l.imports|
    ensures r.Ok? <==>
      forall m :: 0 <= m < |l.imports| && l.imports[m].isCode ==>
        -0x8000_0000 <= idataRva + l.slots[m] - (textRva + offsets[m] + 6) <= 0x7fff_ffff
    ensures r.Ok? ==> code <= r.value && Placed(r.value, l.imports, offsets, |l.imports|, |code|)
    ensures Writable(l, idataRva) ==> ReadDirectory(buf, idataRva, 0) == DirectoryOf(l, idataRva)
    ensures r.Ok? && Writable(l, idataRva) ==> forall m :: 0 <= m < |l.imports| && l.imports[m].isCode ==>
      ReachesImport(r.value, textRva, offsets[m], buf, idataRva, l.imports[m])
  {
    l, buf := WriteAndRead(imports, idataRva);
    var text;
    text, offsets := PlaceThunks(code, l.imports);
    r := AimThunks(text, l.imports, offsets, |code|, textRva, idataRva, l.slots);
    if r.Ok? {
      assert r.value[..|code|] == text[..|code|] == code;
    }
    if r.Ok? && Writable(l, idataRva) { AllReach(Block(l, idataRva, buf), r.value, textRva, offsets, |code|); }
  }
}
