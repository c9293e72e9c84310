/** Reading the import directory back: descriptors, lookup tables, hint/name entries and DLL names. */
module ImportReader {
  import opened Basics
  import opened Coff
  import opened Bytes
  import opened Sorting
  import opened ImportPlan
  import opened ImportDirectory

  datatype Entry = ByOrdinal(ordinal: int) | ByName(hint: int, name: string)

  /** One DLL of the directory, with the RVA of its address table. */
  datatype Dll = Dll(name: string, firstThunk: int, entries: seq<Entry>)

  // ---------- the loader ----------

  /** The block `buf` is mapped at `rva`. */
  function ReadEntry(buf: seq<byte>, rva: int, value: int): Entry {
    if value >= 0x8000_0000_0000_0000 then ByOrdinal(value % 0x1_0000)
    else
      var at := value - rva;
      if 0 <= at && at + 2 <= |buf| then ByName(Decode(Get(buf, at, 2)), ReadName(buf, at + 2)) else ByName(0, "")
  }

  /** The table entry at `offset`; none when it is zero or outside the block. */
  function EntryAt(buf: seq<byte>, rva: int, offset: int): (e: Option<Entry>)
    ensures e.Some? ==> 0 <= offset && offset + 8 <= |buf|
  {
    if offset < 0 || offset + 8 > |buf| then None
    else
      var value := Decode(Get(buf, offset, 8));
      if value == 0 then None else Some(ReadEntry(buf, rva, value))
  }

  function ReadEntries(buf: seq<byte>, rva: int, offset: int): seq<Entry>
    decreases |buf| - offset
  {
    match EntryAt(buf, rva, offset)
    case None => []
    case Some(e) => [e] + ReadEntries(buf, rva, offset + 8)
  }

  /** The DLL described at `offset`; none when the descriptor is null or outside the block. */
  function DllAt(buf: seq<byte>, rva: int, offset: int): (d: Option<Dll>)
    ensures d.Some? ==> 0 <= offset && offset + 20 <= |buf|
  {
    if offset < 0 || offset + 20 > |buf| then None
    else
      var lookup, name, thunk := Decode(Get(buf, offset, 4)), Decode(Get(buf, offset + 12, 4)),
        Decode(Get(buf, offset + 16, 4));
      if lookup == 0 then None else Some(Dll(ReadName(buf, name - rva), thunk, ReadEntries(buf, rva, lookup - rva)))
  }

  function ReadDirectory(buf: seq<byte>, rva: int, offset: int): seq<Dll>
    decreases |buf| - offset
  {
    match DllAt(buf, rva, offset)
    case None => []
    case Some(d) => [d] + ReadDirectory(buf, rva, offset + 20)
  }

  // ---------- what it should find ----------

  function EntryOf(i: Import): Entry {
    if i.byOrdinal then ByOrdinal(i.hint) else ByName(i.hint, i.name)
  }

  lemma GroupFits(l: Planned, g: nat)
    requires g < |l.groups|
    ensures l.groups[g].start + l.groups[g].count <= |l.imports|
  {
    assert GroupOk(l.imports, l.groups[g], |l.imports|);
  }

  /** The imports of group `g`, in order. */
  ghost function EntriesOf(l: Planned, g: nat): (r: seq<Entry>)
    requires g < |l.groups|
  {
    GroupFits(l, g);
    seq(l.groups[g].count, n requires 0 <= n < l.groups[g].count => EntryOf(l.imports[l.groups[g].start + n]))
  }

  /** The directory the plan describes. */
  ghost function DirectoryOf(l: Planned, rva: int): seq<Dll> {
    seq(|l.groups|, g requires 0 <= g < |l.groups| => DllOf(l, rva, g))
  }

  // ---------- the loader's two loops ----------

  ghost predicate EntryIs(buf: seq<byte>, rva: int, start: int, n: nat, e: Entry) {
    EntryAt(buf, rva, start + 8 * n) == Some(e)
  }

  lemma {:induction false} ReadsRun(buf: seq<byte>, rva: int, start: int, entries: seq<Entry>, n: nat, offset: int)
    requires n <= |entries| && offset == start + 8 * n && EntryAt(buf, rva, start + 8 * |entries|) == None
    requires forall k :: 0 <= k < |entries| ==> EntryIs(buf, rva, start, k, entries[k])
    ensures ReadEntries(buf, rva, offset) == entries[n..]
    decreases |entries| - n
  {
    if n < |entries| {
      assert EntryIs(buf, rva, start, n, entries[n]);
      ReadsRun(buf, rva, start, entries, n + 1, offset + 8);
    }
  }

  ghost predicate DllIs(buf: seq<byte>, rva: int, g: nat, dll: Dll) {
    DllAt(buf, rva, 20 * g) == Some(dll)
  }

  lemma {:induction false} ReadsDlls(buf: seq<byte>, rva: int, dlls: seq<Dll>, g: nat, offset: int)
    requires g <= |dlls| && offset == 20 * g && DllAt(buf, rva, 20 * |dlls|) == None
    requires forall h :: 0 <= h < |dlls| ==> DllIs(buf, rva, h, dlls[h])
    ensures ReadDirectory(buf, rva, offset) == dlls[g..]
    decreases |dlls| - g
  {
    if g < |dlls| {
      assert DllIs(buf, rva, g, dlls[g]);
      ReadsDlls(buf, rva, dlls, g + 1, offset + 20);
    }
  }

  ghost predicate DescriptorIs(buf: seq<byte>, offset: int, lookup: int, name: int, thunk: int) {
    && 0 <= offset && offset + 20 <= |buf| && Decode(Get(buf, offset, 4)) == lookup
    && Decode(Get(buf, offset + 12, 4)) == name && Decode(Get(buf, offset + 16, 4)) == thunk
  }

  lemma DllIntro(buf: seq<byte>, rva: int, offset: int, lookupAt: int, nameAt: int, dll: Dll)
    requires DescriptorIs(buf, offset, rva + lookupAt, rva + nameAt, dll.firstThunk) && rva + lookupAt != 0
    requires ReadName(buf, nameAt) == dll.name && ReadEntries(buf, rva, lookupAt) == dll.entries
    ensures DllAt(buf, rva, offset) == Some(dll)
  {
  }

  // ---------- single entries ----------

  /** The bytes of one import: its table entry, and its hint and name when it has them. */
  ghost predicate HoldsImport(buf: seq<byte>, rva: int, offset: int, i: Import, lookup: int, at: int) {
    && 0 <= offset && offset + 8 <= |buf| && Get(buf, offset, 8) == Encode(lookup, 8)
    && if i.byOrdinal then lookup == 0x8000_0000_0000_0000 + i.hint
       else
         && lookup == rva + at && 0 <= at && at + 2 + |i.name| + 1 <= |buf|
         && Get(buf, at, 2) == Encode(i.hint, 2) && Get(buf, at + 2, |i.name| + 1) == AsciiZ(i.name)
  }

  lemma ReadsNamed(buf: seq<byte>, rva: int, i: Import, at: int)
    requires 0 <= at && at + 2 + |i.name| + 1 <= |buf| && 0 <= i.hint < 0x1_0000 && IsName(i.name) && 0 < rva
    requires rva + |buf| < 0x1_0000_0000
    requires Get(buf, at, 2) == Encode(i.hint, 2) && Get(buf, at + 2, |i.name| + 1) == AsciiZ(i.name)
    ensures ReadEntry(buf, rva, rva + at) == ByName(i.hint, i.name)
  {
    Word16(i.hint);
    ReadsName(buf, at + 2, i.name);
  }

  lemma ReadsImport(buf: seq<byte>, rva: int, offset: int, i: Import, lookup: int, at: int)
    requires HoldsImport(buf, rva, offset, i, lookup, at) && 0 <= i.hint < 0x1_0000 && IsName(i.name) && 0 < rva
    requires rva + |buf| < 0x1_0000_0000
    ensures EntryAt(buf, rva, offset) == Some(EntryOf(i))
  {
    Word64(lookup);
    if i.byOrdinal {
      ReadsOrdinal(buf, rva, lookup, i.hint);
    } else {
      ReadsNamed(buf, rva, i, at);
    }
  }

  lemma ReadsOrdinal(buf: seq<byte>, rva: int, lookup: int, ordinal: int)
    requires 0 <= ordinal < 0x1_0000 && lookup == 0x8000_0000_0000_0000 + ordinal
    ensures ReadEntry(buf, rva, lookup) == ByOrdinal(ordinal)
  {
    ModUnique(lookup, 0x1_0000, 0x8000_0000_0000, ordinal);
  }

  // ---------- from the stores to what is read ----------

  /** Every store of the plan is in place, and bytes of no store are zero. */
  ghost predicate AllInPlace(l: Planned, rva: int, buf: seq<byte>) {
    && |buf| == l.bases.total
    && (forall k {:trigger Consult(k)} :: Consult(k) && KeyOk(l, k) ==> InPlace(l, rva, buf, k))
    && (forall i {:trigger Free(l, i)} :: 0 <= i < |buf| && Free(l, i) ==> buf[i] == 0)
  }

  /** Marks the stores a proof looks at. */
  predicate Consult(k: Key) {
    true
  }

  datatype Block = Block(l: Planned, rva: int, buf: seq<byte>)

  /** The finished block of a sound plan, mapped at `rva`. */
  type Done = b: Block | Writable(b.l, b.rva) && AllInPlace(b.l, b.rva, b.buf)
    ghost witness NoImports()

  /** The block of an empty plan: just the null descriptor. */
  ghost function NoImports(): (b: Block)
    ensures Writable(b.l, b.rva) && AllInPlace(b.l, b.rva, b.buf)
  {
    var l: Planned := ImportLayout([], [], [], [], [], [], [], BasesOf([], []));
    assert forall k :: !KeyOk(l, k);
    Block(l, 1, Zeros(l.bases.total))
  }

  lemma ImportHeld(l: Planned, rva: int, buf: seq<byte>, t: int, g: nat, m: nat, offset: int)
    requires InGroup(l, g, m) && (t == 1 || t == 2) && offset == TableStart(l, t) + 8 * (m + g)
    requires InPlace(l, rva, buf, if t == 1 then Ilt(g, m) else Iat(g, m))
    requires !l.imports[m].byOrdinal ==> InPlace(l, rva, buf, Hint(g, m)) && InPlace(l, rva, buf, Name(g, m))
    ensures HoldsImport(buf, rva, offset, l.imports[m], LookupOf(l, rva, m), l.hints[m])
  {
    if !l.imports[m].byOrdinal { NameHeld(l, rva, buf, g, m); }
  }

  lemma NameHeld(l: Planned, rva: int, buf: seq<byte>, g: nat, m: nat)
    requires InGroup(l, g, m) && !l.imports[m].byOrdinal && InPlace(l, rva, buf, Hint(g, m))
    requires InPlace(l, rva, buf, Name(g, m))
    ensures var at, i := l.hints[m], l.imports[m];
      && 0 <= at && at + 2 + |i.name| + 1 <= |buf| && Get(buf, at, 2) == Encode(i.hint, 2)
      && Get(buf, at + 2, |i.name| + 1) == AsciiZ(i.name)
  {
    HintAt(l, g, m);
  }

  lemma HintAt(l: Planned, g: nat, m: nat)
    requires InGroup(l, g, m) && !l.imports[m].byOrdinal
    ensures l.hints[m] == Offset(l, Hint(g, m)) && l.hints[m] + 2 == Offset(l, Name(g, m))
  {
  }

  lemma TerminatorValue(b: Done, t: int, g: nat, offset: int)
    requires g < |b.l.groups| && (t == 1 || t == 2)
    requires offset == TableStart(b.l, t) + 8 * (b.l.groups[g].start + b.l.groups[g].count + g)
    ensures EntryAt(b.buf, b.rva, offset) == None
  {
    TerminatorFree(b.l, t, g, offset);
    TerminatorFree(b.l, t, g, offset + 7);
    forall i | offset <= i < offset + 8 ensures b.buf[i] == 0 { TerminatorFree(b.l, t, g, i); }
    DecodeZeros(Get(b.buf, offset, 8));
  }

  lemma EntryHeld(b: Done, t: int, g: nat, m: nat, offset: int)
    requires InGroup(b.l, g, m) && (t == 1 || t == 2) && offset == TableStart(b.l, t) + 8 * (m + g)
    ensures EntryAt(b.buf, b.rva, offset) == Some(EntryOf(b.l.imports[m]))
  {
    assert Consult(Ilt(g, m)) && Consult(Iat(g, m)) && Consult(Hint(g, m)) && Consult(Name(g, m));
    ImportHeld(b.l, b.rva, b.buf, t, g, m, offset);
    ReadsImport(b.buf, b.rva, offset, b.l.imports[m], LookupOf(b.l, b.rva, m), b.l.hints[m]);
  }

  /** Both tables of a group hold its imports in order, then a terminator. */
  lemma ReadsGroup(b: Done, t: int, g: nat, start: int)
    requires (t == 1 || t == 2) && g < |b.l.groups| && start == TableStart(b.l, t) + 8 * (b.l.groups[g].start + g)
    ensures ReadEntries(b.buf, b.rva, start) == EntriesOf(b.l, g)
  {
    var entries := EntriesOf(b.l, g);
    TerminatorValue(b, t, g, start + 8 * |entries|);
    forall n | 0 <= n < |entries| ensures EntryIs(b.buf, b.rva, start, n, entries[n]) {
      GroupFits(b.l, g);
      EntryHeld(b, t, g, b.l.groups[g].start + n, start + 8 * n);
    }
    ReadsRun(b.buf, b.rva, start, entries, 0, start);
  }

  lemma OffsetsBounded(l: Planned, g: nat)
    requires g < |l.groups|
    ensures 0 <= l.ilt[g] <= l.bases.total && 0 <= l.iat[g] <= l.bases.total && 0 <= l.names[g] <= l.bases.total
  {
    assert GroupOk(l.imports, l.groups[g], |l.imports|);
    EntryOffsets(l, g, 0);
    Fits(l, Ilt(g, l.groups[g].start));
    Fits(l, Iat(g, l.groups[g].start));
    Fits(l, DllName(g));
  }

  lemma FieldValue(buf: seq<byte>, offset: int, v: int)
    requires 0 <= offset && offset + 4 <= |buf| && Get(buf, offset, 4) == Encode(v, 4) && 0 <= v < 0x1_0000_0000
    ensures Decode(Get(buf, offset, 4)) == v
  {
    Word32(v);
  }

  /** A descriptor field holds what the plan stores there. */
  lemma DescriptorField(b: Done, k: Key, offset: int, v: int)
    requires KeyOk(b.l, k) && (k.DescIlt? || k.DescName? || k.DescIat?) && offset == Offset(b.l, k)
    requires Stored(b.l, b.rva, k) == Encode(v, 4)
    requires 0 <= v < 0x1_0000_0000
    ensures offset + 4 <= |b.buf| && 0 <= offset && Decode(Get(b.buf, offset, 4)) == v
  {
    assert Consult(k);
    FieldValue(b.buf, offset, v);
  }

  lemma LookupValue(b: Done, g: nat, offset: int)
    requires g < |b.l.groups| && offset == 20 * g
    ensures offset + 4 <= |b.buf| && b.l.ilt[g] >= 0 && Decode(Get(b.buf, offset, 4)) == b.rva + b.l.ilt[g]
  {
    OffsetsBounded(b.l, g);
    GroupStores(b.l, b.rva, g);
    assert Consult(DescIlt(g));
    FieldValue(b.buf, offset, b.rva + b.l.ilt[g]);
  }

  lemma NameValue(b: Done, g: nat, offset: int)
    requires g < |b.l.groups| && offset == 20 * g + 12
    ensures offset + 4 <= |b.buf| && Decode(Get(b.buf, offset, 4)) == b.rva + b.l.names[g]
  {
    OffsetsBounded(b.l, g);
    DescriptorField(b, DescName(g), offset, b.rva + b.l.names[g]);
  }

  lemma ThunkValue(b: Done, g: nat, offset: int)
    requires g < |b.l.groups| && offset == 20 * g + 16
    ensures offset + 4 <= |b.buf| && Decode(Get(b.buf, offset, 4)) == b.rva + b.l.iat[g]
  {
    OffsetsBounded(b.l, g);
    DescriptorField(b, DescIat(g), offset, b.rva + b.l.iat[g]);
  }

  lemma ReadsDllName(l: Planned, rva: int, buf: seq<byte>, g: nat)
    requires g < |l.groups| && InPlace(l, rva, buf, DllName(g)) && IsName(l.groups[g].dll)
    ensures ReadName(buf, l.names[g]) == l.groups[g].dll
  {
    ReadsName(buf, l.names[g], l.groups[g].dll);
  }

  lemma NullDescriptor(b: Done, offset: int)
    requires offset == 20 * |b.l.groups|
    ensures DllAt(b.buf, b.rva, offset) == None
  {
    NullDescriptorFree(b.l, offset + 19);
    forall i | offset <= i < offset + 4 ensures b.buf[i] == 0 { NullDescriptorFree(b.l, i); }
    DecodeZeros(Get(b.buf, offset, 4));
  }

  lemma DescriptorHeld(b: Done, g: nat, offset: int)
    requires g < |b.l.groups| && offset == 20 * g
    ensures DescriptorIs(b.buf, offset, b.rva + b.l.ilt[g], b.rva + b.l.names[g], b.rva + b.l.iat[g])
    ensures b.rva + b.l.ilt[g] != 0
  {
    LookupValue(b, g, offset);
    NameValue(b, g, offset + 12);
    ThunkValue(b, g, offset + 16);
  }

  lemma NameFound(b: Done, g: nat)
    requires g < |b.l.groups|
    ensures b.l.names[g] >= 0 && ReadName(b.buf, b.l.names[g]) == b.l.groups[g].dll
  {
    assert Consult(DllName(g));
    ReadsDllName(b.l, b.rva, b.buf, g);
  }

  lemma DllHeld(b: Done, g: nat, offset: int)
    requires g < |b.l.groups| && offset == 20 * g
    ensures DllAt(b.buf, b.rva, offset) == Some(DllOf(b.l, b.rva, g))
  {
    var buf, rva, lookupAt, nameAt, dll := b.buf, b.rva, b.l.ilt[g], b.l.names[g], DllOf(b.l, b.rva, g);
    DescriptorHeld(b, g, offset);
    NameFound(b, g);
    ReadsGroup(b, 1, g, lookupAt);
    DllIntro(buf, rva, offset, lookupAt, nameAt, dll);
  }

  ghost function DllOf(l: Planned, rva: int, g: nat): Dll
    requires g < |l.groups|
  {
    Dll(l.groups[g].dll, rva + l.iat[g], EntriesOf(l, g))
  }

  lemma DllFound(b: Done, g: nat)
    requires g < |b.l.groups|
    ensures DllIs(b.buf, b.rva, g, DllOf(b.l, b.rva, g))
  {
    var offset := 20 * g;
    DllHeld(b, g, offset);
  }

  /** The loader finds the planned directory. */
  lemma ReadsAll(b: Done)
    ensures ReadDirectory(b.buf, b.rva, 0) == DirectoryOf(b.l, b.rva)
  {
    var dlls := DirectoryOf(b.l, b.rva);
    NullDescriptor(b, 20 * |dlls|);
    forall g | 0 <= g < |dlls| ensures DllIs(b.buf, b.rva, g, dlls[g]) { DllFound(b, g); }
    ReadsDlls(b.buf, b.rva, dlls, 0, 0);
  }

  lemma StoresFinish(l: Planned, rva: int, keys: seq<Key>)
    requires KeysOk(l, keys) && forall k :: KeyOk(l, k) ==> k in keys
    ensures AllInPlace(l, rva, StoreAll(l, rva, keys))
  {
    var buf := StoreAll(l, rva, keys);
    forall k | KeyOk(l, k) ensures InPlace(l, rva, buf, k) { StoresStay(l, rva, keys, k); }
    forall i | 0 <= i < |buf| && Free(l, i) ensures buf[i] == 0 { FreeStaysZero(l, rva, keys, i); }
  }

  /** No DLL has two descriptors, whatever the case of its name. */
  ghost predicate NamesApart(dlls: seq<Dll>) {
    forall g, h :: 0 <= g < h < |dlls| ==> !SameDll(dlls[g].name, dlls[h].name)
  }

  /** What a loader reads from a written block. */
  lemma BlockReads(l: Planned, rva: int, buf: seq<byte>)
    requires Writable(l, rva) && AllInPlace(l, rva, buf)
    ensures ReadDirectory(buf, rva, 0) == DirectoryOf(l, rva)
    ensures forall g :: 0 <= g < |l.groups| ==> ReadEntries(buf, rva, l.iat[g]) == EntriesOf(l, g)
  {
    var b: Done := Block(l, rva, buf);
    ReadsAll(b);
    forall g | 0 <= g < |l.groups| ensures ReadEntries(buf, rva, l.iat[g]) == EntriesOf(l, g) {
      ReadsGroup(b, 2, g, l.iat[g]);
    }
  }

  /**
   The written block: a loader finds exactly the sorted imports grouped by DLL, and every address
   table holds the same entries as its lookup table.
   */
  method WriteAndRead(imports: seq<Import>, rva: int) returns (l: ImportLayout, buf: seq<byte>)
    ensures LayoutOk(l) && l.bases.total >= 0 && multiset(l.imports) == multiset(imports) && |buf| == l.bases.total
    ensures forall g, h :: 0 <= g < h < |l.groups| ==> StringLess(Lower(l.groups[g].dll), Lower(l.groups[h].dll))
    ensures GroupedByDll(l.imports, l.groups) && AllInPlace(l, rva, buf)
    ensures Writable(l, rva) ==> ReadDirectory(buf, rva, 0) == DirectoryOf(l, rva)
    ensures Writable(l, rva) ==> NamesApart(ReadDirectory(buf, rva, 0))
    ensures Writable(l, rva) ==> forall g :: 0 <= g < |l.groups| ==> ReadEntries(buf, rva, l.iat[g]) == EntriesOf(l, g)
  {
    l := PlanImports(imports);
    ghost var keys;
    buf, keys := WriteDirectory(l, rva);
    StoresFinish(l, rva, keys);
    if Writable(l, rva) { BlockReads(l, rva, buf); }
  }
}
