/**
 The headers as a loader reads them, by the offsets of the PE format specification: the signature
 through the offset at 0x3C, the file header, the optional header and its data directories.
 */
module PeHeaders {
  import opened Basics
  import opened Coff
  import opened Bytes
  import opened Align
  import opened Pe
  import opened PeReader
  import opened Words

  /** Sizes and flags that follow from the sections and from whether the image can be moved. */
  datatype Summary = Summary(flags: int, dllFlags: int, code: int, init: int, uninit: int, codeBase: int)

  datatype Headers = Headers(
    machine: int, sectionCount: int, tableStart: int, stamp: int, summary: Summary, entryRva: int, imageBase: int,
    sectionAlignment: int, fileAlignment: int, system: int, subsystemMajor: int, sizeOfImage: int, sizeOfHeaders: int,
    checksum: int, subsystem: int, reserve: Reserve, directories: seq<Directory>)

  function Field(image: seq<byte>, at: int, width: nat): (v: int)
    requires 0 <= at && at + width <= |image|
    ensures v >= 0
  {
    Decode(Get(image, at, width))
  }

  function ReadDirectories(image: seq<byte>, at: int, n: nat): seq<Directory>
    requires 0 <= at && at + 8 * n <= |image|
  {
    seq(n, k requires 0 <= k < n => Directory(Field(image, at + 8 * k, 4), Field(image, at + 8 * k + 4, 4)))
  }

  function ReadReserve(image: seq<byte>, at: int): Reserve
    requires 0 <= at && at + 32 <= |image|
  {
    Reserve(Field(image, at, 8), Field(image, at + 8, 8), Field(image, at + 16, 8), Field(image, at + 24, 8))
  }

  function ReadSummary(image: seq<byte>, pe: int, opt: int): Summary
    requires 0 <= pe && pe + 24 <= opt && opt + 72 <= |image|
  {
    Summary(Field(image, pe + 22, 2), Field(image, opt + 70, 2), Field(image, opt + 4, 4), Field(image, opt + 8, 4),
      Field(image, opt + 12, 4), Field(image, opt + 20, 4))
  }

  /** None when a signature is missing or the headers are cut off. */
  function ReadHeaders(image: seq<byte>): Option<Headers> {
    if |image| < 0x40 || Field(image, 0, 2) != 0x5A4D then None
    else
      var pe := Field(image, 0x3C, 4);
      if pe + 264 > |image| || Field(image, pe, 4) != 0x4550 then None
      else
        var opt := pe + 24;
        var count := Field(image, opt + 108, 4);
        if Field(image, opt, 2) != 0x20B || opt + 112 + 8 * count > |image| then None
        else Some(Headers(
          Field(image, pe + 4, 2), Field(image, pe + 6, 2), opt + Field(image, pe + 20, 2), Field(image, pe + 8, 4),
          ReadSummary(image, pe, opt),
          Field(image, opt + 16, 4), Field(image, opt + 24, 8), Field(image, opt + 32, 4), Field(image, opt + 36, 4),
          Field(image, opt + 40, 2), Field(image, opt + 48, 2),
          Field(image, opt + 56, 4), Field(image, opt + 60, 4), Field(image, opt + 64, 4), Field(image, opt + 68, 2),
          ReadReserve(image, opt + 72), ReadDirectories(image, opt + 112, count)))
  }

  // ---------- each part by itself ----------

  lemma DosFields()
    ensures Get(DosHeader(), 0, 2) == Encode(0x5A4D, 2) && Get(DosHeader(), 0x3C, 4) == Encode(0x80, 4)
  {
  }

  lemma FileFields(n: nat, relocatable: bool)
    ensures var h := FileHeader(n, relocatable);
      && Get(h, 0, 4) == Encode(0x4550, 4) && Get(h, 4, 2) == Encode(0x8664, 2) && Get(h, 6, 2) == Encode(n, 2)
      && Get(h, 8, 4) == Zeros(4) && Get(h, 20, 2) == Encode(0xF0, 2)
      && Get(h, 22, 2) == Encode(FileFlags(relocatable), 2)
  {
    SixParts(Encode(0x4550, 4), Encode(0x8664, 2), Encode(n, 2), Zeros(12), Encode(0xF0, 2),
      Encode(FileFlags(relocatable), 2));
  }

  lemma SixParts(a: seq<byte>, b: seq<byte>, c: seq<byte>, d: seq<byte>, e: seq<byte>, f: seq<byte>)
    ensures var h := a + b + c + d + e + f;
      && Get(h, 0, |a|) == a && Get(h, |a|, |b|) == b && Get(h, |a| + |b|, |c|) == c
      && Get(h, |a| + |b| + |c| + |d|, |e|) == e
      && Get(h, |a| + |b| + |c| + |d| + |e|, |f|) == f
  {
  }

  lemma StandardFieldsAt(o: ImageOptions, t: Totals)
    ensures Get(StandardFields(o, t), 0, 2) == Encode(0x20B, 2)
    ensures Get(StandardFields(o, t), 4, 4) == Encode(t.code, 4) && Get(StandardFields(o, t), 8, 4) == Encode(t.init, 4)
    ensures Get(StandardFields(o, t), 12, 4) == Encode(t.uninit, 4)
    ensures Get(StandardFields(o, t), 16, 4) == Encode(o.entryRva, 4)
    ensures Get(StandardFields(o, t), 20, 4) == Encode(t.baseOfCode, 4)
  {
  }

  lemma WindowsFieldsAt(o: ImageOptions, t: Totals, headers: int, relocatable: bool)
    ensures var h := WindowsFields(o, t, headers, relocatable);
      && Get(h, 0, 8) == Encode(o.imageBase, 8) && Get(h, 8, 4) == Encode(o.sectionAlignment, 4)
      && Get(h, 12, 4) == Encode(o.fileAlignment, 4) && Get(h, 16, 2) == Encode(6, 2) && Get(h, 24, 2) == Encode(6, 2)
      && Get(h, 32, 4) == Encode(t.end, 4) && Get(h, 36, 4) == Encode(headers, 4)
      && Get(h, 40, 4) == Encode(0, 4) && Get(h, 44, 2) == Encode(o.subsystem, 2)
      && Get(h, 46, 2) == Encode(if relocatable then 0x8160 else 0x8100, 2)
  {
    var h, last := WindowsFields(o, t, headers, relocatable), Encode(if relocatable then 0x8160 else 0x8100, 2);
    assert |h| == 48 && h[46..] == last;
    assert h[46..48] == h[46..];
  }

  lemma ReserveFieldsAt(r: Reserve)
    ensures var h := ReserveFields(r);
      && Get(h, 0, 8) == Encode(r.stackReserve, 8) && Get(h, 8, 8) == Encode(r.stackCommit, 8)
      && Get(h, 16, 8) == Encode(r.heapReserve, 8) && Get(h, 24, 8) == Encode(r.heapCommit, 8)
      && Get(h, 36, 4) == Encode(16, 4)
  {
  }

  /**
   Directory `k` of the sixteen: import, exception, base relocation, thread-local storage and IAT,
   the others empty.
   */
  function DirectoryAt(o: ImageOptions, k: int): Directory {
    if k == 1 then o.imports else if k == 3 then o.exceptions else if k == 5 then o.baseRelocs
    else if k == 9 then o.tls else if k == 12 then o.iat else Directory(0, 0)
  }

  lemma ZeroField()
    ensures Encode(0, 4) == Zeros(4)
  {
    assert Digit(0, 0) == 0 && Digit(0, 1) == 0 && Digit(0, 2) == 0 && Digit(0, 3) == 0;
  }

  lemma ZeroDirectory()
    ensures DirectoryBytes(Directory(0, 0)) == Zeros(8)
  {
    ZeroField();
  }

  lemma DirectoriesAt(o: ImageOptions, k: nat)
    requires k < 16
    ensures Get(Directories(o), 8 * k, 8) == DirectoryBytes(DirectoryAt(o, k))
  {
    ZeroDirectory();
    var d := Directories(o);
    assert Get(d, 0, 8) == Zeros(8) && Get(d, 8, 8) == DirectoryBytes(o.imports) && Get(d, 16, 8) == Zeros(8);
    assert Get(d, 24, 8) == DirectoryBytes(o.exceptions) && Get(d, 32, 8) == Zeros(8)
      && Get(d, 40, 8) == DirectoryBytes(o.baseRelocs);
    assert Get(d, 48, 8) == Zeros(8) && Get(d, 56, 8) == Zeros(8) && Get(d, 64, 8) == Zeros(8)
      && Get(d, 72, 8) == DirectoryBytes(o.tls);
    assert Get(d, 80, 8) == Zeros(8) && Get(d, 88, 8) == Zeros(8) && Get(d, 96, 8) == DirectoryBytes(o.iat);
    assert Get(d, 104, 8) == Zeros(8) && Get(d, 112, 8) == Zeros(8) && Get(d, 120, 8) == Zeros(8);
  }

  // ---------- the image ----------

  /** `part` is in the image at `at`. */
  predicate Holds(image: seq<byte>, at: int, part: seq<byte>) {
    0 <= at && at + |part| <= |image| && Get(image, at, |part|) == part
  }

  lemma ReadField(image: seq<byte>, at: int, part: seq<byte>, inner: nat, width: nat, v: int)
    requires Holds(image, at, part) && inner + width <= |part| && Get(part, inner, width) == Encode(v, width)
    requires 0 <= v < Pow256(width)
    ensures at + inner + width <= |image| && Field(image, at + inner, width) == v
  {
    GetGet(image, at, |part|, inner, width);
    DecodeEncode(v, width);
    ModUnique(v, Pow256(width), 0, v);
  }

  /** The parts lie one behind the other. */
  lemma Parts(a: seq<byte>, b: seq<byte>, c: seq<byte>, d: seq<byte>, e: seq<byte>, f: seq<byte>, rest: seq<byte>)
    ensures var image := a + b + c + d + e + f + rest;
      && Holds(image, 0, a) && Holds(image, |a|, b) && Holds(image, |a| + |b|, c) && Holds(image, |a| + |b| + |c|, d)
      && Holds(image, |a| + |b| + |c| + |d|, e) && Holds(image, |a| + |b| + |c| + |d| + |e|, f)
  {
  }

  /** All values fit the fields that hold them. */
  ghost predicate InRange(o: ImageOptions) {
    && 0 <= o.imageBase < 0x1_0000_0000_0000_0000 && 0 <= o.entryRva < 0x1_0000_0000 && 0 <= o.subsystem < 0x1_0000
    && 0 < o.sectionAlignment < 0x1_0000_0000 && 0 < o.fileAlignment < 0x1_0000_0000
    && 0 <= o.reserve.stackReserve < 0x1_0000_0000_0000_0000 && 0 <= o.reserve.stackCommit < 0x1_0000_0000_0000_0000
    && 0 <= o.reserve.heapReserve < 0x1_0000_0000_0000_0000 && 0 <= o.reserve.heapCommit < 0x1_0000_0000_0000_0000
    && forall k :: 0 <= k < 16 ==>
      0 <= DirectoryAt(o, k).rva < 0x1_0000_0000 && 0 <= DirectoryAt(o, k).size < 0x1_0000_0000
  }

  lemma FileRead(image: seq<byte>, n: nat, relocatable: bool)
    requires Holds(image, 0x80, FileHeader(n, relocatable)) && n < 0x1_0000
    ensures 0x98 <= |image| && Field(image, 0x80, 4) == 0x4550 && Field(image, 0x84, 2) == 0x8664
    ensures Field(image, 0x86, 2) == n && Field(image, 0x88, 4) == 0
    ensures Field(image, 0x94, 2) == 0xF0 && Field(image, 0x96, 2) == if relocatable then 0x22 else 0x23
  {
    var h := FileHeader(n, relocatable);
    FileFields(n, relocatable);
    Widths();
    ReadField(image, 0x80, h, 0, 4, 0x4550);
    ReadField(image, 0x80, h, 4, 2, 0x8664);
    ReadField(image, 0x80, h, 6, 2, n);
    ZeroField();
    ReadField(image, 0x80, h, 8, 4, 0);
    ReadField(image, 0x80, h, 20, 2, 0xF0);
    ReadField(image, 0x80, h, 22, 2, FileFlags(relocatable));
  }

  lemma WindowsRead(image: seq<byte>, o: ImageOptions, t: Totals, headers: int, relocatable: bool)
    requires Holds(image, 0xB0, WindowsFields(o, t, headers, relocatable))
    requires InRange(o) && 0 <= t.end < 0x1_0000_0000 && 0 <= headers < 0x1_0000_0000
    ensures 0xE0 <= |image| && Field(image, 0xB0, 8) == o.imageBase && Field(image, 0xB8, 4) == o.sectionAlignment
    ensures Field(image, 0xBC, 4) == o.fileAlignment && Field(image, 0xC0, 2) == 6 && Field(image, 0xC8, 2) == 6
    ensures Field(image, 0xD0, 4) == t.end && Field(image, 0xD4, 4) == headers && Field(image, 0xD8, 4) == 0
    ensures Field(image, 0xDC, 2) == o.subsystem && Field(image, 0xDE, 2) == if relocatable then 0x8160 else 0x8100
  {
    var h := WindowsFields(o, t, headers, relocatable);
    WindowsFieldsAt(o, t, headers, relocatable);
    Widths();
    ReadField(image, 0xB0, h, 0, 8, o.imageBase);
    ReadField(image, 0xB0, h, 8, 4, o.sectionAlignment);
    ReadField(image, 0xB0, h, 12, 4, o.fileAlignment);
    ReadField(image, 0xB0, h, 32, 4, t.end);
    ReadField(image, 0xB0, h, 36, 4, headers);
    ReadField(image, 0xB0, h, 44, 2, o.subsystem);
    ReadField(image, 0xB0, h, 16, 2, 6);
    ReadField(image, 0xB0, h, 24, 2, 6);
    ReadField(image, 0xB0, h, 40, 4, 0);
    ReadField(image, 0xB0, h, 46, 2, if relocatable then 0x8160 else 0x8100);
  }

  lemma ReserveRead(image: seq<byte>, o: ImageOptions)
    requires Holds(image, 0xE0, ReserveFields(o.reserve)) && InRange(o)
    ensures 0x108 <= |image| && ReadReserve(image, 0xE0) == o.reserve && Field(image, 0x104, 4) == 16
  {
    var r := o.reserve;
    var h := ReserveFields(r);
    ReserveFieldsAt(r);
    Widths();
    ReadField(image, 0xE0, h, 0, 8, r.stackReserve);
    ReadField(image, 0xE0, h, 8, 8, r.stackCommit);
    ReadField(image, 0xE0, h, 16, 8, r.heapReserve);
    ReadField(image, 0xE0, h, 24, 8, r.heapCommit);
    ReadField(image, 0xE0, h, 36, 4, 16);
  }

  ghost function AllDirectories(o: ImageOptions): seq<Directory> {
    seq(16, k requires 0 <= k => DirectoryAt(o, k))
  }

  lemma DirectoryRead(image: seq<byte>, o: ImageOptions, k: nat, at: int)
    requires Holds(image, 0x108, Directories(o)) && InRange(o) && k < 16 && at == 0x108 + 8 * k
    ensures at + 8 <= |image| && Directory(Field(image, at, 4), Field(image, at + 4, 4)) == DirectoryAt(o, k)
  {
    var d := DirectoryAt(o, k);
    var h := DirectoryBytes(d);
    DirectoriesAt(o, k);
    GetGet(image, 0x108, 128, 8 * k, 8);
    assert Holds(image, at, h) && Get(h, 0, 4) == Encode(d.rva, 4) && Get(h, 4, 4) == Encode(d.size, 4);
    Widths();
    ReadField(image, at, h, 0, 4, d.rva);
    ReadField(image, at, h, 4, 4, d.size);
  }

  lemma DirectoriesRead(image: seq<byte>, o: ImageOptions)
    requires Holds(image, 0x108, Directories(o)) && InRange(o)
    ensures 0x188 <= |image| && ReadDirectories(image, 0x108, 16) == AllDirectories(o)
  {
    forall k | 0 <= k < 16 ensures ReadDirectories(image, 0x108, 16)[k] == AllDirectories(o)[k] {
      DirectoryRead(image, o, k, 0x108 + 8 * k);
    }
  }

  lemma {:induction false} TotalsInRange(sections: seq<SectionImage>, o: ImageOptions, i: nat)
    requires o.fileAlignment > 0 && o.sectionAlignment > 0 && i <= |sections|
    requires RvasFit(sections)
    ensures TotalsFit(TotalsOf(sections, o, i))
  {
    if i > 0 { TotalsInRange(sections, o, i - 1); }
  }

  ghost predicate RvasFit(sections: seq<SectionImage>) {
    forall k :: 0 <= k < |sections| ==> 0 <= sections[k].rva < 0x1_0000_0000
  }

  ghost predicate TotalsFit(t: Totals) {
    && 0 <= t.end < 0x1_0000_0000 && 0 <= t.code < 0x1_0000_0000 && 0 <= t.init < 0x1_0000_0000
    && 0 <= t.uninit < 0x1_0000_0000 && 0 <= t.baseOfCode < 0x1_0000_0000
  }

  /** The fixed headers are in the image, part by part. */
  ghost predicate HasHeaders(image: seq<byte>, n: nat, o: ImageOptions, t: Totals, headers: int) {
    var relocatable := o.baseRelocs.size != 0;
    && Holds(image, 0, DosHeader()) && Holds(image, 0x80, FileHeader(n, relocatable))
    && Holds(image, 0x98, StandardFields(o, t))
    && Holds(image, 0xB0, WindowsFields(o, t, headers, relocatable)) && Holds(image, 0xE0, ReserveFields(o.reserve))
    && Holds(image, 0x108, Directories(o))
  }

  lemma HeadersHeld(n: nat, o: ImageOptions, t: Totals, headers: int, rest: seq<byte>)
    ensures HasHeaders(FixedHeaders(n, o, t, headers) + rest, n, o, t, headers)
  {
    var relocatable := o.baseRelocs.size != 0;
    Parts(DosHeader(), FileHeader(n, relocatable), StandardFields(o, t), WindowsFields(o, t, headers, relocatable),
      ReserveFields(o.reserve), Directories(o), rest);
  }

  lemma SignaturesRead(image: seq<byte>, n: nat, o: ImageOptions, t: Totals, headers: int)
    requires HasHeaders(image, n, o, t, headers) && InRange(o) && TotalsFit(t)
    ensures 0x188 <= |image| && Field(image, 0, 2) == 0x5A4D && Field(image, 0x3C, 4) == 0x80
    ensures Field(image, 0x98, 2) == 0x20B && Field(image, 0xA8, 4) == o.entryRva
    ensures Field(image, 0x9C, 4) == t.code && Field(image, 0xA0, 4) == t.init && Field(image, 0xA4, 4) == t.uninit
    ensures Field(image, 0xAC, 4) == t.baseOfCode
  {
    DosFields();
    StandardFieldsAt(o, t);
    Widths();
    ReadField(image, 0, DosHeader(), 0, 2, 0x5A4D);
    ReadField(image, 0, DosHeader(), 0x3C, 4, 0x80);
    ReadField(image, 0x98, StandardFields(o, t), 0, 2, 0x20B);
    ReadField(image, 0x98, StandardFields(o, t), 4, 4, t.code);
    ReadField(image, 0x98, StandardFields(o, t), 8, 4, t.init);
    ReadField(image, 0x98, StandardFields(o, t), 12, 4, t.uninit);
    ReadField(image, 0x98, StandardFields(o, t), 16, 4, o.entryRva);
    ReadField(image, 0x98, StandardFields(o, t), 20, 4, t.baseOfCode);
  }

  lemma HeadersFound(image: seq<byte>, n: nat, o: ImageOptions, t: Totals, headers: int)
    requires HasHeaders(image, n, o, t, headers) && InRange(o) && n < 0x1_0000 && TotalsFit(t)
    requires 0 <= headers < 0x1_0000_0000
    ensures ReadHeaders(image) == Some(HeadersFor(n, o, t, headers))
  {
    SignaturesRead(image, n, o, t, headers);
    FileRead(image, n, o.baseRelocs.size != 0);
    WindowsRead(image, o, t, headers, o.baseRelocs.size != 0);
    ReserveRead(image, o);
    DirectoriesRead(image, o);
  }

  /** Without base relocations the image says that it cannot be moved: stripped (bit 0), no dynamic base. */
  ghost function HeadersFor(n: nat, o: ImageOptions, t: Totals, headers: int): Headers {
    var movable := o.baseRelocs.size != 0;
    Headers(0x8664, n, 0x188, 0,
      Summary(if movable then 0x22 else 0x23, if movable then 0x8160 else 0x8100, t.code, t.init, t.uninit,
        t.baseOfCode),
      o.entryRva, o.imageBase, o.sectionAlignment, o.fileAlignment, 6, 6, t.end, headers, 0, o.subsystem, o.reserve,
      AllDirectories(o))
  }

  lemma Regroup(a: seq<byte>, b: seq<byte>, c: seq<byte>, d: seq<byte>)
    ensures a + b + c + d == a + (b + c + d)
  {
  }

  lemma HeadersInImage(sections: seq<SectionImage>, o: ImageOptions)
    requires Buildable(sections, o)
    ensures HasHeaders(ImageOf(sections, o), |sections|, o, TotalsOf(sections, o, |sections|),
      HeadersSize(|sections|, o))
  {
    var n := |sections|;
    var t, headers := TotalsOf(sections, o, n), HeadersSize(n, o);
    var table, padding, raw := SectionHeaders(sections, o, n), Zeros(headers - HeadersUnaligned(n)),
      RawDatas(sections, o, n);
    Regroup(FixedHeaders(n, o, t, headers), table, padding, raw);
    HeadersHeld(n, o, t, headers, table + padding + raw);
  }

  /** The loader reads back what the linker was given, and the section table where the data rows are. */
  lemma HeadersRoundTrip(sections: seq<SectionImage>, o: ImageOptions)
    requires Buildable(sections, o) && InRange(o) && RvasFit(sections)
    ensures ReadHeaders(ImageOf(sections, o)) ==
      Some(HeadersFor(|sections|, o, TotalsOf(sections, o, |sections|), HeadersSize(|sections|, o)))
  {
    var n := |sections|;
    TotalsInRange(sections, o, n);
    HeadersInImage(sections, o);
    HeadersFound(ImageOf(sections, o), n, o, TotalsOf(sections, o, n), HeadersSize(n, o));
  }

  // ---------- the size of the image ----------

  /** Addresses and sizes are unsigned, and no section end overflows 32 bits while it is being rounded up. */
  ghost predicate EndsFit(sections: seq<SectionImage>, o: ImageOptions) {
    && o.fileAlignment > 0 && o.sectionAlignment > 0 && HeadersSize(|sections|, o) + o.sectionAlignment < 0x1_0000_0000
    && forall i :: 0 <= i < |sections| ==>
      0 <= sections[i].rva && 0 <= sections[i].virtualSize && Ends(sections[i], 0x1_0000_0000 - o.sectionAlignment - 1)
  }

  /** Neither the image bytes nor the file bytes of the section reach beyond `end`. */
  ghost predicate Ends(s: SectionImage, end: int) {
    s.rva + s.virtualSize <= end && s.rva + |s.data| <= end
  }

  lemma EndIs(s: SectionImage, end: int)
    requires 0 <= s.virtualSize && |s.data| < 0x1_0000_0000
    ensures Ends(s, end) <==> s.rva + VirtualSize(s) <= end
  {
    WrapSmall(|s.data|);
  }

  /** The end grows to the rounded end of each section in turn. */
  lemma EndStep(sections: seq<SectionImage>, o: ImageOptions, n: nat)
    requires EndsFit(sections, o) && 0 < n <= |sections|
    ensures var s := sections[n - 1]; var v := s.rva + VirtualSize(s); var up := AlignUp(v, o.sectionAlignment);
      && (forall end :: Ends(s, end) <==> v <= end)
      && up % o.sectionAlignment == 0 && v <= up < v + o.sectionAlignment
      && TotalsOf(sections, o, n).end == if up > TotalsOf(sections, o, n - 1).end then up
        else TotalsOf(sections, o, n - 1).end
  {
    var s := sections[n - 1];
    var v := s.rva + VirtualSize(s);
    assert Ends(s, 0x1_0000_0000 - o.sectionAlignment - 1);
    forall end ensures Ends(s, end) <==> v <= end { EndIs(s, end); }
    AlignUpBounds(v, o.sectionAlignment);
    WrapSmall(v);
  }

  /**
   SizeOfImage is aligned and covers the headers and every section, and less than one alignment
   unit beyond the last of them.
   */
  lemma {:induction false} ImageCovers(sections: seq<SectionImage>, o: ImageOptions, n: nat)
    requires EndsFit(sections, o) && n <= |sections|
    ensures var end := TotalsOf(sections, o, n).end;
      && end % o.sectionAlignment == 0 && HeadersSize(|sections|, o) <= end
      && (forall k :: 0 <= k < n ==> Ends(sections[k], end))
      && (end < HeadersSize(|sections|, o) + o.sectionAlignment ||
          exists k :: 0 <= k < n && !Ends(sections[k], end - o.sectionAlignment))
  {
    if n == 0 {
      AlignUpBounds(HeadersSize(|sections|, o), o.sectionAlignment);
    } else {
      ImageCovers(sections, o, n - 1);
      EndStep(sections, o, n);
    }
  }

  // ---------- the other totals ----------

  /** The raw sizes of the sections with bit `bit` in their characteristics. */
  ghost function RawSum(sections: seq<SectionImage>, o: ImageOptions, bit: nat, n: nat): int
    requires o.fileAlignment > 0 && n <= |sections|
  {
    if n == 0 then 0
    else
      RawSum(sections, o, bit, n - 1) +
        if Bit(sections[n - 1].characteristics, bit) then RawSize(sections[n - 1], o) else 0
  }

  /** The sizes in memory of the sections with bit `bit` in their characteristics. */
  ghost function SpanSum(sections: seq<SectionImage>, o: ImageOptions, bit: nat, n: nat): int
    requires o.sectionAlignment > 0 && n <= |sections|
  {
    if n == 0 then 0
    else
      var s := sections[n - 1];
      SpanSum(sections, o, bit, n - 1) +
        if Bit(s.characteristics, bit) then AlignUp(VirtualSize(s), o.sectionAlignment) else 0
  }

  lemma SectionKinds(characteristics: int)
    ensures Bit(characteristics, 5) <==> HasFlag(characteristics, 0x20)
    ensures Bit(characteristics, 6) <==> HasFlag(characteristics, 0x40)
    ensures Bit(characteristics, 7) <==> HasFlag(characteristics, 0x80)
  {
    FourUp(characteristics, 1);
    FourUp(characteristics, 2);
    FourUp(characteristics, 3);
    assert Bit(characteristics / 16, 1) <==> Bit(characteristics / 0x20, 0);
    assert Bit(characteristics / 16, 2) <==> Bit(characteristics / 0x40, 0);
    assert Bit(characteristics / 16, 3) <==> Bit(characteristics / 0x80, 0);
  }

  lemma WrapSum(a: int, b: int)
    ensures Wrap(Wrap(a) + b) == Wrap(a + b)
  {
  }

  lemma TotalsStep(sections: seq<SectionImage>, o: ImageOptions, n: nat)
    requires o.fileAlignment > 0 && o.sectionAlignment > 0 && 0 < n <= |sections|
    ensures var t, next, s := TotalsOf(sections, o, n - 1), TotalsOf(sections, o, n), sections[n - 1];
      && next.code == (if Bit(s.characteristics, 5) then Wrap(t.code + RawSize(s, o)) else t.code)
      && next.init == (if Bit(s.characteristics, 6) then Wrap(t.init + RawSize(s, o)) else t.init)
      && next.uninit == if Bit(s.characteristics, 7)
        then Wrap(t.uninit + AlignUp(VirtualSize(s), o.sectionAlignment)) else t.uninit
  {
    SectionKinds(sections[n - 1].characteristics);
  }

  /**
   SizeOfCode and SizeOfInitializedData are the raw sizes, and SizeOfUninitializedData the aligned
   sizes in memory, of the sections of that kind (bits 5, 6 and 7), in 32 bits.
   */
  lemma {:induction false} SizesAre(sections: seq<SectionImage>, o: ImageOptions, n: nat)
    requires o.fileAlignment > 0 && o.sectionAlignment > 0 && n <= |sections|
    ensures var t := TotalsOf(sections, o, n);
      && t.code == Wrap(RawSum(sections, o, 5, n)) && t.init == Wrap(RawSum(sections, o, 6, n))
      && t.uninit == Wrap(SpanSum(sections, o, 7, n))
  {
    if n > 0 {
      SizesAre(sections, o, n - 1);
      TotalsStep(sections, o, n);
      WrapSum(RawSum(sections, o, 5, n - 1), RawSize(sections[n - 1], o));
      WrapSum(RawSum(sections, o, 6, n - 1), RawSize(sections[n - 1], o));
      WrapSum(SpanSum(sections, o, 7, n - 1), AlignUp(VirtualSize(sections[n - 1]), o.sectionAlignment));
    }
  }

  /** Section `k` holds code and every code section before it has RVA 0. */
  ghost predicate FirstCode(sections: seq<SectionImage>, k: int) {
    && 0 <= k < |sections| && Bit(sections[k].characteristics, 5) && sections[k].rva != 0
    && forall j :: 0 <= j < k && Bit(sections[j].characteristics, 5) ==> sections[j].rva == 0
  }

  /** BaseOfCode is the RVA of the first code section that has one, or zero. */
  lemma {:induction false} CodeBaseIs(sections: seq<SectionImage>, o: ImageOptions, n: nat)
    requires o.fileAlignment > 0 && o.sectionAlignment > 0 && n <= |sections|
    ensures var b := TotalsOf(sections, o, n).baseOfCode;
      if b == 0 then forall k :: 0 <= k < n && Bit(sections[k].characteristics, 5) ==> sections[k].rva == 0
      else exists k :: FirstCode(sections, k) && k < n && sections[k].rva == b
  {
    if n > 0 {
      CodeBaseIs(sections, o, n - 1);
      SectionKinds(sections[n - 1].characteristics);
      if TotalsOf(sections, o, n - 1).baseOfCode == 0 && TotalsOf(sections, o, n).baseOfCode != 0 {
        assert FirstCode(sections, n - 1);
      }
    }
  }
}
