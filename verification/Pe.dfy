/** The PE32+ file image (build_pe32_plus): headers, section table and raw section data. */
module Pe {
  import opened Basics
  import opened Coff
  import opened Bytes
  import opened Align

  datatype SectionImage = SectionImage(name: string, rva: int, characteristics: int, data: seq<byte>, virtualSize: int)

  /** RVA and size of one data directory. */
  datatype Directory = Directory(rva: int, size: int)

  datatype Reserve = Reserve(stackReserve: int, stackCommit: int, heapReserve: int, heapCommit: int)

  datatype ImageOptions = ImageOptions(
    imageBase: int, entryRva: int, fileAlignment: int, sectionAlignment: int, subsystem: int, reserve: Reserve,
    imports: Directory, exceptions: Directory, baseRelocs: Directory, tls: Directory, iat: Directory)

  function VirtualSize(s: SectionImage): int {
    if s.virtualSize >= Wrap(|s.data|) then s.virtualSize else Wrap(|s.data|)
  }

  /** The section table starts at 0x188, behind the fixed headers. */
  function HeadersUnaligned(n: nat): int {
    0x188 + 40 * n
  }

  function HeadersSize(n: nat, o: ImageOptions): int
    requires o.fileAlignment > 0
  {
    AlignUp(HeadersUnaligned(n), o.fileAlignment)
  }

  function RawSize(s: SectionImage, o: ImageOptions): int
    requires o.fileAlignment > 0
  {
    if s.data == [] then 0 else AlignUp(Wrap(|s.data|), o.fileAlignment)
  }

  /** The raw cursor before section `i`. */
  function RawStart(sections: seq<SectionImage>, o: ImageOptions, i: nat): int
    requires o.fileAlignment > 0 && i <= |sections|
  {
    if i == 0 then HeadersSize(|sections|, o) else Wrap(RawStart(sections, o, i - 1) + RawSize(sections[i - 1], o))
  }

  function RawPointer(sections: seq<SectionImage>, o: ImageOptions, i: nat): int
    requires o.fileAlignment > 0 && i < |sections|
  {
    if RawSize(sections[i], o) == 0 then 0 else RawStart(sections, o, i)
  }

  /** Running totals for the optional header: end of image, code, initialized and uninitialized sizes, base of code. */
  datatype Totals = Totals(end: int, code: int, init: int, uninit: int, baseOfCode: int)

  function TotalsOf(sections: seq<SectionImage>, o: ImageOptions, i: nat): Totals
    requires o.fileAlignment > 0 && o.sectionAlignment > 0 && i <= |sections|
  {
    if i == 0 then Totals(AlignUp(HeadersSize(|sections|, o), o.sectionAlignment), 0, 0, 0, 0)
    else
      var t, s := TotalsOf(sections, o, i - 1), sections[i - 1];
      var raw, end := RawSize(s, o), AlignUp(Wrap(s.rva + VirtualSize(s)), o.sectionAlignment);
      var isCode := HasFlag(s.characteristics, 0x20);
      Totals(if end > t.end then end else t.end,
             if isCode then Wrap(t.code + raw) else t.code,
             if HasFlag(s.characteristics, 0x40) then Wrap(t.init + raw) else t.init,
             if HasFlag(s.characteristics, 0x80) then Wrap(t.uninit + AlignUp(VirtualSize(s), o.sectionAlignment))
             else t.uninit,
             if isCode && t.baseOfCode == 0 then s.rva else t.baseOfCode)
  }

  // ---------- the parts of the file ----------

  /** A name cut or padded to `width` bytes. */
  function Ascii(text: string, width: nat): (s: seq<byte>)
    ensures |s| == width
  {
    seq(width, i requires 0 <= i => if i < |text| then (text[i] as int % 256) as byte else 0)
  }

  function DosHeader(): (s: seq<byte>)
    ensures |s| == 0x80
  {
    Encode(0x5A4D, 2) + Zeros(58) + Encode(0x80, 4) + Zeros(64)
  }

  /** Executable and large-address aware; relocations stripped when there are none. */
  function FileFlags(relocatable: bool): int {
    if relocatable then 0x22 else 0x23
  }

  function FileHeader(n: nat, relocatable: bool): (s: seq<byte>)
    ensures |s| == 24
  {
    Encode(0x4550, 4) + Encode(0x8664, 2) + Encode(n, 2) + Zeros(12) + Encode(0xF0, 2) +
      Encode(FileFlags(relocatable), 2)
  }

  function StandardFields(o: ImageOptions, t: Totals): (s: seq<byte>)
    ensures |s| == 24
  {
    Encode(0x20B, 2) + Encode(1, 1) + Encode(0, 1) + Encode(t.code, 4) + Encode(t.init, 4) + Encode(t.uninit, 4)
    + Encode(o.entryRva, 4) + Encode(t.baseOfCode, 4)
  }

  function WindowsFields(o: ImageOptions, t: Totals, headers: int, relocatable: bool): (s: seq<byte>)
    ensures |s| == 48
  {
    Encode(o.imageBase, 8) + Encode(o.sectionAlignment, 4) + Encode(o.fileAlignment, 4)
    + Encode(6, 2) + Encode(0, 2) + Encode(0, 2) + Encode(0, 2) + Encode(6, 2) + Encode(0, 2) + Encode(0, 4)
    + Encode(t.end, 4) + Encode(headers, 4) + Encode(0, 4) + Encode(o.subsystem, 2) +
      Encode(if relocatable then 0x8160 else 0x8100, 2)
  }

  function ReserveFields(r: Reserve): (s: seq<byte>)
    ensures |s| == 40
  {
    Encode(r.stackReserve, 8) + Encode(r.stackCommit, 8) + Encode(r.heapReserve, 8) + Encode(r.heapCommit, 8) +
      Encode(0, 4) + Encode(16, 4)
  }

  function DirectoryBytes(d: Directory): (s: seq<byte>)
    ensures |s| == 8
  {
    Encode(d.rva, 4) + Encode(d.size, 4)
  }

  function Directories(o: ImageOptions): (s: seq<byte>)
    ensures |s| == 128
  {
    Zeros(8) + DirectoryBytes(o.imports) + Zeros(8) + DirectoryBytes(o.exceptions) + Zeros(8) +
      DirectoryBytes(o.baseRelocs)
    + Zeros(24) + DirectoryBytes(o.tls) + Zeros(16) + DirectoryBytes(o.iat) + Zeros(24)
  }

  function FixedHeaders(n: nat, o: ImageOptions, t: Totals, headers: int): (s: seq<byte>)
    ensures |s| == 0x188
  {
    var relocatable := o.baseRelocs.size != 0;
    DosHeader() + FileHeader(n, relocatable) + StandardFields(o, t) + WindowsFields(o, t, headers, relocatable)
    + ReserveFields(o.reserve) + Directories(o)
  }

  function SectionHeader(s: SectionImage, rawSize: int, rawPointer: int): (h: seq<byte>)
    ensures |h| == 40
  {
    Ascii(s.name, 8) + Encode(VirtualSize(s), 4) + Encode(s.rva, 4) + Encode(rawSize, 4) + Encode(rawPointer, 4) +
      Zeros(12) + Encode(s.characteristics, 4)
  }

  /** Headers of the first `i` sections. */
  function SectionHeaders(sections: seq<SectionImage>, o: ImageOptions, i: nat): (h: seq<byte>)
    requires o.fileAlignment > 0 && i <= |sections|
    ensures |h| == 40 * i
  {
    if i == 0 then []
    else
      SectionHeaders(sections, o, i - 1) +
        SectionHeader(sections[i - 1], RawSize(sections[i - 1], o), RawPointer(sections, o, i - 1))
  }

  /** The data of one section, padded to its raw size. */
  function RawData(s: SectionImage, o: ImageOptions): seq<byte>
    requires o.fileAlignment > 0 && RawFits(s, o)
  {
    if RawSize(s, o) == 0 then [] else s.data + Zeros(RawSize(s, o) - |s.data|)
  }

  predicate RawFits(s: SectionImage, o: ImageOptions)
    requires o.fileAlignment > 0
  {
    RawSize(s, o) == 0 || |s.data| <= RawSize(s, o)
  }

  function RawDatas(sections: seq<SectionImage>, o: ImageOptions, i: nat): seq<byte>
    requires o.fileAlignment > 0 && i <= |sections| && forall k :: 0 <= k < i ==> RawFits(sections[k], o)
  {
    if i == 0 then [] else RawDatas(sections, o, i - 1) + RawData(sections[i - 1], o)
  }

  // ---------- writing ----------

  /** Writer: an append-only byte buffer. */
  class Writer {
    var bytes: seq<byte>

    constructor ()
      ensures bytes == []
    {
      bytes := [];
    }

    method Raw(s: seq<byte>)
      modifies this
      ensures bytes == old(bytes) + s
    {
      bytes := bytes + s;
    }

    method Zero(n: nat)
      modifies this
      ensures bytes == old(bytes) + Zeros(n)
    {
      bytes := bytes + Zeros(n);
    }
  }

  predicate Buildable(sections: seq<SectionImage>, o: ImageOptions) {
    && 1 <= |sections| <= 96 && o.fileAlignment > 0 && o.sectionAlignment > 0
    && HeadersUnaligned(|sections|) <= HeadersSize(|sections|, o)
    && forall k :: 0 <= k < |sections| ==> RawFits(sections[k], o)
  }

  function ImageOf(sections: seq<SectionImage>, o: ImageOptions): seq<byte>
    requires Buildable(sections, o)
  {
    var n := |sections|;
    FixedHeaders(n, o, TotalsOf(sections, o, n), HeadersSize(n, o)) + SectionHeaders(sections, o, n)
    + Zeros(HeadersSize(n, o) - HeadersUnaligned(n)) + RawDatas(sections, o, n)
  }

  method BuildPe32Plus(sections: seq<SectionImage>, o: ImageOptions) returns (r: Result<seq<byte>>)
    requires 0 <= o.fileAlignment && 0 <= o.sectionAlignment
    ensures r.Ok? <==> Buildable(sections, o)
    ensures r.Ok? ==> r.value == ImageOf(sections, o)
  {
    if sections == [] { return Err("PE image requires at least one section"); }
    if |sections| > 96 { return Err("too many PE sections"); }
    if o.fileAlignment == 0 || o.sectionAlignment == 0 { return Err("PE alignment must not be zero"); }
    var headers := HeadersSize(|sections|, o);
    var rows := PlanRows(sections, o, headers);
    var w := new Writer();
    WriteHeaders(w, sections, o, rows, headers);
    if |w.bytes| > headers { return Err("PE headers exceed file alignment reservation"); }
    w.Zero(headers - |w.bytes|);
    r := WriteData(w, sections, o, rows);
  }

  /** The row of section `i` and the cursor behind it. */
  function RowAt(ghost sections: seq<SectionImage>, o: ImageOptions, ghost i: nat, s: SectionImage,
          cursor: int): (r: (int, int, int))
    requires o.fileAlignment > 0 && i < |sections| && s == sections[i] && cursor == RawStart(sections, o, i)
    ensures r.0 == RawPointer(sections, o, i) && r.1 == RawSize(sections[i], o) && r.2 == RawStart(sections, o, i + 1)
  {
    var size := RawSize(s, o);
    (if size == 0 then 0 else cursor, size, Wrap(cursor + size))
  }

  /** Raw pointer and size of every section, from one running cursor. */
  method PlanRows(sections: seq<SectionImage>, o: ImageOptions, headers: int) returns (rows: seq<(int, int)>)
    requires o.fileAlignment > 0 && headers == HeadersSize(|sections|, o)
    ensures Rows(sections, o, rows)
  {
    rows := [];
    var cursor := headers;
    for i := 0 to |sections|
      invariant |rows| == i && cursor == RawStart(sections, o, i)
      invariant forall k :: 0 <= k < i ==> rows[k] == (RawPointer(sections, o, k), RawSize(sections[k], o))
    {
      var row := RowAt(sections, o, i, sections[i], cursor);
      rows, cursor := rows + [(row.0, row.1)], row.2;
    }
  }

  ghost predicate Rows(sections: seq<SectionImage>, o: ImageOptions, rows: seq<(int, int)>)
    requires o.fileAlignment > 0
  {
    |rows| == |sections| && forall k :: 0 <= k < |sections| ==>
      rows[k] == (RawPointer(sections, o, k), RawSize(sections[k], o))
  }

  /** The fixed headers and the section table. */
  method WriteHeaders(w: Writer, sections: seq<SectionImage>, o: ImageOptions, rows: seq<(int, int)>, headers: int)
    requires o.fileAlignment > 0 && o.sectionAlignment > 0 && Rows(sections, o, rows) && w.bytes == []
    modifies w
    ensures w.bytes == FixedHeaders(|sections|, o, TotalsOf(sections, o, |sections|), headers) +
      SectionHeaders(sections, o, |sections|)
    ensures |w.bytes| == HeadersUnaligned(|sections|)
  {
    w.Raw(FixedHeaders(|sections|, o, TotalsOf(sections, o, |sections|), headers));
    WriteTable(w, sections, o, rows);
  }

  method WriteTable(w: Writer, sections: seq<SectionImage>, o: ImageOptions, rows: seq<(int, int)>)
    requires o.fileAlignment > 0 && Rows(sections, o, rows)
    modifies w
    ensures w.bytes == old(w.bytes) + SectionHeaders(sections, o, |sections|)
  {
    for i := 0 to |sections|
      invariant w.bytes == old(w.bytes) + SectionHeaders(sections, o, i)
    {
      w.Raw(SectionHeader(sections[i], rows[i].1, rows[i].0));
    }
  }

  lemma Padded(now: seq<byte>, data: seq<byte>, padding: seq<byte>, before: seq<byte>, raw: seq<byte>)
    requires now == before + raw
    ensures now + data + padding == before + (raw + (data + padding))
  {
  }

  /** One section: nothing when it has no raw data, else its bytes and the padding. */
  method WriteSection(w: Writer, s: SectionImage, o: ImageOptions, size: int, ghost before: seq<byte>,
          ghost raw: seq<byte>)
    returns (ok: bool)
    requires o.fileAlignment > 0 && size == RawSize(s, o) && w.bytes == before + raw
    modifies w
    ensures ok <==> RawFits(s, o)
    ensures ok ==> w.bytes == before + (raw + RawData(s, o))
  {
    if size == 0 {
      assert raw + [] == raw;
      return true;
    }
    if |s.data| > size { return false; }
    Padded(w.bytes, s.data, Zeros(size - |s.data|), before, raw);
    w.Raw(s.data);
    w.Zero(size - |s.data|);
    ok := true;
  }

  method WriteData(w: Writer, sections: seq<SectionImage>, o: ImageOptions, rows: seq<(int, int)>)
    returns (r: Result<seq<byte>>)
    requires o.fileAlignment > 0 && Rows(sections, o, rows)
    modifies w
    ensures r.Ok? <==> forall k :: 0 <= k < |sections| ==> RawFits(sections[k], o)
    ensures r.Ok? ==> r.value == old(w.bytes) + RawDatas(sections, o, |sections|)
  {
    for i := 0 to |sections|
      invariant forall k :: 0 <= k < i ==> RawFits(sections[k], o)
      invariant w.bytes == old(w.bytes) + RawDatas(sections, o, i)
    {
      var ok := WriteSection(w, sections[i], o, rows[i].1, old(w.bytes), RawDatas(sections, o, i));
      if !ok { return Err("section data exceeds its raw size"); }
    }
    r := Ok(w.bytes);
  }
}
