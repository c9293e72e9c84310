/** What a reader of the PE file finds: section headers, and raw data where they say. */
module PeReader {
  import opened Coff
  import opened Bytes
  import opened Align
  import opened Pe

  /** The raw cursor without wrap-around. */
  ghost function Start(sections: seq<SectionImage>, o: ImageOptions, i: nat): int
    requires o.fileAlignment > 0 && i <= |sections|
  {
    if i == 0 then HeadersSize(|sections|, o) else Start(sections, o, i - 1) + RawSize(sections[i - 1], o)
  }

  /** Everything stays below 4 GiB, also while it is being rounded up. */
  ghost predicate Small(sections: seq<SectionImage>, o: ImageOptions) {
    && 1 <= |sections| <= 96 && 0 < o.fileAlignment && 0 < o.sectionAlignment
    && HeadersUnaligned(|sections|) + o.fileAlignment < 0x1_0000_0000
    && (forall i :: 0 <= i < |sections| ==> |sections[i].data| + o.fileAlignment < 0x1_0000_0000)
    && Start(sections, o, |sections|) < 0x1_0000_0000
  }

  lemma RawSizeExact(s: SectionImage, o: ImageOptions)
    requires 0 < o.fileAlignment && |s.data| + o.fileAlignment < 0x1_0000_0000
    ensures |s.data| <= RawSize(s, o) < |s.data| + o.fileAlignment
    ensures RawSize(s, o) % o.fileAlignment == 0 && RawFits(s, o)
    ensures s.data == [] <==> RawSize(s, o) == 0
  {
    if s.data != [] {
      AlignUpBounds(|s.data|, o.fileAlignment);
    } else {
      ModUnique(0, o.fileAlignment, 0, 0);
    }
  }

  /** An image without overflow is always built. */
  lemma SmallIsBuildable(sections: seq<SectionImage>, o: ImageOptions)
    requires Small(sections, o)
    ensures Buildable(sections, o) && HeadersSize(|sections|, o) % o.fileAlignment == 0
    ensures 0x188 + 40 * |sections| <= HeadersSize(|sections|, o) < 0x188 + 40 * |sections| + o.fileAlignment
  {
    AlignUpBounds(HeadersUnaligned(|sections|), o.fileAlignment);
    forall k | 0 <= k < |sections| ensures RawFits(sections[k], o) { RawSizeExact(sections[k], o); }
  }

  lemma {:induction false} StartGrows(sections: seq<SectionImage>, o: ImageOptions, i: nat, j: nat)
    requires Small(sections, o) && i <= j <= |sections|
    ensures 0 <= HeadersSize(|sections|, o) <= Start(sections, o, i) <= Start(sections, o, j)
    ensures i < j ==> Start(sections, o, i) + RawSize(sections[i], o) <= Start(sections, o, j)
    decreases j
  {
    if j > 0 && i < j {
      StartGrows(sections, o, i, j - 1);
      RawSizeExact(sections[j - 1], o);
    } else if j > 0 {
      StartGrows(sections, o, i - 1, j - 1);
      RawSizeExact(sections[i - 1], o);
    } else {
      SmallIsBuildable(sections, o);
    }
  }

  lemma StartInRange(sections: seq<SectionImage>, o: ImageOptions, i: nat)
    requires Small(sections, o) && i <= |sections|
    ensures 0 <= Start(sections, o, i) < 0x1_0000_0000
  {
    StartGrows(sections, o, i, |sections|);
  }

  lemma RawStartStep(sections: seq<SectionImage>, o: ImageOptions, i: nat, v: int)
    requires o.fileAlignment > 0 && 0 < i <= |sections| && 0 <= v < 0x1_0000_0000
    requires v == RawStart(sections, o, i - 1) + RawSize(sections[i - 1], o)
    ensures RawStart(sections, o, i) == v
  {
    WrapSmall(v);
  }

  lemma {:induction false} StartIsRawStart(sections: seq<SectionImage>, o: ImageOptions, i: nat)
    requires Small(sections, o) && i <= |sections|
    ensures RawStart(sections, o, i) == Start(sections, o, i)
  {
    if i > 0 {
      StartIsRawStart(sections, o, i - 1);
      StartInRange(sections, o, i);
      RawStartStep(sections, o, i, Start(sections, o, i));
    } else {
      StartInRange(sections, o, 0);
    }
  }

  lemma WrapSmall(v: int)
    requires 0 <= v < 0x1_0000_0000
    ensures Wrap(v) == v
  {
  }

  lemma {:induction false} StartAligned(sections: seq<SectionImage>, o: ImageOptions, i: nat)
    requires Small(sections, o) && i <= |sections|
    ensures Start(sections, o, i) % o.fileAlignment == 0
  {
    if i == 0 {
      SmallIsBuildable(sections, o);
    } else {
      StartAligned(sections, o, i - 1);
      RawSizeExact(sections[i - 1], o);
      MultiplesAdd(Start(sections, o, i - 1), RawSize(sections[i - 1], o), o.fileAlignment);
    }
  }

  lemma MultiplesAdd(x: int, y: int, a: int)
    requires a > 0 && x % a == 0 && y % a == 0
    ensures (x + y) % a == 0
  {
    assert x == (x / a) * a && y == (y / a) * a;
    Sum(x / a, y / a, a);
    ModUnique(x + y, a, x / a + y / a, 0);
  }

  lemma Sum(p: int, q: int, a: int)
    ensures p * a + q * a == (p + q) * a
  {
  }

  lemma {:induction false} RawDatasLength(sections: seq<SectionImage>, o: ImageOptions, i: nat)
    requires Small(sections, o) && i <= |sections| && Buildable(sections, o)
    ensures |RawDatas(sections, o, i)| == Start(sections, o, i) - HeadersSize(|sections|, o)
  {
    if i > 0 {
      RawDatasLength(sections, o, i - 1);
      RawSizeExact(sections[i - 1], o);
    }
  }

  /** The data of section `k` inside the concatenation of all raw data. */
  lemma {:induction false} RawDataAt(sections: seq<SectionImage>, o: ImageOptions, k: nat, i: nat, at: int, size: int)
    requires Small(sections, o) && k < i <= |sections| && Buildable(sections, o)
    requires at == Start(sections, o, k) - HeadersSize(|sections|, o) && size == RawSize(sections[k], o)
    ensures 0 <= at && 0 <= size && at + size <= |RawDatas(sections, o, i)|
    ensures Get(RawDatas(sections, o, i), at, size) == RawData(sections[k], o)
    decreases i
  {
    var front, last := RawDatas(sections, o, i - 1), RawData(sections[i - 1], o);
    if k < i - 1 {
      RawDataAt(sections, o, k, i - 1, at, size);
      GetLeft(front, last, at, size);
    } else {
      LastRawData(sections, o, k);
      GetRight(front, last);
    }
  }

  lemma LastRawData(sections: seq<SectionImage>, o: ImageOptions, k: nat)
    requires Small(sections, o) && k < |sections| && Buildable(sections, o)
    ensures |RawDatas(sections, o, k)| == Start(sections, o, k) - HeadersSize(|sections|, o) >= 0
    ensures |RawData(sections[k], o)| == RawSize(sections[k], o) >= 0
  {
    RawDatasLength(sections, o, k);
    RawSizeExact(sections[k], o);
    StartGrows(sections, o, k, k);
  }

  lemma GetLeft(a: seq<byte>, b: seq<byte>, at: int, n: nat)
    requires 0 <= at && at + n <= |a|
    ensures Get(a + b, at, n) == Get(a, at, n)
  {
  }

  lemma GetRight(a: seq<byte>, b: seq<byte>)
    ensures Get(a + b, |a|, |b|) == b
  {
  }

  // ---------- the section table ----------

  lemma {:induction false} HeaderAt(sections: seq<SectionImage>, o: ImageOptions, k: nat, i: nat)
    requires o.fileAlignment > 0 && k < i <= |sections|
    ensures Get(SectionHeaders(sections, o, i), 40 * k, 40) ==
      SectionHeader(sections[k], RawSize(sections[k], o), RawPointer(sections, o, k))
    decreases i
  {
    var front, last := SectionHeaders(sections, o, i - 1),
      SectionHeader(sections[i - 1], RawSize(sections[i - 1], o), RawPointer(sections, o, i - 1));
    if k < i - 1 {
      HeaderAt(sections, o, k, i - 1);
      GetLeft(front, last, 40 * k, 40);
    } else {
      GetRight(front, last);
    }
  }

  /** The fields of a section header, by their offset in it. */
  lemma HeaderFields(s: SectionImage, rawSize: int, rawPointer: int)
    ensures var h := SectionHeader(s, rawSize, rawPointer);
      && Get(h, 0, 8) == Ascii(s.name, 8) && Get(h, 8, 4) == Encode(VirtualSize(s), 4)
      && Get(h, 12, 4) == Encode(s.rva, 4)
      && Get(h, 16, 4) == Encode(rawSize, 4) && Get(h, 20, 4) == Encode(rawPointer, 4)
      && Get(h, 36, 4) == Encode(s.characteristics, 4)
  {
  }

  lemma GetGet(s: seq<byte>, at: int, n: nat, inner: int, m: nat)
    requires 0 <= at && at + n <= |s| && 0 <= inner && inner + m <= n
    ensures Get(s, at + inner, m) == Get(Get(s, at, n), inner, m)
  {
    var outer := Get(s, at, n);
    forall i | 0 <= i < m ensures Get(outer, inner, m)[i] == Get(s, at + inner, m)[i] {
      assert outer[inner + i] == s[at + (inner + i)];
    }
  }

  lemma FieldValue(image: seq<byte>, at: int, h: seq<byte>, inner: int, v: int)
    requires 0 <= at && at + 40 <= |image| && Get(image, at, 40) == h && 0 <= inner && inner + 4 <= 40
    requires Get(h, inner, 4) == Encode(v, 4) && 0 <= v < 0x1_0000_0000
    ensures Decode(Get(image, at + inner, 4)) == v
  {
    GetGet(image, at, 40, inner, 4);
    Word32(v);
  }

  // ---------- the image ----------

  /** Header region of exactly its aligned size, section table at 0x188, then the raw data. */
  ghost predicate HasParts(image: seq<byte>, sections: seq<SectionImage>, o: ImageOptions)
    requires Small(sections, o) && Buildable(sections, o)
  {
    var n, headers := |sections|, HeadersSize(|sections|, o);
    && |image| == Start(sections, o, n) && 0x188 + 40 * n <= headers <= |image|
    && Get(image, headers, |image| - headers) == RawDatas(sections, o, n)
    && Get(image, 0x188, 40 * n) == SectionHeaders(sections, o, n)
  }

  lemma ImageParts(sections: seq<SectionImage>, o: ImageOptions)
    requires Small(sections, o) && Buildable(sections, o)
    ensures HasParts(ImageOf(sections, o), sections, o)
  {
    var n := |sections|;
    var fixed := FixedHeaders(n, o, TotalsOf(sections, o, n), HeadersSize(n, o));
    var table, pad, raw := SectionHeaders(sections, o, n), Zeros(HeadersSize(n, o) - HeadersUnaligned(n)),
      RawDatas(sections, o, n);
    RawDatasLength(sections, o, n);
    FourParts(fixed, table, pad, raw);
  }

  lemma FourParts(a: seq<byte>, b: seq<byte>, c: seq<byte>, d: seq<byte>)
    ensures var s := a + b + c + d;
      Get(s, |a|, |b|) == b && Get(s, |a| + |b| + |c|, |d|) == d
  {
  }

  lemma RowBounded(sections: seq<SectionImage>, o: ImageOptions, k: nat)
    requires Small(sections, o) && k < |sections|
    ensures 0 <= RawSize(sections[k], o) < 0x1_0000_0000 && 0 <= RawPointer(sections, o, k) < 0x1_0000_0000
    ensures RawPointer(sections, o, k) == if sections[k].data == [] then 0 else Start(sections, o, k)
  {
    StartGrows(sections, o, k, |sections|);
    RawSizeExact(sections[k], o);
    StartIsRawStart(sections, o, k);
  }

  lemma EntryInImage(image: seq<byte>, sections: seq<SectionImage>, o: ImageOptions, k: nat, at: int)
    requires Small(sections, o) && k < |sections| && Buildable(sections, o) && HasParts(image, sections, o)
    requires at == 0x188 + 40 * k
    ensures at + 40 <= |image|
    ensures Get(image, at, 40) == SectionHeader(sections[k], RawSize(sections[k], o), RawPointer(sections, o, k))
  {
    HeaderAt(sections, o, k, |sections|);
    GetGet(image, 0x188, 40 * |sections|, 40 * k, 40);
  }

  /** What section header `k` says about its raw data. */
  lemma TableEntry(image: seq<byte>, sections: seq<SectionImage>, o: ImageOptions, k: nat, at: int)
    requires Small(sections, o) && k < |sections| && Buildable(sections, o) && HasParts(image, sections, o)
    requires at == 0x188 + 40 * k
    ensures at + 40 <= |image| && Decode(Get(image, at + 16, 4)) == RawSize(sections[k], o)
    ensures Decode(Get(image, at + 20, 4)) == if sections[k].data == [] then 0 else Start(sections, o, k)
  {
    var size, pointer := RawSize(sections[k], o), RawPointer(sections, o, k);
    RowBounded(sections, o, k);
    EntryInImage(image, sections, o, k, at);
    HeaderFields(sections[k], size, pointer);
    FieldValue(image, at, SectionHeader(sections[k], size, pointer), 16, size);
    FieldValue(image, at, SectionHeader(sections[k], size, pointer), 20, pointer);
  }

  lemma InTail(image: seq<byte>, tail: seq<byte>, from: int, at: int, size: nat)
    requires 0 <= from <= |image| && Get(image, from, |image| - from) == tail && from <= at
    requires at - from + size <= |tail|
    ensures at + size <= |image| && Get(image, at, size) == Get(tail, at - from, size)
  {
    GetGet(image, from, |image| - from, at - from, size);
  }

  lemma DataInImage(image: seq<byte>, sections: seq<SectionImage>, o: ImageOptions, k: nat, at: int, size: int)
    requires Small(sections, o) && k < |sections| && Buildable(sections, o) && HasParts(image, sections, o)
    requires sections[k].data != []
    requires at == Start(sections, o, k) && size == RawSize(sections[k], o)
    ensures HeadersSize(|sections|, o) <= at && |sections[k].data| <= size && 0 < size && at + size <= |image|
    ensures Get(image, at, size) == sections[k].data + Zeros(size - |sections[k].data|)
  {
    RawSizeExact(sections[k], o);
    StartGrows(sections, o, k, |sections|);
    RawDataAt(sections, o, k, |sections|, at - HeadersSize(|sections|, o), size);
    InTail(image, RawDatas(sections, o, |sections|), HeadersSize(|sections|, o), at, size);
  }

  /** Section header `k` names exactly the place where the data of section `k` is. */
  lemma DataWhereNamed(sections: seq<SectionImage>, o: ImageOptions, k: nat)
    requires Small(sections, o) && k < |sections|
    ensures Buildable(sections, o)
    ensures NamesData(ImageOf(sections, o), sections[k], o, 0x188 + 40 * k, HeadersSize(|sections|, o))
  {
    SmallIsBuildable(sections, o);
    ImageParts(sections, o);
    NamedData(ImageOf(sections, o), sections, o, k, 0x188 + 40 * k);
  }

  /**
   The header at `at` names and describes the section, and gives file-aligned raw data behind the
   header region: the section's bytes, zero padded.
   */
  ghost predicate NamesData(image: seq<byte>, s: SectionImage, o: ImageOptions, at: int, headers: int) {
    && 0 < o.fileAlignment && 0 <= at && at + 40 <= headers <= |image|
    && (forall i :: 0 <= i < 8 ==>
         image[at + i] as int == if i < |s.name| then s.name[i] as int % 256 else 0)
    && Get(image, at + 12, 4) == Encode(s.rva, 4) && Get(image, at + 36, 4) == Encode(s.characteristics, 4)
    && (0 <= s.virtualSize < 0x1_0000_0000 ==>
         var span := Decode(Get(image, at + 8, 4));
         && s.virtualSize <= span && |s.data| <= span && (span == s.virtualSize || span == |s.data|))
    && var pointer, size := Decode(Get(image, at + 20, 4)), Decode(Get(image, at + 16, 4));
       && (size == 0 <==> s.data == [])
       && (size > 0 ==>
           && headers <= pointer && pointer % o.fileAlignment == 0 && size % o.fileAlignment == 0
           && |s.data| <= size < |s.data| + o.fileAlignment && pointer + size <= |image|
           && Get(image, pointer, size) == s.data + Zeros(size - |s.data|))
  }

  lemma DescribesSection(image: seq<byte>, sections: seq<SectionImage>, o: ImageOptions, k: nat, at: int)
    requires Small(sections, o) && k < |sections| && Buildable(sections, o) && HasParts(image, sections, o)
    requires at == 0x188 + 40 * k
    ensures at + 40 <= |image| && Get(image, at, 8) == Ascii(sections[k].name, 8)
    ensures Get(image, at + 8, 4) == Encode(VirtualSize(sections[k]), 4)
    ensures Get(image, at + 12, 4) == Encode(sections[k].rva, 4)
    ensures Get(image, at + 36, 4) == Encode(sections[k].characteristics, 4)
  {
    EntryInImage(image, sections, o, k, at);
    HeaderFields(sections[k], RawSize(sections[k], o), RawPointer(sections, o, k));
    GetGet(image, at, 40, 0, 8);
    GetGet(image, at, 40, 8, 4);
    GetGet(image, at, 40, 12, 4);
    GetGet(image, at, 40, 36, 4);
  }

  /** The size in memory is the larger of the two. */
  lemma SpanRead(s: SectionImage)
    requires |s.data| < 0x1_0000_0000 && 0 <= s.virtualSize < 0x1_0000_0000
    ensures var span := Decode(Encode(VirtualSize(s), 4));
      s.virtualSize <= span && |s.data| <= span && (span == s.virtualSize || span == |s.data|)
  {
    WrapSmall(|s.data|);
    Word32(VirtualSize(s));
  }

  lemma NamedData(image: seq<byte>, sections: seq<SectionImage>, o: ImageOptions, k: nat, at: int)
    requires Small(sections, o) && k < |sections| && Buildable(sections, o) && HasParts(image, sections, o)
    requires at == 0x188 + 40 * k
    ensures NamesData(image, sections[k], o, at, HeadersSize(|sections|, o))
  {
    RawSizeExact(sections[k], o);
    TableEntry(image, sections, o, k, at);
    DescribesSection(image, sections, o, k, at);
    forall i | 0 <= i < 8
      ensures image[at + i] as int == if i < |sections[k].name| then sections[k].name[i] as int % 256 else 0 {
      assert image[at + i] == Get(image, at, 8)[i];
    }
    if 0 <= sections[k].virtualSize < 0x1_0000_0000 { SpanRead(sections[k]); }
    if sections[k].data != [] {
      StartAligned(sections, o, k);
      DataInImage(image, sections, o, k, Start(sections, o, k), RawSize(sections[k], o));
    }
  }

  /** Raw data of different sections never overlaps. */
  lemma DataDisjoint(sections: seq<SectionImage>, o: ImageOptions, j: nat, k: nat)
    requires Small(sections, o) && j < k < |sections| && sections[j].data != [] && sections[k].data != []
    ensures RawPointer(sections, o, j) + RawSize(sections[j], o) <= RawPointer(sections, o, k)
  {
    RawSizeExact(sections[j], o);
    RawSizeExact(sections[k], o);
    StartIsRawStart(sections, o, j);
    StartIsRawStart(sections, o, k);
    StartGrows(sections, o, j, k);
  }
}
