/**
 Rebase equivalence for the finished image: base relocations as the loader reads them from the
 written .reloc payload, and .pdata records sorted after relocation.
 */
module RebaseImage {
  import opened Basics
  import opened Coff
  import opened Bytes
  import opened Sorting
  import opened Fields
  import opened BaseRelocs
  import opened Relocate
  import opened Rebase

  // ---------- .pdata ----------

  /** The twelve-byte runtime-function records of a .pdata section. */
  function Records(data: seq<byte>): seq<seq<byte>>
  {
    if |data| < 12 then [] else [data[..12]] + Records(data[12..])
  }

  function Join(records: seq<seq<byte>>): seq<byte> {
    if records == [] then [] else records[0] + Join(records[1..])
  }

  /** The begin address a runtime-function record starts with. */
  function BeginRva(record: seq<byte>): int {
    if |record| < 4 then 0 else Decode(record[..4])
  }

  predicate RecordLess(a: seq<byte>, b: seq<byte>) {
    BeginRva(a) < BeginRva(b)
  }

  function SortedPdata(data: seq<byte>): seq<byte> {
    Join(Sort(Records(data), (a: seq<byte>, b: seq<byte>) => RecordLess(a, b)))
  }

  lemma {:induction false} RecordsCount(data: seq<byte>)
    requires |data| % 12 == 0
    ensures 12 * |Records(data)| == |data| && forall i :: 0 <= i < |Records(data)| ==> |Records(data)[i]| == 12
  {
    if |data| >= 12 { RecordsCount(data[12..]); }
  }

  lemma {:induction false} JoinLength(records: seq<seq<byte>>)
    requires forall i :: 0 <= i < |records| ==> |records[i]| == 12
    ensures |Join(records)| == 12 * |records|
  {
    if records != [] { JoinLength(records[1..]); }
  }

  lemma {:induction false} RecordsOfJoin(records: seq<seq<byte>>)
    requires forall i :: 0 <= i < |records| ==> |records[i]| == 12
    ensures Records(Join(records)) == records
  {
    if records != [] {
      RecordsOfJoin(records[1..]);
      var joined := Join(records);
      assert joined[..12] == records[0] && joined[12..] == Join(records[1..]);
    }
  }

  lemma WholeRecords(records: seq<seq<byte>>, sorted: seq<seq<byte>>)
    requires (forall i :: 0 <= i < |records| ==> |records[i]| == 12) && forall x :: x in sorted ==> x in records
    ensures forall i :: 0 <= i < |sorted| ==> |sorted[i]| == 12
  {
    forall i | 0 <= i < |sorted| ensures |sorted[i]| == 12 {
      assert sorted[i] in sorted;
      var k :| 0 <= k < |records| && records[k] == sorted[i];
    }
  }

  /** Sorting by begin address permutes whole records and keeps the section size. */
  lemma SortedPdataKeeps(data: seq<byte>)
    requires |data| % 12 == 0
    ensures |SortedPdata(data)| == |data| && multiset(Records(SortedPdata(data))) == multiset(Records(data))
    ensures var r := Records(SortedPdata(data)); forall i, j :: 0 <= i < j < |r| ==> BeginRva(r[i]) <= BeginRva(r[j])
  {
    var less := (a: seq<byte>, b: seq<byte>) => RecordLess(a, b);
    SortIsSorted(Records(data), less);
    SortMembers(Records(data), less);
    RecordsCount(data);
    var sorted := Sort(Records(data), less);
    WholeRecords(Records(data), sorted);
    JoinLength(sorted);
    RecordsOfJoin(sorted);
    forall i, j | 0 <= i < j < |sorted| ensures BeginRva(sorted[i]) <= BeginRva(sorted[j]) {
      assert !less(sorted[j], sorted[i]);
    }
  }

  lemma {:induction false} RecordAt(data: seq<byte>, k: nat, at: nat)
    requires at == 12 * k && at + 12 <= |data|
    ensures k < |Records(data)| && Records(data)[k] == data[at..at + 12]
    decreases k
  {
    if k > 0 {
      RecordAt(data[12..], k - 1, at - 12);
      assert data[12..][at - 12..at] == data[at..at + 12];
    }
  }

  /** The begin address of the record at `at`: its first four bytes, least significant first. */
  function BeginAt(data: seq<byte>, at: nat): int
    requires at + 4 <= |data|
  {
    data[at] as int + 0x100 * data[at + 1] as int + 0x1_0000 * data[at + 2] as int + 0x100_0000 * data[at + 3] as int
  }

  lemma FourBytes(s: seq<byte>)
    requires |s| == 4
    ensures Decode(s) == BeginAt(s, 0)
  {
    var one, two, three := s[1..], s[1..][1..], s[1..][1..][1..];
    assert Decode(three[1..]) == 0;
    assert Decode(s) == s[0] as int + 256 * Decode(one);
    assert Decode(one) == one[0] as int + 256 * Decode(two);
    assert Decode(two) == two[0] as int + 256 * Decode(three);
  }

  lemma BeginOf(data: seq<byte>, k: nat, at: nat)
    requires at == 12 * k && at + 12 <= |data|
    ensures k < |Records(data)| && BeginRva(Records(data)[k]) == BeginAt(data, at)
  {
    RecordAt(data, k, at);
    FourBytes(data[at..at + 12][..4]);
  }

  /** Two records of the sorted table, in the order of their begin addresses. */
  lemma PdataAscends(data: seq<byte>, i: nat, j: nat, first: nat, second: nat)
    requires |data| % 12 == 0 && i < j && first == 12 * i && second == 12 * j && second + 12 <= |data|
    ensures |SortedPdata(data)| == |data| && BeginAt(SortedPdata(data), first) <= BeginAt(SortedPdata(data), second)
  {
    SortedPdataKeeps(data);
    BeginOf(SortedPdata(data), i, first);
    BeginOf(SortedPdata(data), j, second);
  }

  /** What link does after relocation; `pdata` is the index of the .pdata output, if there is one. */
  function FinishPdata(d: Sections, pdata: Option<nat>): Result<Sections> {
    if pdata.None? || pdata.value >= |d| then Ok(d)
    else if |d[pdata.value]| % 12 != 0 then Err("malformed AMD64 .pdata section size")
    else Ok(d[pdata.value := SortedPdata(d[pdata.value])])
  }

  /** The base relocations replace the bytes of output `reloc`. */
  function WithPayload(d: Sections, reloc: Option<nat>, payload: seq<byte>): Sections {
    if payload == [] || reloc.None? || reloc.value >= |d| then d else d[reloc.value := payload]
  }

  /** Relocation, then the base-relocation payload, then the order of .pdata. */
  ghost function Linked(d: Sections, rvas: seq<int>, base: int, fixes: seq<Fix>, reloc: Option<nat>,
          pdata: Option<nat>): Result<Sections>
    requires AllFixOk(rvas, fixes)
  {
    match Relocated(d, rvas, base, fixes)
    case Err(m) => Err(m)
    case Ok(r) => FinishPdata(WithPayload(r, reloc, RelocSection(Emitted(rvas, fixes))), pdata)
  }

  // ---------- relocations leave .pdata alone ----------

  /** No field of `section` moves with the base. */
  ghost predicate BaseFree(fixes: seq<Fix>, section: nat) {
    forall k :: 0 <= k < |fixes| && fixes[k].section == section ==>
      !NeedsBaseReloc(fixes[k]) && !BaseDependent(fixes[k])
  }

  /** A section that no relocation names keeps its bytes, and does not influence the others, whatever its length. */
  lemma {:induction false} RebasedFrame(d: Sections, rvas: seq<int>, delta: int, relocs: seq<BaseReloc>,
          moved: Sections, section: nat, bytes: seq<byte>)
    requires Mapped(d, rvas) && section < |d| && Mapped(d[section := bytes], rvas)
    requires Rebased(d, rvas, delta, relocs) == Ok(moved)
    requires forall i :: 0 <= i < |relocs| ==> SectionAt(d, rvas, relocs[i].rva) != Some(section)
    ensures |moved| == |d| && moved[section] == d[section]
    ensures Rebased(d[section := bytes], rvas, delta, relocs) == Ok(moved[section := bytes])
    decreases |relocs|
  {
    if relocs != [] {
      var p := LoaderPatch(d, rvas, delta, relocs[0]).value;
      FrameStep(d, rvas, delta, relocs[0], section, bytes);
      var d1 := Apply(d, p);
      forall i | 0 <= i < |relocs| - 1 ensures SectionAt(d1, rvas, relocs[1..][i].rva) != Some(section) {
        SameSection(d, d1, rvas, relocs[i + 1].rva, 0);
      }
      RebasedFrame(d1, rvas, delta, relocs[1..], moved, section, bytes);
    }
  }

  lemma FrameStep(d: Sections, rvas: seq<int>, delta: int, r: BaseReloc, section: nat, bytes: seq<byte>)
    requires Mapped(d, rvas) && section < |d| && Mapped(d[section := bytes], rvas) && LoaderPatch(d, rvas, delta, r).Ok?
    requires SectionAt(d, rvas, r.rva) != Some(section)
    ensures LoaderPatch(d[section := bytes], rvas, delta, r) == LoaderPatch(d, rvas, delta, r)
    ensures var p := LoaderPatch(d, rvas, delta, r).value;
      p.section != section && Fits(d[section := bytes], p)
        && Apply(d[section := bytes], p) == Apply(d, p)[section := bytes]
  {
    OtherSection(d, rvas, r.rva, section, bytes);
  }

  /** Where an RVA is found does not depend on another section. */
  lemma OtherSection(d: Sections, rvas: seq<int>, rva: int, section: nat, bytes: seq<byte>)
    requires Mapped(d, rvas) && section < |d| && Mapped(d[section := bytes], rvas)
    requires SectionAt(d, rvas, rva).Some? && SectionAt(d, rvas, rva) != Some(section)
    ensures SectionAt(d[section := bytes], rvas, rva) == SectionAt(d, rvas, rva)
  {
    var k := SectionAt(d, rvas, rva).value;
    SectionFound(d[section := bytes], rvas, k, rva - rvas[k], 0);
  }

  lemma {:induction false} SameSection(d: Sections, d': Sections, rvas: seq<int>, rva: int, from: nat)
    requires |d| == |rvas| && SameShape(d, d') && from <= |d|
    ensures FindSection(d, rvas, rva, from) == FindSection(d', rvas, rva, from)
    decreases |d| - from
  {
    if from < |d| { SameSection(d, d', rvas, rva, from + 1); }
  }

  /** All relocations lie in sections other than this one. */
  ghost predicate Elsewhere(d: Sections, rvas: seq<int>, relocs: seq<BaseReloc>, section: nat)
    requires |d| == |rvas|
  {
    forall i :: 0 <= i < |relocs| ==>
      SectionAt(d, rvas, relocs[i].rva).Some? && SectionAt(d, rvas, relocs[i].rva) != Some(section)
  }

  lemma RelocsElsewhere(d: Sections, rvas: seq<int>, fixes: seq<Fix>, relocs: seq<BaseReloc>, section: nat)
    requires Mapped(d, rvas) && AllFixOk(rvas, fixes) && AllInBounds(d, fixes) && BaseFree(fixes, section)
    requires forall e :: e in relocs ==> e in Emitted(rvas, fixes)
    ensures Elsewhere(d, rvas, relocs, section)
  {
    forall i | 0 <= i < |relocs|
      ensures SectionAt(d, rvas, relocs[i].rva).Some? && SectionAt(d, rvas, relocs[i].rva) != Some(section) {
      EmittedFrom(rvas, fixes, relocs[i]);
      var k :| 0 <= k < |fixes| && NeedsBaseReloc(fixes[k]) && BaseRelocOf(rvas, fixes[k]) == relocs[i];
      FixSection(d, rvas, fixes[k]);
    }
  }

  lemma FixSection(d: Sections, rvas: seq<int>, fix: Fix)
    requires Mapped(d, rvas) && InBounds(d, fix.section, fix.offset, Width(fix.kind))
    ensures SectionAt(d, rvas, BaseRelocOf(rvas, fix).rva) == Some(fix.section)
  {
    SectionFound(d, rvas, fix.section, fix.offset, 0);
    assert PlaceRva(rvas, fix) % 0x1_0000_0000 == PlaceRva(rvas, fix);
  }

  /** Two links of a base-free section give the same bytes. */
  lemma BaseFreeSame(d: Sections, rvas: seq<int>, base: int, base': int, fixes: seq<Fix>, section: nat)
    requires AllFixOk(rvas, fixes) && FieldsDisjoint(fixes) && BaseFree(fixes, section) && section < |d|
    requires AllPatch(d, rvas, base, fixes) && AllPatch(d, rvas, base', fixes)
    ensures ApplyAll(d, Patches(d, rvas, base, fixes))[section] == ApplyAll(d, Patches(d, rvas, base', fixes))[section]
  {
    var ps, ps' := Patches(d, rvas, base, fixes), Patches(d, rvas, base', fixes);
    PatchesDisjoint(d, rvas, base, fixes);
    PatchesDisjoint(d, rvas, base', fixes);
    forall k | 0 <= k < |fixes| && fixes[k].section == section ensures ps[k] == ps'[k] {
      BaseFreePatch(d, rvas, base, base', fixes[k]);
    }
    SectionSame(d, ps, ps', section);
  }

  lemma BaseFreePatch(d: Sections, rvas: seq<int>, base: int, base': int, fix: Fix)
    requires FixOk(rvas, fix) && PatchOf(d, rvas, base, fix).Ok? && PatchOf(d, rvas, base', fix).Ok?
    requires !NeedsBaseReloc(fix) && !BaseDependent(fix)
    ensures PatchOf(d, rvas, base, fix) == PatchOf(d, rvas, base', fix)
  {
    FieldAgrees(d, rvas, base, base', fix);
  }

  /** Patches that agree in one section leave the same bytes there. */
  lemma SectionSame(d: Sections, ps: seq<Patch>, ps': seq<Patch>, section: nat)
    requires |ps| == |ps'| && AllFit(d, ps) && AllFit(d, ps') && Disjoint(ps) && Disjoint(ps') && section < |d|
    requires forall k :: 0 <= k < |ps| ==>
      ps[k].section == ps'[k].section && (ps[k].section == section ==> ps[k] == ps'[k])
    ensures ApplyAll(d, ps)[section] == ApplyAll(d, ps')[section]
  {
    var r, r' := ApplyAll(d, ps), ApplyAll(d, ps');
    forall i | 0 <= i < |d[section]| ensures r[section][i] == r'[section][i] { ByteSame(d, ps, ps', section, i); }
  }

  lemma ByteSame(d: Sections, ps: seq<Patch>, ps': seq<Patch>, section: nat, i: int)
    requires |ps| == |ps'| && AllFit(d, ps) && AllFit(d, ps') && Disjoint(ps) && Disjoint(ps') && section < |d|
    requires 0 <= i < |d[section]|
    requires forall k :: 0 <= k < |ps| ==>
      ps[k].section == ps'[k].section && (ps[k].section == section ==> ps[k] == ps'[k])
    ensures ApplyAll(d, ps)[section][i] == ApplyAll(d, ps')[section][i]
  {
    if k :| 0 <= k < |ps| && Covers(ps[k], section, i) {
      Hit(d, ps, k, i);
      Hit(d, ps', k, i);
    } else {
      Missed(d, ps, section, i);
      Missed(d, ps', section, i);
    }
  }

  // ---------- the finished image ----------

  /** The loader's view of the .reloc payload that the linker wrote for these fixes. */
  ghost function LoadedRelocs(rvas: seq<int>, fixes: seq<Fix>): Option<seq<BaseReloc>>
    requires AllFixOk(rvas, fixes)
  {
    LoaderReads(RelocSection(Emitted(rvas, fixes)))
  }

  lemma {:induction false} EmittedEncodable(rvas: seq<int>, fixes: seq<Fix>)
    requires AllFixOk(rvas, fixes)
    ensures AllEncodable(Emitted(rvas, fixes)) && |Emitted(rvas, fixes)| <= |fixes|
  {
    if fixes != [] { EmittedEncodable(rvas, fixes[..|fixes| - 1]); }
  }

  lemma LoadedIsEmitted(rvas: seq<int>, fixes: seq<Fix>)
    requires AllFixOk(rvas, fixes) && 12 * |Emitted(rvas, fixes)| < 0x1_0000_0000
    ensures LoadedRelocs(rvas, fixes).Some?
    ensures multiset(LoadedRelocs(rvas, fixes).value) == multiset(Emitted(rvas, fixes))
  {
    EmittedEncodable(rvas, fixes);
    RelocSectionRoundTrip(Emitted(rvas, fixes));
  }

  /** What link counts to size .reloc before it knows any target: every ADDR64 and ADDR32. */
  ghost function AbsoluteCount(fixes: seq<Fix>): nat {
    if fixes == [] then 0
    else
      AbsoluteCount(fixes[..|fixes| - 1]) + if fixes[|fixes| - 1].kind == RelAddr64
        || fixes[|fixes| - 1].kind == RelAddr32 then 1 else 0
  }

  lemma {:induction false} EmittedCount(rvas: seq<int>, fixes: seq<Fix>)
    requires AllFixOk(rvas, fixes)
    ensures |Emitted(rvas, fixes)| <= AbsoluteCount(fixes)
  {
    if fixes != [] { EmittedCount(rvas, fixes[..|fixes| - 1]); }
  }

  /** Twelve bytes per counted relocation are enough for the payload. */
  lemma PayloadInReserve(rvas: seq<int>, fixes: seq<Fix>)
    requires AllFixOk(rvas, fixes) && 12 * AbsoluteCount(fixes) < 0x1_0000_0000
    ensures |RelocSection(Emitted(rvas, fixes))| <= 12 * AbsoluteCount(fixes)
  {
    EmittedCount(rvas, fixes);
    EmittedEncodable(rvas, fixes);
    RelocSectionRoundTrip(Emitted(rvas, fixes));
  }

  /** The output, if there is one, carries no field that moves with the base. */
  ghost predicate OutputBaseFree(fixes: seq<Fix>, output: Option<nat>) {
    output.Some? ==> BaseFree(fixes, output.value)
  }

  /** Replacing one section on both sides, where they agree, changes nothing about whether they agree. */
  lemma ReplacedAgree(d: Sections, d': Sections, p: nat, bytes: seq<byte>)
    requires |d| == |d'| && p < |d| && d[p] == d'[p]
    ensures d[p := bytes] == d'[p := bytes] <==> d == d'
  {
    if d[p := bytes] == d'[p := bytes] {
      forall k | 0 <= k < |d| ensures d[k] == d'[k] {
        if k != p { assert d[p := bytes][k] == d'[p := bytes][k]; }
      }
    }
  }

  /** Both links agree in this output, and the loader does not touch it. */
  ghost predicate Sides(linked: Sections, target: Sections, rvas: seq<int>, relocs: seq<BaseReloc>,
          output: Option<nat>) {
    && |linked| == |rvas| == |target|
    && (output.Some? && output.value < |linked| ==>
         linked[output.value] == target[output.value] && Elsewhere(linked, rvas, relocs, output.value))
  }

  /** An image, what the loader makes of it, and the image to compare that with. */
  ghost predicate Moves(linked: Sections, rvas: seq<int>, delta: int, relocs: seq<BaseReloc>, moved: Sections) {
    Mapped(linked, rvas) && Rebased(linked, rvas, delta, relocs) == Ok(moved)
  }

  /** Replacing an output on both sides changes nothing about whether the moved image and the target agree. */
  lemma Exchange(linked: Sections, target: Sections, moved: Sections, rvas: seq<int>, delta: int,
          relocs: seq<BaseReloc>, p: nat, bytes: seq<byte>)
    requires Moves(linked, rvas, delta, relocs, moved) && Sides(linked, target, rvas, relocs, Some(p)) && p < |linked|
    requires Mapped(linked[p := bytes], rvas)
    ensures |moved| == |linked| && Moves(linked[p := bytes], rvas, delta, relocs, moved[p := bytes])
    ensures moved[p := bytes] == target[p := bytes] <==> moved == target
  {
    RebasedFrame(linked, rvas, delta, relocs, moved, p, bytes);
    ReplacedAgree(moved, target, p, bytes);
  }

  /** The other outputs stay as they are. */
  lemma SidesKept(linked: Sections, target: Sections, rvas: seq<int>, relocs: seq<BaseReloc>, p: nat, bytes: seq<byte>,
          output: Option<nat>)
    requires p < |linked| && Mapped(linked, rvas) && Mapped(linked[p := bytes], rvas)
    requires Sides(linked, target, rvas, relocs, Some(p)) && Sides(linked, target, rvas, relocs, output)
    ensures Sides(linked[p := bytes], target[p := bytes], rvas, relocs, output)
  {
    if output.Some? && output.value < |linked| {
      forall i | 0 <= i < |relocs|
        ensures SectionAt(linked[p := bytes], rvas, relocs[i].rva) == SectionAt(linked, rvas, relocs[i].rva) {
        OtherSection(linked, rvas, relocs[i].rva, p, bytes);
      }
    }
  }

  lemma PayloadAgrees(linked: Sections, target: Sections, moved: Sections, rvas: seq<int>, delta: int,
          relocs: seq<BaseReloc>, reloc: Option<nat>, payload: seq<byte>, output: Option<nat>)
    returns (moved': Sections)
    requires Moves(linked, rvas, delta, relocs, moved) && Sides(linked, target, rvas, relocs, reloc)
    requires Sides(linked, target, rvas, relocs, output)
    requires Mapped(WithPayload(linked, reloc, payload), rvas)
    ensures Moves(WithPayload(linked, reloc, payload), rvas, delta, relocs, moved')
    ensures Sides(WithPayload(linked, reloc, payload), WithPayload(target, reloc, payload), rvas, relocs, output)
    ensures moved' == WithPayload(target, reloc, payload) <==> moved == target
  {
    moved' := moved;
    if payload != [] && reloc.Some? && reloc.value < |linked| {
      Exchange(linked, target, moved, rvas, delta, relocs, reloc.value, payload);
      SidesKept(linked, target, rvas, relocs, reloc.value, payload, output);
      moved' := moved[reloc.value := payload];
    }
  }

  /** Sorting .pdata on both sides changes nothing about whether the moved image and the target agree. */
  lemma FinishedAgree(linked: Sections, target: Sections, moved: Sections, image: Sections, image': Sections,
          rvas: seq<int>, delta: int, relocs: seq<BaseReloc>, pdata: Option<nat>)
    returns (final: Sections)
    requires Moves(linked, rvas, delta, relocs, moved) && Sides(linked, target, rvas, relocs, pdata)
    requires FinishPdata(linked, pdata) == Ok(image) && FinishPdata(target, pdata) == Ok(image')
    ensures |image| == |rvas| && Rebased(image, rvas, delta, relocs) == Ok(final)
    ensures final == image' <==> moved == target
  {
    final := moved;
    if pdata.Some? && pdata.value < |linked| {
      var p, bytes := pdata.value, SortedPdata(linked[pdata.value]);
      SortedPdataKeeps(linked[p]);
      Exchange(linked, target, moved, rvas, delta, relocs, p, bytes);
      final := moved[p := bytes];
    }
  }

  /**
   The finished image: linked at `base`, then moved by the loader with the relocations it decodes
   from the .reloc payload in the image, against linked at `base'`. The .pdata output carries no
   field that moves with the base, because its records are reordered after relocation, and neither
   does the output whose bytes the payload replaces.
   */
  lemma ImageRebase(d: Sections, rvas: seq<int>, base: int, base': int, delta: int, basesAgree: bool, fixes: seq<Fix>,
          reloc: Option<nat>, pdata: Option<nat>, image: Sections, image': Sections)
    returns (final: Sections)
    requires Mapped(d, rvas) && AllFixOk(rvas, fixes) && FieldsDisjoint(fixes) && OutputBaseFree(fixes, reloc)
    requires OutputBaseFree(fixes, pdata)
    requires Linked(d, rvas, base, fixes, reloc, pdata) == Ok(image)
    requires Linked(d, rvas, base', fixes, reloc, pdata) == Ok(image')
    requires 12 * |Emitted(rvas, fixes)| < 0x1_0000_0000
    requires Mapped(WithPayload(d, reloc, RelocSection(Emitted(rvas, fixes))), rvas)
    requires delta == base' - base && (basesAgree <==> base % 0x1_0000_0000 == base' % 0x1_0000_0000)
    ensures LoadedRelocs(rvas, fixes).Some? && |image| == |rvas|
    ensures Rebased(image, rvas, delta, LoadedRelocs(rvas, fixes).value) == Ok(final)
    ensures final == image' <==> (HasBaseDependent(fixes) ==> basesAgree)
  {
    LoadedIsEmitted(rvas, fixes);
    var relocs, payload := LoadedRelocs(rvas, fixes).value, RelocSection(Emitted(rvas, fixes));
    var linked, target := Relocated(d, rvas, base, fixes).value, Relocated(d, rvas, base', fixes).value;
    final := ImageMoved(d, rvas, base, base', delta, basesAgree, fixes, reloc, pdata, relocs, payload, linked, target,
      image, image');
  }

  lemma ImageMoved(d: Sections, rvas: seq<int>, base: int, base': int, delta: int, basesAgree: bool, fixes: seq<Fix>,
          reloc: Option<nat>, pdata: Option<nat>, relocs: seq<BaseReloc>, payload: seq<byte>, linked: Sections,
          target: Sections, image: Sections, image': Sections)
    returns (final: Sections)
    requires Mapped(d, rvas) && AllFixOk(rvas, fixes) && FieldsDisjoint(fixes) && OutputBaseFree(fixes, reloc)
    requires OutputBaseFree(fixes, pdata)
    requires Relocated(d, rvas, base, fixes) == Ok(linked) && Relocated(d, rvas, base', fixes) == Ok(target)
    requires Mapped(WithPayload(d, reloc, payload), rvas) && multiset(relocs) == multiset(Emitted(rvas, fixes))
    requires FinishPdata(WithPayload(linked, reloc, payload), pdata) == Ok(image)
    requires FinishPdata(WithPayload(target, reloc, payload), pdata) == Ok(image')
    requires delta == base' - base && (basesAgree <==> base % 0x1_0000_0000 == base' % 0x1_0000_0000)
    ensures |image| == |rvas| && Rebased(image, rvas, delta, relocs) == Ok(final)
    ensures final == image' <==> (HasBaseDependent(fixes) ==> basesAgree)
  {
    var agrees := HasBaseDependent(fixes) ==> basesAgree;
    var moved := RebaseEquivalence(d, rvas, base, base', delta, basesAgree, fixes, relocs, linked, target);
    ShapeMapped(d, linked, rvas, reloc, payload);
    BothSides(d, rvas, base, base', fixes, relocs, reloc, linked, target);
    BothSides(d, rvas, base, base', fixes, relocs, pdata, linked, target);
    final := SidesMoved(linked, target, moved, rvas, delta, relocs, reloc, payload, pdata, image, image', agrees);
  }

  lemma SidesMoved(linked: Sections, target: Sections, moved: Sections, rvas: seq<int>, delta: int,
          relocs: seq<BaseReloc>, reloc: Option<nat>, payload: seq<byte>, pdata: Option<nat>, image: Sections,
          image': Sections, agrees: bool)
    returns (final: Sections)
    requires moved == target <==> agrees
    requires Moves(linked, rvas, delta, relocs, moved) && Sides(linked, target, rvas, relocs, reloc)
    requires Sides(linked, target, rvas, relocs, pdata)
    requires Mapped(WithPayload(linked, reloc, payload), rvas)
    requires FinishPdata(WithPayload(linked, reloc, payload), pdata) == Ok(image)
    requires FinishPdata(WithPayload(target, reloc, payload), pdata) == Ok(image')
    ensures |image| == |rvas| && Rebased(image, rvas, delta, relocs) == Ok(final)
    ensures final == image' <==> agrees
  {
    var a, b := WithPayload(linked, reloc, payload), WithPayload(target, reloc, payload);
    var moved' := PayloadAgrees(linked, target, moved, rvas, delta, relocs, reloc, payload, pdata);
    final := FinishedAgree(a, b, moved', image, image', rvas, delta, relocs, pdata);
  }

  lemma ShapeMapped(d: Sections, linked: Sections, rvas: seq<int>, reloc: Option<nat>, payload: seq<byte>)
    requires SameShape(d, linked) && Mapped(d, rvas) && Mapped(WithPayload(d, reloc, payload), rvas)
    ensures Mapped(linked, rvas) && Mapped(WithPayload(linked, reloc, payload), rvas)
  {
    var a, b := WithPayload(d, reloc, payload), WithPayload(linked, reloc, payload);
    assert forall k :: 0 <= k < |a| ==> |b[k]| == |a[k]|;
  }

  lemma BothSides(d: Sections, rvas: seq<int>, base: int, base': int, fixes: seq<Fix>, relocs: seq<BaseReloc>,
          output: Option<nat>, linked: Sections, target: Sections)
    requires Mapped(d, rvas) && AllFixOk(rvas, fixes) && FieldsDisjoint(fixes) && OutputBaseFree(fixes, output)
    requires Relocated(d, rvas, base, fixes) == Ok(linked) && Relocated(d, rvas, base', fixes) == Ok(target)
    requires multiset(relocs) == multiset(Emitted(rvas, fixes))
    ensures SameShape(d, linked) && SameShape(linked, target) && Sides(linked, target, rvas, relocs, output)
  {
    RelocatedIsPatched(d, rvas, base, fixes);
    RelocatedIsPatched(d, rvas, base', fixes);
    FixesInBounds(d, rvas, base, fixes);
    ListedOnce(d, rvas, fixes, relocs);
    if output.Some? && output.value < |d| {
      BaseFreeSame(d, rvas, base, base', fixes, output.value);
      RelocsElsewhere(linked, rvas, fixes, relocs, output.value);
    }
  }
}
