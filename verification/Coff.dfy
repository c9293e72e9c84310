/** Parsed COFF objects, as the linker receives them. */
module Coff {
  /** A byte. Multi-byte fields are little-endian. */
  newtype byte = x: int | 0 <= x < 256

  datatype Relocation = Relocation(address: int, symbol: int, kind: int)

  datatype Section = Section(
    name: string, data: seq<byte>, virtualSize: int, characteristics: int, relocations: seq<Relocation>,
    selection: int, checksum: int, associative: int, leader: string)

  datatype Symbol = Symbol(name: string, value: int, sectionNumber: int, storageClass: int, weakDefault: int)

  datatype Object = Object(sections: seq<Section>, symbols: seq<Symbol>)

  /** One section of one object. */
  datatype Ref = Ref(obj: nat, sec: nat)

  const ExternalClass := 2
  const WeakClass := 105

  const SelectNoDuplicates := 1
  const SelectAny := 2
  const SelectSameSize := 3
  const SelectExactMatch := 4
  const SelectAssociative := 5
  const SelectLargest := 6
  const SelectNewest := 7

  /** Bit `weight` (a power of two) of a 32-bit characteristics word. */
  predicate HasFlag(characteristics: int, weight: int)
    requires weight > 0
  {
    characteristics / weight % 2 == 1
  }

  predicate IsComdat(section: Section) {
    HasFlag(section.characteristics, 0x1000) || section.selection != 0
  }

  /** IMAGE_SCN_LNK_REMOVE, linker directives and CodeView records never reach the image. */
  predicate LinkerDiscarded(section: Section) {
    section.name == ".drectve" || ".debug" <= section.name || HasFlag(section.characteristics, 0x800)
  }

  function LogicalSize(section: Section): int {
    if section.virtualSize >= |section.data| then section.virtualSize else |section.data|
  }

  predicate Exists(objects: seq<Object>, r: Ref) {
    r.obj < |objects| && r.sec < |objects[r.obj].sections|
  }

  function At(objects: seq<Object>, r: Ref): Section
    requires Exists(objects, r)
  {
    objects[r.obj].sections[r.sec]
  }

  ghost predicate AllExist(objects: seq<Object>, refs: seq<Ref>) {
    forall i :: 0 <= i < |refs| ==> Exists(objects, refs[i])
  }

  ghost predicate Distinct(refs: seq<Ref>) {
    forall i, j :: 0 <= i < j < |refs| ==> refs[i] != refs[j]
  }

  // ---------- sections in input order ----------

  predicate Before(a: Ref, b: Ref) {
    a.obj < b.obj || (a.obj == b.obj && a.sec < b.sec)
  }

  /** All sections of the first `n` objects, object by object. */
  function RefsUpTo(objects: seq<Object>, n: nat): seq<Ref>
    requires n <= |objects|
  {
    if n == 0 then []
    else RefsUpTo(objects, n - 1) + seq(|objects[n - 1].sections|, i requires 0 <= i => Ref(n - 1, i))
  }

  function AllRefs(objects: seq<Object>): seq<Ref> {
    RefsUpTo(objects, |objects|)
  }

  lemma {:induction false} RefsAreSections(objects: seq<Object>, n: nat)
    requires n <= |objects|
    ensures forall r :: r in RefsUpTo(objects, n) <==> Exists(objects, r) && r.obj < n
    ensures forall i, j :: 0 <= i < j < |RefsUpTo(objects, n)| ==>
      Before(RefsUpTo(objects, n)[i], RefsUpTo(objects, n)[j])
  {
    if n > 0 {
      RefsAreSections(objects, n - 1);
      var last := seq(|objects[n - 1].sections|, i requires 0 <= i => Ref(n - 1, i));
      var before := RefsUpTo(objects, n - 1);
      forall r | Exists(objects, r) && r.obj == n - 1 ensures r in last {
        assert last[r.sec] == r;
      }
      forall i, j | 0 <= i < j < |before + last| ensures Before((before + last)[i], (before + last)[j]) {
        if i < |before| <= j { assert before[i] in before; }
      }
    }
  }

  // ---------- symbols in input order ----------

  /** Symbols of the objects before `o`, and of object `o` those before `sy`. */
  predicate Earlier(o': int, sy': int, o: int, sy: int) {
    o' < o || (o' == o && sy' < sy)
  }
}
