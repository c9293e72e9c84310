/** Where the import tables of a plan lie: end to end, each as tight as its alignment allows. */
module ImportTables {
  import opened ImportPlan

  /** The least multiple of `unit` that is not below `from`. */
  ghost predicate RoundedUp(to: int, from: int, unit: int)
    requires unit > 0
  {
    to % unit == 0 && from <= to < from + unit
  }

  /**
   Descriptors of twenty bytes with a null one behind them; behind them, eight-aligned, the lookup
   table and the address table, eight bytes per import and per terminator, one run per group.
   */
  lemma TablesTight(l: ImportLayout)
    requires LayoutOk(l)
    ensures RoundedUp(l.bases.ilt, 20 * (|l.groups| + 1), 8)
    ensures l.bases.iat == l.bases.ilt + 8 * (|l.imports| + |l.groups|)
    ensures l.bases.hint == l.bases.iat + 8 * (|l.imports| + |l.groups|)
    ensures forall g :: 0 <= g < |l.groups| ==>
      l.ilt[g] == l.bases.ilt + 8 * (l.groups[g].start + g) && l.iat[g] == l.bases.iat + 8 * (l.groups[g].start + g)
    ensures forall g, i :: 0 <= g < |l.groups| && l.groups[g].start <= i < l.groups[g].start + l.groups[g].count ==>
      i < |l.slots| && l.slots[i] == l.iat[g] + 8 * (i - l.groups[g].start)
  {
    forall g, i | 0 <= g < |l.groups| && l.groups[g].start <= i < l.groups[g].start + l.groups[g].count
      ensures i < |l.slots| && l.slots[i] == l.iat[g] + 8 * (i - l.groups[g].start) {
      assert GroupSlots(l.groups[g], g, l.slots, l.bases.iat);
    }
  }

  /** Imports `m` and `k` are imported by name, and those between them by ordinal. */
  ghost predicate NextNamed(imports: seq<Import>, m: int, k: int) {
    && 0 <= m < k < |imports| && !imports[m].byOrdinal && !imports[k].byOrdinal
    && forall i :: m < i < k ==> imports[i].byOrdinal
  }

  lemma {:induction false} OrdinalsTakeNothing(imports: seq<Import>, m: nat, k: nat)
    requires m <= k <= |imports| && forall i :: m <= i < k ==> imports[i].byOrdinal
    ensures HintStart(imports, k) == HintStart(imports, m)
    decreases k
  {
    if m < k { OrdinalsTakeNothing(imports, m, k - 1); }
  }

  lemma {:induction false} HintsEven(imports: seq<Import>, m: nat)
    requires m <= |imports|
    ensures HintStart(imports, m) % 2 == 0
  {
    if m > 0 { HintsEven(imports, m - 1); }
  }

  lemma HintStep(imports: seq<Import>, m: nat, k: nat)
    requires m < k <= |imports| && !imports[m].byOrdinal && forall i :: m < i < k ==> imports[i].byOrdinal
    ensures HintStart(imports, m) % 2 == 0
    ensures RoundedUp(HintStart(imports, k), HintStart(imports, m) + 2 + |imports[m].name| + 1, 2)
  {
    HintsEven(imports, m);
    HintsEven(imports, k);
    OrdinalsTakeNothing(imports, m + 1, k);
  }

  lemma EightsEven(p: int, q: int)
    ensures (8 * p + 8 * q + 8 * q) % 2 == 0
  {
    var half := 4 * p + 8 * q;
    assert 8 * p + 8 * q + 8 * q == 2 * half;
  }

  lemma BasesAre(imports: seq<Import>, groups: seq<Group>)
    ensures var b := BasesOf(imports, groups);
      b.hint % 2 == 0 && b.name == b.hint + HintStart(imports, |imports|)
  {
    EightsEven((20 * (|groups| + 1) + 7) / 8, |imports| + |groups|);
  }

  lemma HintBase(l: ImportLayout)
    requires LayoutOk(l)
    ensures l.bases.hint % 2 == 0 && l.bases.name == l.bases.hint + HintStart(l.imports, |l.imports|)
  {
    BasesAre(l.imports, l.groups);
  }

  lemma Shifted(base: int, to: int, from: int)
    requires base % 2 == 0 && RoundedUp(to, from, 2)
    ensures RoundedUp(base + to, base + from, 2)
  {
  }

  /** The hint of import `m` and what follows it, in a table at `base`. */
  lemma HintBehind(imports: seq<Import>, base: int, m: nat, k: nat)
    requires m < k <= |imports| && !imports[m].byOrdinal && forall i :: m < i < k ==> imports[i].byOrdinal
    requires base % 2 == 0
    ensures var at := base + HintStart(imports, m);
      at % 2 == 0 && RoundedUp(base + HintStart(imports, k), at + 2 + |imports[m].name| + 1, 2)
  {
    HintStep(imports, m, k);
    Shifted(base, HintStart(imports, k), HintStart(imports, m) + 2 + |imports[m].name| + 1);
  }

  lemma HintAt(l: ImportLayout, m: nat)
    requires LayoutOk(l) && m < |l.imports| && !l.imports[m].byOrdinal
    ensures l.hints[m] == l.bases.hint + HintStart(l.imports, m)
  {
  }

  /** A hint of two bytes, the name and a zero per import by name; the next one follows at an even offset. */
  lemma HintsTight(l: ImportLayout, m: nat, k: nat)
    requires LayoutOk(l) && NextNamed(l.imports, m, k)
    ensures l.hints[m] % 2 == 0 && RoundedUp(l.hints[k], l.hints[m] + 2 + |l.imports[m].name| + 1, 2)
  {
    HintBase(l);
    HintAt(l, m);
    HintAt(l, k);
    HintBehind(l.imports, l.bases.hint, m, k);
  }

  lemma {:induction false} NoHints(imports: seq<Import>, n: nat)
    requires n <= |imports|
    ensures HintStart(imports, n) == 0 <==> forall i :: 0 <= i < n ==> imports[i].byOrdinal
  {
    if n > 0 { NoHints(imports, n - 1); }
  }

  /** The first hint begins the hint table, and the DLL names begin where the last one ends. */
  lemma HintsBound(l: ImportLayout, m: nat)
    requires LayoutOk(l) && m < |l.imports| && !l.imports[m].byOrdinal
    ensures (forall i :: 0 <= i < m ==> l.imports[i].byOrdinal) ==> l.hints[m] == l.bases.hint
    ensures (forall i :: m < i < |l.imports| ==> l.imports[i].byOrdinal) ==>
      RoundedUp(l.bases.name, l.hints[m] + 2 + |l.imports[m].name| + 1, 2)
  {
    HintBase(l);
    HintAt(l, m);
    NoHints(l.imports, m);
    if forall i :: m < i < |l.imports| ==> l.imports[i].byOrdinal {
      HintBehind(l.imports, l.bases.hint, m, |l.imports|);
    }
  }

  /** DLL names follow one another with their zeros, and the last one ends the block. */
  lemma NamesTight(l: ImportLayout, g: nat)
    requires LayoutOk(l) && g < |l.groups|
    ensures l.names[0] == l.bases.name
    ensures l.names[g] + |l.groups[g].dll| + 1 == if g + 1 < |l.groups| then l.names[g + 1] else l.bases.total
  {
  }
}
