/** Planning the import directory (plan_imports): order, groups and table offsets. */
module ImportPlan {
  import opened Sorting

  /** One imported symbol. `hint` is the hint, or the ordinal when imported by ordinal. */
  datatype Import = Import(dll: string, symbol: string, name: string, byOrdinal: bool, hint: int, isCode: bool)

  /** The imports `start .. start + count` all come from `dll`. */
  datatype Group = Group(dll: string, start: nat, count: nat)

  function Lower(s: string): string {
    seq(|s|, i requires 0 <= i < |s| => if 'A' <= s[i] <= 'Z' then s[i] - 'A' + 'a' else s[i])
  }

  /** Equal but for the case of the letters A to Z. */
  predicate SameLetter(a: char, b: char) {
    || a == b
    || ('A' <= a <= 'Z' && b as int == a as int + 32)
    || ('A' <= b <= 'Z' && a as int == b as int + 32)
  }

  /** Two spellings of one DLL name. */
  predicate SameDll(a: string, b: string) {
    |a| == |b| && forall i :: 0 <= i < |a| ==> SameLetter(a[i], b[i])
  }

  /** Names are compared in the spelling that has no capital letters. */
  lemma LowerIsSpelling(s: string)
    ensures SameDll(s, Lower(s)) && forall i :: 0 <= i < |Lower(s)| ==> !('A' <= Lower(s)[i] <= 'Z')
  {
  }

  lemma LowerMeansSame(a: string, b: string)
    ensures Lower(a) == Lower(b) <==> SameDll(a, b)
  {
    if Lower(a) == Lower(b) {
      forall i | 0 <= i < |a| ensures |a| == |b| && SameLetter(a[i], b[i]) {
        assert |Lower(a)| == |a| && |Lower(b)| == |b| && Lower(a)[i] == Lower(b)[i];
      }
      assert |Lower(a)| == |a| && |Lower(b)| == |b|;
    }
  }

  predicate ImportLess(a: Import, b: Import) {
    if Lower(a.dll) != Lower(b.dll) then StringLess(Lower(a.dll), Lower(b.dll)) else StringLess(a.symbol, b.symbol)
  }

  function SortImports(imports: seq<Import>): seq<Import> {
    Sort(imports, (a: Import, b: Import) => ImportLess(a, b))
  }

  lemma ImportOrder()
    ensures StrictWeak((a: Import, b: Import) => ImportLess(a, b))
  {
    var less := (a: Import, b: Import) => ImportLess(a, b);
    forall a, b | less(a, b) ensures !less(b, a) {
      StringLessTotal(Lower(a.dll), Lower(b.dll));
      StringLessTotal(a.symbol, b.symbol);
    }
    forall a, b, c | !less(a, b) && !less(b, c) ensures !less(a, c) {
      StringLessWeak(Lower(a.dll), Lower(b.dll), Lower(c.dll));
      StringLessTotal(Lower(a.dll), Lower(b.dll));
      StringLessTotal(Lower(b.dll), Lower(c.dll));
      StringLessTotal(Lower(a.dll), Lower(c.dll));
      StringLessWeak(a.symbol, b.symbol, c.symbol);
    }
  }

  // ---------- groups ----------

  /** The groups cut the first `n` imports into runs of one DLL, whatever the case of its name. */
  ghost predicate Grouped(imports: seq<Import>, groups: seq<Group>, n: nat) {
    && n <= |imports|
    && (groups == [] <==> n == 0)
    && (groups != [] ==> groups[0].start == 0 && groups[|groups| - 1].start + groups[|groups| - 1].count == n)
    && (forall g :: 0 <= g < |groups| ==> GroupOk(imports, groups[g], n))
    && (forall g :: 0 <= g < |groups| - 1 ==>
         groups[g].start + groups[g].count == groups[g + 1].start && Lower(groups[g].dll) != Lower(groups[g + 1].dll))
  }

  ghost predicate GroupOk(imports: seq<Import>, group: Group, n: nat) {
    && 1 <= group.count && group.start + group.count <= n <= |imports|
    && group.dll == imports[group.start].dll
    && forall i :: group.start <= i < group.start + group.count ==> Lower(imports[i].dll) == Lower(group.dll)
  }

  lemma OpenGroup(imports: seq<Import>, groups: seq<Group>, i: nat)
    requires Grouped(imports, groups, i) && i < |imports|
    requires groups == [] || Lower(groups[|groups| - 1].dll) != Lower(imports[i].dll)
    ensures Grouped(imports, groups + [Group(imports[i].dll, i, 1)], i + 1)
  {
    assert forall g :: 0 <= g < |groups| ==> GroupOk(imports, groups[g], i) ==> GroupOk(imports, groups[g], i + 1);
  }

  lemma ExtendGroup(imports: seq<Import>, groups: seq<Group>, i: nat)
    requires Grouped(imports, groups, i) && i < |imports|
    requires groups != [] && Lower(groups[|groups| - 1].dll) == Lower(imports[i].dll)
    ensures var last := groups[|groups| - 1];
      Grouped(imports, groups[|groups| - 1 := last.(count := last.count + 1)], i + 1)
  {
    assert forall g :: 0 <= g < |groups| ==> GroupOk(imports, groups[g], i) ==> GroupOk(imports, groups[g], i + 1);
  }

  method GroupByDll(imports: seq<Import>) returns (groups: seq<Group>)
    ensures Grouped(imports, groups, |imports|)
  {
    groups := [];
    for i := 0 to |imports|
      invariant Grouped(imports, groups, i)
    {
      if groups == [] || Lower(groups[|groups| - 1].dll) != Lower(imports[i].dll) {
        OpenGroup(imports, groups, i);
        groups := groups + [Group(imports[i].dll, i, 1)];
      } else {
        ExtendGroup(imports, groups, i);
        var last := groups[|groups| - 1];
        groups := groups[|groups| - 1 := last.(count := last.count + 1)];
      }
    }
  }

  /** In sorted imports the group names strictly increase, so each DLL has one group. */
  lemma {:induction false} GroupsIncrease(imports: seq<Import>, groups: seq<Group>, g: nat, h: nat)
    requires Grouped(imports, groups, |imports|) && g < h < |groups|
    requires forall i, j :: 0 <= i < j < |imports| ==> !ImportLess(imports[j], imports[i])
    ensures StringLess(Lower(groups[g].dll), Lower(groups[h].dll)) && !SameDll(groups[g].dll, groups[h].dll)
    decreases h - g
  {
    LowerMeansSame(groups[g].dll, groups[h].dll);
    if h == g + 1 {
      assert GroupOk(imports, groups[g], |imports|) && GroupOk(imports, groups[h], |imports|);
      assert !ImportLess(imports[groups[h].start], imports[groups[g].start]);
      StringLessTotal(Lower(groups[g].dll), Lower(groups[h].dll));
    } else {
      GroupsIncrease(imports, groups, g, h - 1);
      GroupsIncrease(imports, groups, h - 1, h);
      StringLessTransitive(Lower(groups[g].dll), Lower(groups[h - 1].dll), Lower(groups[h].dll));
      StringLessTotal(Lower(groups[g].dll), Lower(groups[h].dll));
    }
  }

  /** Import `i` belongs to group `g`. */
  predicate BelongsTo(groups: seq<Group>, g: int, i: int) {
    0 <= g < |groups| && groups[g].start <= i < groups[g].start + groups[g].count
  }

  ghost predicate HasGroup(groups: seq<Group>, i: int) {
    exists g :: BelongsTo(groups, g, i)
  }

  /** Two imports share a group exactly when their DLL names agree but for case, and every import has one. */
  ghost predicate GroupedByDll(imports: seq<Import>, groups: seq<Group>) {
    && (forall i :: 0 <= i < |imports| ==> HasGroup(groups, i))
    && (forall g, h, i, j :: BelongsTo(groups, g, i) && BelongsTo(groups, h, j) ==>
          i < |imports| && j < |imports| && (g == h <==> SameDll(imports[i].dll, imports[j].dll)))
  }

  /** Groups follow one another, so every import before the end is in one. */
  lemma {:induction false} Covered(imports: seq<Import>, groups: seq<Group>, n: nat, g: nat, i: nat) returns (h: nat)
    requires Grouped(imports, groups, n) && g < |groups| && groups[g].start <= i < n
    ensures BelongsTo(groups, h, i)
    decreases |groups| - g
  {
    assert GroupOk(imports, groups[g], n);
    if i < groups[g].start + groups[g].count { h := g; } else { h := Covered(imports, groups, n, g + 1, i); }
  }

  lemma SharedGroup(imports: seq<Import>, groups: seq<Group>, g: int, h: int, i: int, j: int)
    requires Grouped(imports, groups, |imports|) && BelongsTo(groups, g, i) && BelongsTo(groups, h, j)
    requires forall x, y :: 0 <= x < y < |groups| ==> !SameDll(groups[x].dll, groups[y].dll)
    ensures i < |imports| && j < |imports| && (g == h <==> SameDll(imports[i].dll, imports[j].dll))
  {
    assert GroupOk(imports, groups[g], |imports|) && GroupOk(imports, groups[h], |imports|);
    LowerMeansSame(imports[i].dll, imports[j].dll);
    LowerMeansSame(groups[g].dll, groups[h].dll);
    LowerMeansSame(groups[h].dll, groups[g].dll);
  }

  lemma SharedGroups(imports: seq<Import>, groups: seq<Group>)
    requires Grouped(imports, groups, |imports|)
    requires forall x, y :: 0 <= x < y < |groups| ==> !SameDll(groups[x].dll, groups[y].dll)
    ensures GroupedByDll(imports, groups)
  {
    forall i | 0 <= i < |imports| ensures HasGroup(groups, i) {
      var g := Covered(imports, groups, |imports|, 0, i);
    }
    forall g, h, i, j | BelongsTo(groups, g, i) && BelongsTo(groups, h, j)
      ensures i < |imports| && j < |imports| && (g == h <==> SameDll(imports[i].dll, imports[j].dll)) {
      SharedGroup(imports, groups, g, h, i, j);
    }
  }

  // ---------- table offsets ----------

  function Even(n: int): int {
    if n % 2 == 0 then n else n + 1
  }

  function Eight(n: int): int {
    (n + 7) / 8 * 8
  }

  /** A hint, the name and its terminator, padded to an even size; nothing for an import by ordinal. */
  function HintSize(i: Import): nat {
    if i.byOrdinal then 0 else Even(|i.name| + 3)
  }

  /** Where the hint/name entry of import `m` starts in its table. */
  function HintStart(imports: seq<Import>, m: nat): nat
    requires m <= |imports|
  {
    if m == 0 then 0 else HintStart(imports, m - 1) + HintSize(imports[m - 1])
  }

  /** Where the DLL name of group `g` starts in its table. */
  function NameStart(groups: seq<Group>, g: nat): nat
    requires g <= |groups|
  {
    if g == 0 then 0 else NameStart(groups, g - 1) + |groups[g - 1].dll| + 1
  }

  function DescriptorSize(groups: seq<Group>): nat {
    20 * (|groups| + 1)
  }

  function DescriptorRoom(groups: seq<Group>): nat {
    Eight(DescriptorSize(groups))
  }

  /** Lookup and address table: one entry per import and one terminator per group. */
  function TableSize(imports: seq<Import>, groups: seq<Group>): nat {
    8 * (|imports| + |groups|)
  }

  /** Where the tables start, and where the last one ends. */
  datatype Bases = Bases(ilt: int, iat: int, hint: int, name: int, total: int)

  function BasesOf(imports: seq<Import>, groups: seq<Group>): Bases {
    var room, table := DescriptorRoom(groups), TableSize(imports, groups);
    var name := room + table + table + HintStart(imports, |imports|);
    Bases(room, room + table, room + table + table, name, name + NameStart(groups, |groups|))
  }

  /** Entry `n` of group `g` in the lookup table, and equally in the address table. */
  function EntryIndex(groups: seq<Group>, g: nat, n: nat): nat
    requires g < |groups|
  {
    groups[g].start + g + n
  }

  /** The slot of import `i` in group `g` is the entry behind `i` imports and `g` terminators. */
  ghost predicate SlotsOk(groups: seq<Group>, n: nat, slots: seq<int>, base: int)
    requires n <= |groups|
  {
    forall g :: 0 <= g < n ==> GroupSlots(groups[g], g, slots, base)
  }

  ghost predicate GroupSlots(group: Group, g: nat, slots: seq<int>, base: int) {
    group.start + group.count <= |slots| && forall i :: group.start <= i < group.start + group.count ==>
      slots[i] == base + 8 * (i + g)
  }

  lemma SlotsExtend(groups: seq<Group>, n: nat, before: seq<int>, slots: seq<int>, base: int)
    requires n < |groups| && SlotsOk(groups, n, before, base) && before <= slots
    requires GroupSlots(groups[n], n, slots, base)
    ensures SlotsOk(groups, n + 1, slots, base)
  {
    forall g | 0 <= g < n ensures GroupSlots(groups[g], g, slots, base) {
      assert GroupSlots(groups[g], g, before, base);
    }
  }

  /** What plan_imports returns. */
  datatype ImportLayout = ImportLayout(
    imports: seq<Import>, groups: seq<Group>,
    ilt: seq<int>, iat: seq<int>, slots: seq<int>, hints: seq<int>, names: seq<int>, bases: Bases)

  ghost predicate TablesOk(groups: seq<Group>, offsets: seq<int>, base: int) {
    |offsets| == |groups| && forall g :: 0 <= g < |groups| ==> offsets[g] == base + 8 * EntryIndex(groups, g, 0)
  }

  ghost predicate NamesOk(groups: seq<Group>, names: seq<int>, base: int) {
    |names| == |groups| && forall g :: 0 <= g < |groups| ==> names[g] == base + NameStart(groups, g)
  }

  ghost predicate HintsOk(imports: seq<Import>, hints: seq<int>, base: int) {
    |hints| == |imports| && forall m :: 0 <= m < |imports| && !imports[m].byOrdinal ==>
      hints[m] == base + HintStart(imports, m)
  }

  /** The planned offsets are those of the tables laid end to end. */
  ghost predicate LayoutOk(l: ImportLayout) {
    && Grouped(l.imports, l.groups, |l.imports|)
    && TablesOk(l.groups, l.ilt, l.bases.ilt) && TablesOk(l.groups, l.iat, l.bases.iat)
    && |l.slots| == |l.imports| && SlotsOk(l.groups, |l.groups|, l.slots, l.bases.iat)
    && HintsOk(l.imports, l.hints, l.bases.hint) && NamesOk(l.groups, l.names, l.bases.name)
    && l.bases == BasesOf(l.imports, l.groups)
  }

  // ---------- the planning loops ----------

  /** First import of group `g`, or the number of imports behind the last group. */
  ghost function StartOf(imports: seq<Import>, groups: seq<Group>, g: nat): int {
    if g < |groups| then groups[g].start else |imports|
  }

  /** One table of eight-byte entries: a run per group, each with its terminator. */
  method PlanTable(imports: seq<Import>, groups: seq<Group>, base: int) returns (offsets: seq<int>, end: int)
    requires Grouped(imports, groups, |imports|)
    ensures TablesOk(groups, offsets, base) && end == base + TableSize(imports, groups)
  {
    offsets, end := [], base;
    for g := 0 to |groups|
      invariant |offsets| == g && end == base + 8 * (StartOf(imports, groups, g) + g)
      invariant forall h :: 0 <= h < g ==> offsets[h] == base + 8 * EntryIndex(groups, h, 0)
    {
      offsets := offsets + [end];
      end := end + (groups[g].count + 1) * 8;
    }
  }

  /** The address-table slot of every import. */
  method PlanSlots(imports: seq<Import>, groups: seq<Group>, iat: seq<int>, base: int) returns (slots: seq<int>)
    requires Grouped(imports, groups, |imports|) && TablesOk(groups, iat, base)
    ensures |slots| == |imports| && SlotsOk(groups, |groups|, slots, base)
  {
    slots := [];
    for g := 0 to |groups|
      invariant |slots| == StartOf(imports, groups, g) && SlotsOk(groups, g, slots, base)
    {
      ghost var before := slots;
      for n := 0 to groups[g].count
        invariant before <= slots && |slots| == groups[g].start + n
        invariant forall i :: groups[g].start <= i < |slots| ==> slots[i] == base + 8 * (i + g)
      {
        slots := slots + [iat[g] + n * 8];
      }
      SlotsExtend(groups, g, before, slots, base);
    }
  }

  lemma EvenSum(v: int, n: int)
    requires v % 2 == 0
    ensures Even(v + n) == v + Even(n) && Even(v + n) % 2 == 0
  {
  }

  /** Where the hint and name of every import by name go. */
  method PlanHints(imports: seq<Import>, base: int) returns (hints: seq<int>, end: int)
    requires base % 2 == 0
    ensures HintsOk(imports, hints, base) && end == base + HintStart(imports, |imports|)
  {
    hints, end := [], base;
    for m := 0 to |imports|
      invariant |hints| == m && end == base + HintStart(imports, m) && end % 2 == 0
      invariant forall k :: 0 <= k < m && !imports[k].byOrdinal ==> hints[k] == base + HintStart(imports, k)
    {
      if imports[m].byOrdinal {
        hints := hints + [0];
      } else {
        hints := hints + [end];
        EvenSum(end, |imports[m].name| + 3);
        end := Even(end + 2 + |imports[m].name| + 1);
      }
    }
  }

  method PlanNames(groups: seq<Group>, base: int) returns (names: seq<int>, end: int)
    ensures NamesOk(groups, names, base) && end == base + NameStart(groups, |groups|)
  {
    names, end := [], base;
    for g := 0 to |groups|
      invariant |names| == g && end == base + NameStart(groups, g)
      invariant forall h :: 0 <= h < g ==> names[h] == base + NameStart(groups, h)
    {
      names := names + [end];
      end := end + |groups[g].dll| + 1;
    }
  }

  /** The alignment steps between the tables add nothing. */
  lemma BasesMet(imports: seq<Import>, groups: seq<Group>, room: int, iat: int, hint: int)
    requires room == Eight(DescriptorSize(groups)) && iat == Eight(room + TableSize(imports, groups))
    requires hint == Even(iat + TableSize(imports, groups))
    ensures var b := BasesOf(imports, groups); b.ilt == room && b.iat == iat && b.hint == hint && hint % 2 == 0
  {
    var q, n := (DescriptorSize(groups) + 7) / 8, |imports| + |groups|;
    EightFixed(q + n);
    EvenFixed(4 * (q + n + n));
  }

  lemma EightFixed(k: int)
    ensures Eight(8 * k) == 8 * k
  {
  }

  lemma EvenFixed(k: int)
    ensures Even(2 * k) == 2 * k
  {
  }

  /** plan_imports: sorted imports, one group per DLL, and every table where the others are not. */
  method PlanImports(imports: seq<Import>) returns (l: ImportLayout)
    ensures LayoutOk(l) && l.imports == SortImports(imports)
    ensures multiset(l.imports) == multiset(imports)
    ensures forall g, h :: 0 <= g < h < |l.groups| ==> StringLess(Lower(l.groups[g].dll), Lower(l.groups[h].dll))
    ensures GroupedByDll(l.imports, l.groups)
    ensures forall g, h :: 0 <= g < h < |l.groups| ==> !SameDll(l.groups[g].dll, l.groups[h].dll)
  {
    var sorted := SortImports(imports);
    var groups := GroupByDll(sorted);
    l := PlanTables(sorted, groups);
    EachDllOnce(imports, groups);
    SharedGroups(sorted, groups);
  }

  method PlanTables(imports: seq<Import>, groups: seq<Group>) returns (l: ImportLayout)
    requires Grouped(imports, groups, |imports|)
    ensures LayoutOk(l) && l.imports == imports && l.groups == groups
  {
    var room := Eight(DescriptorSize(groups));
    var ilt, iltEnd := PlanTable(imports, groups, room);
    var iatBegin := Eight(iltEnd);
    var iat, iatEnd := PlanTable(imports, groups, iatBegin);
    var slots := PlanSlots(imports, groups, iat, iatBegin);
    var hintBegin := Even(iatEnd);
    BasesMet(imports, groups, room, iatBegin, hintBegin);
    var hints, hintEnd := PlanHints(imports, hintBegin);
    var names, total := PlanNames(groups, hintEnd);
    l := ImportLayout(imports, groups, ilt, iat, slots, hints, names, Bases(room, iatBegin, hintBegin, hintEnd, total));
  }

  lemma EachDllOnce(imports: seq<Import>, groups: seq<Group>)
    requires Grouped(SortImports(imports), groups, |SortImports(imports)|)
    ensures multiset(SortImports(imports)) == multiset(imports)
    ensures forall g, h :: 0 <= g < h < |groups| ==> StringLess(Lower(groups[g].dll), Lower(groups[h].dll))
    ensures forall g, h :: 0 <= g < h < |groups| ==> !SameDll(groups[g].dll, groups[h].dll)
  {
    var less := (a: Import, b: Import) => ImportLess(a, b);
    ImportOrder();
    SortIsSorted(imports, less);
    var sorted := SortImports(imports);
    assert forall i, j :: 0 <= i < j < |sorted| ==> !ImportLess(sorted[j], sorted[i]) by {
      forall i, j | 0 <= i < j < |sorted| ensures !ImportLess(sorted[j], sorted[i]) {
        assert !less(sorted[j], sorted[i]);
      }
    }
    forall g, h | 0 <= g < h < |groups|
      ensures StringLess(Lower(groups[g].dll), Lower(groups[h].dll)) && !SameDll(groups[g].dll, groups[h].dll) {
      GroupsIncrease(sorted, groups, g, h);
    }
  }
}
