/** Writing the import directory into its planned block, and reading it back the way a loader does. */
module ImportDirectory {
  import opened Coff
  import opened Bytes
  import opened ImportPlan

  // ---------- names ----------

  /** A name as COFF stores it: single-byte characters, no terminator inside. */
  ghost predicate IsName(s: string) {
    forall i :: 0 <= i < |s| ==> 1 <= s[i] as int < 256
  }

  function NameBytes(s: string): seq<byte> {
    seq(|s|, i requires 0 <= i < |s| => (s[i] as int % 256) as byte)
  }

  /** The name and its terminator. */
  function AsciiZ(s: string): (r: seq<byte>)
    ensures |r| == |s| + 1
  {
    NameBytes(s) + [0]
  }

  /** The characters from `offset` up to the next zero byte. */
  function ReadName(buf: seq<byte>, offset: int): string
    decreases |buf| - offset
  {
    if offset < 0 || offset >= |buf| || buf[offset] == 0 then ""
    else [buf[offset] as int as char] + ReadName(buf, offset + 1)
  }

  lemma {:induction false} ReadsName(buf: seq<byte>, offset: int, s: string)
    requires IsName(s) && 0 <= offset && offset + |s| + 1 <= |buf| && Get(buf, offset, |s| + 1) == AsciiZ(s)
    ensures ReadName(buf, offset) == s
    decreases |s|
  {
    assert buf[offset] == AsciiZ(s)[0];
    if s != "" {
      assert Get(buf, offset + 1, |s|) == Get(buf, offset, |s| + 1)[1..];
      assert AsciiZ(s)[1..] == AsciiZ(s[1..]);
      ReadsName(buf, offset + 1, s[1..]);
      assert s == [s[0]] + s[1..];
    }
  }

  // ---------- what is written where ----------

  /** A sound plan, such as plan_imports returns. */
  type Planned = l: ImportLayout | LayoutOk(l) && l.bases.total >= 0
    ghost witness ImportLayout([], [], [], [], [], [], [], BasesOf([], []))

  /** One store of the writing loop: group fields by group, import fields by group and import. */
  datatype Key =
    | DescIlt(g: nat) | DescName(g: nat) | DescIat(g: nat) | DllName(g: nat)
    | Hint(g: nat, m: nat) | Name(g: nat, m: nat) | Ilt(g: nat, m: nat) | Iat(g: nat, m: nat)

  predicate IsGroupKey(k: Key) {
    k.DescIlt? || k.DescName? || k.DescIat? || k.DllName?
  }

  ghost predicate InGroup(l: Planned, g: nat, m: nat) {
    g < |l.groups| && l.groups[g].start <= m < l.groups[g].start + l.groups[g].count && m < |l.imports|
  }

  ghost predicate KeyOk(l: Planned, k: Key) {
    if IsGroupKey(k) then k.g < |l.groups|
    else InGroup(l, k.g, k.m) && (k.Hint? || k.Name? ==> !l.imports[k.m].byOrdinal)
  }

  /** Sound inputs: the plan, an RVA that leaves room, 16-bit hints and proper names. */
  ghost predicate Writable(l: Planned, rva: int) {
    && 0 < rva && rva + l.bases.total < 0x1_0000_0000
    && (forall m :: 0 <= m < |l.imports| ==> 0 <= l.imports[m].hint < 0x1_0000 && IsName(l.imports[m].name))
    && (forall g :: 0 <= g < |l.groups| ==> IsName(l.groups[g].dll))
  }

  function LookupOf(l: Planned, rva: int, m: nat): int
    requires m < |l.imports| && m < |l.hints|
  {
    if l.imports[m].byOrdinal then 0x8000_0000_0000_0000 + l.imports[m].hint else rva + l.hints[m]
  }

  ghost function Offset(l: Planned, k: Key): int
    requires KeyOk(l, k)
  {
    match k
    case DescIlt(g) => 20 * g
    case DescName(g) => 20 * g + 12
    case DescIat(g) => 20 * g + 16
    case DllName(g) => l.bases.name + NameStart(l.groups, g)
    case Hint(_, m) => l.bases.hint + HintStart(l.imports, m)
    case Name(_, m) => l.bases.hint + HintStart(l.imports, m) + 2
    case Ilt(g, m) => l.bases.ilt + 8 * (m + g)
    case Iat(g, m) => l.bases.iat + 8 * (m + g)
  }

  ghost function Stored(l: Planned, rva: int, k: Key): seq<byte>
    requires KeyOk(l, k)
  {
    match k
    case DescIlt(g) => Encode(rva + l.ilt[g], 4)
    case DescName(g) => Encode(rva + l.names[g], 4)
    case DescIat(g) => Encode(rva + l.iat[g], 4)
    case DllName(g) => AsciiZ(l.groups[g].dll)
    case Hint(_, m) => Encode(l.imports[m].hint, 2)
    case Name(_, m) => AsciiZ(l.imports[m].name)
    case Ilt(_, m) => Encode(LookupOf(l, rva, m), 8)
    case Iat(_, m) => Encode(LookupOf(l, rva, m), 8)
  }

  ghost function Size(l: Planned, k: Key): nat
    requires KeyOk(l, k)
  {
    match k
    case DllName(g) => |l.groups[g].dll| + 1
    case Hint(_, _) => 2
    case Name(_, m) => |l.imports[m].name| + 1
    case Ilt(_, _) => 8
    case Iat(_, _) => 8
    case _ => 4
  }

  lemma StoredSize(l: Planned, rva: int, k: Key)
    requires KeyOk(l, k)
    ensures |Stored(l, rva, k)| == Size(l, k)
  {
  }

  // ---------- the tables do not overlap ----------

  function TableOf(k: Key): int {
    match k
    case Ilt(_, _) => 1
    case Iat(_, _) => 2
    case Hint(_, _) => 3
    case Name(_, _) => 3
    case DllName(_) => 4
    case _ => 0
  }

  ghost function TableStart(l: Planned, t: int): int {
    if t <= 0 then 0 else if t == 1 then l.bases.ilt else if t == 2 then l.bases.iat
    else if t == 3 then l.bases.hint else if t == 4 then l.bases.name else l.bases.total
  }

  lemma {:induction false} HintMonotone(imports: seq<Import>, m: nat, n: nat)
    requires m <= n <= |imports|
    ensures HintStart(imports, m) <= HintStart(imports, n)
    ensures m < n ==> HintStart(imports, m) + HintSize(imports[m]) <= HintStart(imports, n)
    decreases n
  {
    if m < n { HintMonotone(imports, m, n - 1); }
  }

  lemma {:induction false} NameMonotone(groups: seq<Group>, g: nat, h: nat)
    requires g <= h <= |groups|
    ensures NameStart(groups, g) <= NameStart(groups, h)
    ensures g < h ==> NameStart(groups, g) + |groups[g].dll| + 1 <= NameStart(groups, h)
    decreases h
  {
    if g < h { NameMonotone(groups, g, h - 1); }
  }

  lemma {:induction false} GroupMonotone(imports: seq<Import>, groups: seq<Group>, g: nat, h: nat)
    requires Grouped(imports, groups, |imports|) && g < h < |groups|
    ensures groups[g].start + groups[g].count <= groups[h].start
    decreases h - g
  {
    if g + 1 < h { GroupMonotone(imports, groups, g, h - 1); }
  }

  lemma TablesOrdered(l: Planned, t: int)
    requires 0 <= t <= 4
    ensures 0 <= TableStart(l, t) <= TableStart(l, t + 1) && 20 * |l.groups| + 20 <= l.bases.ilt
  {
  }

  /** Every store lies inside its own table. */
  lemma InTable(l: Planned, k: Key)
    requires KeyOk(l, k)
    ensures TableStart(l, TableOf(k)) <= Offset(l, k) && Offset(l, k) + Size(l, k) <= TableStart(l, TableOf(k) + 1)
  {
    TablesOrdered(l, TableOf(k));
    match k
    case DllName(g) => NameMonotone(l.groups, g, |l.groups|);
    case Hint(_, m) => HintMonotone(l.imports, m, |l.imports|);
    case Name(_, m) => HintMonotone(l.imports, m, |l.imports|);
    case _ =>
  }

  lemma TablesApart(l: Planned, t: int, u: int)
    requires 0 <= t < u <= 4
    ensures TableStart(l, t + 1) <= TableStart(l, u)
  {
    TablesOrdered(l, 1);
    TablesOrdered(l, 2);
    TablesOrdered(l, 3);
  }

  ghost predicate Apart(l: Planned, j: Key, k: Key)
    requires KeyOk(l, j) && KeyOk(l, k)
  {
    Offset(l, j) + Size(l, j) <= Offset(l, k) || Offset(l, k) + Size(l, k) <= Offset(l, j)
  }

  /** Position among all imports and terminators: different imports never share one. */
  lemma EntriesApart(l: Planned, g: nat, m: nat, h: nat, n: nat)
    requires InGroup(l, g, m) && InGroup(l, h, n)
    ensures (g != h || m != n) ==> m + g != n + h
    ensures m == n ==> g == h
  {
    if g < h { GroupMonotone(l.imports, l.groups, g, h); }
    if h < g { GroupMonotone(l.imports, l.groups, h, g); }
  }

  lemma OtherTable(l: Planned, j: Key, k: Key)
    requires KeyOk(l, j) && KeyOk(l, k) && TableOf(j) < TableOf(k)
    ensures Offset(l, j) + Size(l, j) <= Offset(l, k)
  {
    InTable(l, j);
    InTable(l, k);
    TablesApart(l, TableOf(j), TableOf(k));
  }

  /** A hint/name entry holds its two stores. */
  lemma HintInside(l: Planned, k: Key)
    requires KeyOk(l, k) && TableOf(k) == 3
    ensures l.bases.hint + HintStart(l.imports, k.m) <= Offset(l, k)
    ensures Offset(l, k) + Size(l, k) <= l.bases.hint + HintStart(l.imports, k.m) + HintSize(l.imports[k.m])
  {
  }

  lemma SameHintTable(l: Planned, j: Key, k: Key)
    requires KeyOk(l, j) && KeyOk(l, k) && j != k && TableOf(j) == TableOf(k) == 3 && j.m <= k.m
    ensures Apart(l, j, k)
  {
    if j.m < k.m {
      HintInside(l, j);
      HintInside(l, k);
      HintMonotone(l.imports, j.m, k.m);
    } else {
      EntriesApart(l, j.g, j.m, k.g, k.m);
    }
  }

  lemma SameEntryTable(l: Planned, j: Key, k: Key)
    requires KeyOk(l, j) && KeyOk(l, k) && j != k && TableOf(j) == TableOf(k) && (TableOf(j) == 1 || TableOf(j) == 2)
    ensures Apart(l, j, k)
  {
    EntriesApart(l, j.g, j.m, k.g, k.m);
  }

  lemma SameNameTable(l: Planned, j: Key, k: Key)
    requires KeyOk(l, j) && KeyOk(l, k) && j != k && TableOf(j) == TableOf(k) == 4
    ensures Apart(l, j, k)
  {
    if j.g < k.g { NameMonotone(l.groups, j.g, k.g); } else { NameMonotone(l.groups, k.g, j.g); }
  }

  lemma SameDescriptors(l: Planned, j: Key, k: Key)
    requires KeyOk(l, j) && KeyOk(l, k) && j != k && TableOf(j) == TableOf(k) == 0
    ensures Apart(l, j, k)
  {
  }

  /** No two stores of the writing loop overlap. */
  lemma StoresApart(l: Planned, j: Key, k: Key)
    requires KeyOk(l, j) && KeyOk(l, k) && j != k
    ensures Apart(l, j, k)
  {
    if TableOf(j) < TableOf(k) {
      OtherTable(l, j, k);
    } else if TableOf(k) < TableOf(j) {
      OtherTable(l, k, j);
    } else {
      match TableOf(j)
      case 0 => SameDescriptors(l, j, k);
      case 3 =>
        if j.m <= k.m { SameHintTable(l, j, k); } else { SameHintTable(l, k, j); }
      case 4 => SameNameTable(l, j, k);
      case _ => SameEntryTable(l, j, k);
    }
  }

  // ---------- the writing loop ----------

  ghost predicate KeysOk(l: Planned, keys: seq<Key>) {
    forall i :: 0 <= i < |keys| ==> KeyOk(l, keys[i])
  }

  lemma Fits(l: Planned, k: Key)
    requires KeyOk(l, k)
    ensures 0 <= Offset(l, k) && Offset(l, k) + Size(l, k) <= l.bases.total
  {
    InTable(l, k);
    if TableOf(k) < 4 { TablesApart(l, TableOf(k), 4); }
    if 0 < TableOf(k) { TablesApart(l, 0, TableOf(k)); }
    TablesOrdered(l, 0);
    TablesOrdered(l, 4);
  }

  ghost function StoreOne(l: Planned, rva: int, buf: seq<byte>, k: Key): (r: seq<byte>)
    requires KeyOk(l, k) && |buf| == l.bases.total
    ensures |r| == |buf|
  {
    Fits(l, k);
    StoredSize(l, rva, k);
    Put(buf, Offset(l, k), Stored(l, rva, k))
  }

  /** The block after these stores, in this order, starting from zeros. */
  ghost function StoreAll(l: Planned, rva: int, keys: seq<Key>): (r: seq<byte>)
    requires KeysOk(l, keys)
    ensures |r| == l.bases.total
  {
    if keys == [] then Zeros(l.bases.total)
    else StoreOne(l, rva, StoreAll(l, rva, keys[..|keys| - 1]), keys[|keys| - 1])
  }

  lemma StoreAllStep(l: Planned, rva: int, keys: seq<Key>, k: Key)
    requires KeysOk(l, keys) && KeyOk(l, k)
    ensures KeysOk(l, keys + [k]) && StoreAll(l, rva, keys + [k]) == StoreOne(l, rva, StoreAll(l, rva, keys), k)
  {
    assert (keys + [k])[..|keys|] == keys;
  }

  /** One store of the writing loop; `k` names it. */
  method Store(l: Planned, rva: int, buf: seq<byte>, offset: int, bytes: seq<byte>, ghost keys: seq<Key>, ghost k: Key)
    returns (r: seq<byte>)
    requires KeysOk(l, keys) && KeyOk(l, k) && buf == StoreAll(l, rva, keys)
    requires offset == Offset(l, k) && bytes == Stored(l, rva, k)
    ensures KeysOk(l, keys + [k]) && r == StoreAll(l, rva, keys + [k])
  {
    Fits(l, k);
    StoredSize(l, rva, k);
    StoreAllStep(l, rva, keys, k);
    r := Put(buf, offset, bytes);
  }

  lemma GroupStores(l: Planned, rva: int, g: nat)
    requires g < |l.groups|
    ensures Offset(l, DescIlt(g)) == 20 * g && Stored(l, rva, DescIlt(g)) == Encode(rva + l.ilt[g], 4)
    ensures Offset(l, DescName(g)) == 20 * g + 12 && Stored(l, rva, DescName(g)) == Encode(rva + l.names[g], 4)
    ensures Offset(l, DescIat(g)) == 20 * g + 16 && Stored(l, rva, DescIat(g)) == Encode(rva + l.iat[g], 4)
    ensures Offset(l, DllName(g)) == l.names[g] && Stored(l, rva, DllName(g)) == AsciiZ(l.groups[g].dll)
  {
  }

  lemma ImportStores(l: Planned, rva: int, g: nat, n: nat)
    requires g < |l.groups| && n < l.groups[g].count
    ensures var m := l.groups[g].start + n;
      && InGroup(l, g, m)
      && Offset(l, Ilt(g, m)) == l.ilt[g] + n * 8 && Stored(l, rva, Ilt(g, m)) == Encode(LookupOf(l, rva, m), 8)
      && Offset(l, Iat(g, m)) == l.iat[g] + n * 8 && Stored(l, rva, Iat(g, m)) == Encode(LookupOf(l, rva, m), 8)
      && (!l.imports[m].byOrdinal ==>
          && Offset(l, Hint(g, m)) == l.hints[m] && Stored(l, rva, Hint(g, m)) == Encode(l.imports[m].hint, 2)
          && Offset(l, Name(g, m)) == l.hints[m] + 2 && Stored(l, rva, Name(g, m)) == AsciiZ(l.imports[m].name))
  {
    EntryOffsets(l, g, n);
  }

  /** The three RVAs of one import descriptor. */
  method WriteDescriptor(l: Planned, rva: int, buf: seq<byte>, g: nat, ghost keys: seq<Key>) returns (r: seq<byte>)
    requires KeysOk(l, keys) && buf == StoreAll(l, rva, keys) && g < |l.groups|
    ensures KeysOk(l, keys + [DescIlt(g)] + [DescName(g)] + [DescIat(g)])
    ensures r == StoreAll(l, rva, keys + [DescIlt(g)] + [DescName(g)] + [DescIat(g)])
  {
    GroupStores(l, rva, g);
    r := Store(l, rva, buf, 20 * g, Encode(rva + l.ilt[g], 4), keys, DescIlt(g));
    r := Store(l, rva, r, 20 * g + 12, Encode(rva + l.names[g], 4), keys + [DescIlt(g)], DescName(g));
    r := Store(l, rva, r, 20 * g + 16, Encode(rva + l.iat[g], 4), keys + [DescIlt(g)] + [DescName(g)], DescIat(g));
  }

  method WriteGroup(l: Planned, rva: int, buf: seq<byte>, g: nat, ghost keys: seq<Key>)
    returns (r: seq<byte>, ghost done: seq<Key>)
    requires KeysOk(l, keys) && buf == StoreAll(l, rva, keys) && g < |l.groups|
    ensures done == keys + [DescIlt(g)] + [DescName(g)] + [DescIat(g)] + [DllName(g)]
    ensures KeysOk(l, done) && r == StoreAll(l, rva, done)
  {
    GroupStores(l, rva, g);
    done := keys + [DescIlt(g)] + [DescName(g)] + [DescIat(g)];
    r := WriteDescriptor(l, rva, buf, g, keys);
    r := Store(l, rva, r, l.names[g], AsciiZ(l.groups[g].dll), done, DllName(g));
    done := done + [DllName(g)];
  }

  /** The entry offsets the loop computes are those of the plan. */
  lemma EntryOffsets(l: Planned, g: nat, n: nat)
    requires g < |l.groups| && n < l.groups[g].count
    ensures var m := l.groups[g].start + n;
      && InGroup(l, g, m) && l.ilt[g] + n * 8 == l.bases.ilt + 8 * (m + g)
      && l.iat[g] + n * 8 == l.bases.iat + 8 * (m + g)
      && (!l.imports[m].byOrdinal ==> l.hints[m] == l.bases.hint + HintStart(l.imports, m))
  {
    assert GroupOk(l.imports, l.groups[g], |l.imports|);
  }

  /** The list has grown by all stores of import `m`. */
  ghost predicate Added(l: Planned, keys: seq<Key>, done: seq<Key>, g: nat, m: nat) {
    && (forall k :: k in keys ==> k in done)
    && Ilt(g, m) in done && Iat(g, m) in done
    && (m < |l.imports| && !l.imports[m].byOrdinal ==> Hint(g, m) in done && Name(g, m) in done)
  }

  lemma AddedAfter(l: Planned, keys: seq<Key>, hinted: seq<Key>, g: nat, m: nat)
    requires hinted == keys || hinted == keys + [Hint(g, m)] + [Name(g, m)]
    requires m < |l.imports| && !l.imports[m].byOrdinal ==> hinted != keys
    ensures Added(l, keys, hinted + [Ilt(g, m)] + [Iat(g, m)], g, m)
  {
  }

  method WriteHint(l: Planned, rva: int, buf: seq<byte>, g: nat, n: nat, m: nat, ghost keys: seq<Key>)
    returns (r: seq<byte>)
    requires KeysOk(l, keys) && buf == StoreAll(l, rva, keys)
    requires g < |l.groups| && n < l.groups[g].count && m == l.groups[g].start + n && m < |l.imports|
    requires !l.imports[m].byOrdinal
    ensures KeysOk(l, keys + [Hint(g, m)] + [Name(g, m)]) && r == StoreAll(l, rva, keys + [Hint(g, m)] + [Name(g, m)])
  {
    ImportStores(l, rva, g, n);
    r := Store(l, rva, buf, l.hints[m], Encode(l.imports[m].hint, 2), keys, Hint(g, m));
    r := Store(l, rva, r, l.hints[m] + 2, AsciiZ(l.imports[m].name), keys + [Hint(g, m)], Name(g, m));
  }

  method WriteEntries(l: Planned, rva: int, buf: seq<byte>, g: nat, n: nat, m: nat, ghost keys: seq<Key>)
    returns (r: seq<byte>)
    requires KeysOk(l, keys) && buf == StoreAll(l, rva, keys)
    requires g < |l.groups| && n < l.groups[g].count && m == l.groups[g].start + n && m < |l.imports|
    ensures KeysOk(l, keys + [Ilt(g, m)] + [Iat(g, m)]) && r == StoreAll(l, rva, keys + [Ilt(g, m)] + [Iat(g, m)])
  {
    ImportStores(l, rva, g, n);
    var lookup := Encode(LookupOf(l, rva, m), 8);
    r := Store(l, rva, buf, l.ilt[g] + n * 8, lookup, keys, Ilt(g, m));
    r := Store(l, rva, r, l.iat[g] + n * 8, lookup, keys + [Ilt(g, m)], Iat(g, m));
  }

  method WriteImport(l: Planned, rva: int, buf: seq<byte>, g: nat, n: nat, ghost keys: seq<Key>)
    returns (r: seq<byte>, ghost done: seq<Key>)
    requires KeysOk(l, keys) && buf == StoreAll(l, rva, keys) && g < |l.groups| && n < l.groups[g].count
    ensures Added(l, keys, done, g, l.groups[g].start + n)
    ensures KeysOk(l, done) && r == StoreAll(l, rva, done)
  {
    var m := l.groups[g].start + n;
    EntryOffsets(l, g, n);
    r, done := buf, keys;
    if !l.imports[m].byOrdinal {
      r := WriteHint(l, rva, r, g, n, m, done);
      done := done + [Hint(g, m)] + [Name(g, m)];
    }
    AddedAfter(l, keys, done, g, m);
    r := WriteEntries(l, rva, r, g, n, m, done);
    done := done + [Ilt(g, m)] + [Iat(g, m)];
  }

  /** Every store of the first `g` groups and of the first `n` imports of group `g` is in the list. */
  ghost predicate Covered(l: Planned, keys: seq<Key>, g: nat, n: int) {
    forall k :: KeyOk(l, k) && (k.g < g || (k.g == g && n >= 0 && (IsGroupKey(k) || k.m < l.groups[g].start + n))) ==>
      k in keys
  }

  /** The import-directory loop of the linker: all stores of the plan, in its order. */
  method WriteDirectory(l: Planned, rva: int) returns (buf: seq<byte>, ghost keys: seq<Key>)
    ensures KeysOk(l, keys) && buf == StoreAll(l, rva, keys) && forall k :: KeyOk(l, k) ==> k in keys
  {
    buf, keys := Zeros(l.bases.total), [];
    for g := 0 to |l.groups|
      invariant KeysOk(l, keys) && buf == StoreAll(l, rva, keys) && Covered(l, keys, g, -1)
    {
      ghost var before := keys;
      buf, keys := WriteGroup(l, rva, buf, g, keys);
      assert Covered(l, keys, g, 0) by { GroupCovered(l, before, keys, g); }
      for n := 0 to l.groups[g].count
        invariant KeysOk(l, keys) && buf == StoreAll(l, rva, keys) && Covered(l, keys, g, n)
      {
        ghost var earlier := keys;
        buf, keys := WriteImport(l, rva, buf, g, n, keys);
        ImportCovered(l, earlier, keys, g, n);
      }
      NextGroup(l, keys, g);
    }
  }

  lemma GroupCovered(l: Planned, before: seq<Key>, keys: seq<Key>, g: nat)
    requires g < |l.groups| && Covered(l, before, g, -1)
    requires keys == before + [DescIlt(g)] + [DescName(g)] + [DescIat(g)] + [DllName(g)]
    ensures Covered(l, keys, g, 0)
  {
    assert DescIlt(g) in keys && DescName(g) in keys && DescIat(g) in keys && DllName(g) in keys;
    assert forall k :: k in before ==> k in keys;
  }

  lemma ImportCovered(l: Planned, before: seq<Key>, keys: seq<Key>, g: nat, n: nat)
    requires g < |l.groups| && Covered(l, before, g, n) && Added(l, before, keys, g, l.groups[g].start + n)
    ensures Covered(l, keys, g, n + 1)
  {
  }

  lemma NextGroup(l: Planned, keys: seq<Key>, g: nat)
    requires g < |l.groups| && Covered(l, keys, g, l.groups[g].count)
    ensures Covered(l, keys, g + 1, -1)
  {
  }

  // ---------- what is in the block afterwards ----------

  ghost predicate InPlace(l: Planned, rva: int, buf: seq<byte>, k: Key)
    requires KeyOk(l, k)
  {
    0 <= Offset(l, k) && Offset(l, k) + Size(l, k) <= |buf| && Get(buf, Offset(l, k), Size(l, k)) == Stored(l, rva, k)
  }

  lemma StoreKeeps(l: Planned, rva: int, buf: seq<byte>, k: Key, j: Key)
    requires KeyOk(l, k) && KeyOk(l, j) && InPlace(l, rva, buf, j) && j != k && |buf| == l.bases.total
    ensures InPlace(l, rva, StoreOne(l, rva, buf, k), j)
  {
    Fits(l, k);
    StoredSize(l, rva, k);
    StoresApart(l, j, k);
    GetPutOther(buf, Offset(l, k), Stored(l, rva, k), Offset(l, j), Size(l, j));
  }

  lemma {:induction false} StoresStay(l: Planned, rva: int, keys: seq<Key>, j: Key)
    requires KeysOk(l, keys) && KeyOk(l, j) && j in keys
    ensures InPlace(l, rva, StoreAll(l, rva, keys), j)
  {
    var front, k := keys[..|keys| - 1], keys[|keys| - 1];
    var buf := StoreAll(l, rva, front);
    if j == k {
      Fits(l, k);
      StoredSize(l, rva, k);
      GetPut(buf, Offset(l, k), Stored(l, rva, k));
    } else {
      assert j in front;
      StoresStay(l, rva, front, j);
      StoreKeeps(l, rva, buf, k, j);
    }
  }

  /** No store covers byte `i`. */
  ghost predicate Free(l: Planned, i: int)
  {
    forall k :: KeyOk(l, k) ==> !(Offset(l, k) <= i < Offset(l, k) + Size(l, k))
  }

  lemma {:induction false} FreeStaysZero(l: Planned, rva: int, keys: seq<Key>, i: int)
    requires KeysOk(l, keys) && 0 <= i < l.bases.total && Free(l, i)
    ensures StoreAll(l, rva, keys)[i] == 0
  {
    if keys != [] {
      var front, k := keys[..|keys| - 1], keys[|keys| - 1];
      FreeStaysZero(l, rva, front, i);
      Fits(l, k);
      StoredSize(l, rva, k);
      PutAt(StoreAll(l, rva, front), Offset(l, k), Stored(l, rva, k), i);
    }
  }

  // ---------- terminators ----------

  lemma {:induction false} DecodeZeros(s: seq<byte>)
    requires forall i :: 0 <= i < |s| ==> s[i] == 0
    ensures Decode(s) == 0
  {
    if s != [] { DecodeZeros(s[1..]); }
  }

  /** The entry behind the imports of group `g` belongs to no import. */
  lemma TerminatorIndex(l: Planned, g: nat, h: nat, m: nat)
    requires g < |l.groups| && InGroup(l, h, m)
    ensures m + h != l.groups[g].start + l.groups[g].count + g
    ensures l.groups[g].start + l.groups[g].count <= |l.imports|
  {
    assert GroupOk(l.imports, l.groups[g], |l.imports|);
    if g < h { GroupMonotone(l.imports, l.groups, g, h); }
    if h < g { GroupMonotone(l.imports, l.groups, h, g); }
  }

  /** The eight bytes of a terminator, in the lookup table (1) or the address table (2), are free. */
  lemma TerminatorFree(l: Planned, t: int, g: nat, i: int)
    requires (t == 1 || t == 2) && g < |l.groups|
    requires var e := l.groups[g].start + l.groups[g].count + g;
      TableStart(l, t) + 8 * e <= i < TableStart(l, t) + 8 * e + 8
    ensures 0 <= i < l.bases.total && Free(l, i)
  {
    var e := l.groups[g].start + l.groups[g].count + g;
    assert GroupOk(l.imports, l.groups[g], |l.imports|);
    TablesOrdered(l, 0);
    TablesOrdered(l, t);
    TablesOrdered(l, 3);
    TablesOrdered(l, 4);
    TablesApart(l, t, 3);
    assert i < TableStart(l, t + 1);
    forall k | KeyOk(l, k) ensures !(Offset(l, k) <= i < Offset(l, k) + Size(l, k)) {
      TerminatorMissed(l, t, g, i, k);
    }
  }

  lemma TerminatorMissed(l: Planned, t: int, g: nat, i: int, k: Key)
    requires (t == 1 || t == 2) && g < |l.groups| && KeyOk(l, k) && TableStart(l, t) <= i < TableStart(l, t + 1)
    requires var e := l.groups[g].start + l.groups[g].count + g;
      TableStart(l, t) + 8 * e <= i < TableStart(l, t) + 8 * e + 8
    ensures !(Offset(l, k) <= i < Offset(l, k) + Size(l, k))
  {
    InTable(l, k);
    if TableOf(k) < t {
      TablesApart(l, TableOf(k), t);
    } else if TableOf(k) > t {
      TablesApart(l, t, TableOf(k));
    } else {
      TerminatorIndex(l, g, k.g, k.m);
    }
  }

  /** The bytes of the null descriptor are free. */
  lemma NullDescriptorFree(l: Planned, i: int)
    requires 20 * |l.groups| <= i < 20 * |l.groups| + 20
    ensures i < l.bases.total && Free(l, i)
  {
    TablesOrdered(l, 0);
    TablesApart(l, 0, 4);
    TablesOrdered(l, 4);
    forall k | KeyOk(l, k) ensures !(Offset(l, k) <= i < Offset(l, k) + Size(l, k)) {
      InTable(l, k);
      if TableOf(k) > 0 { TablesApart(l, 0, TableOf(k)); }
    }
  }
}
