/** Dropping blank outputs, ordering the rest, and renumbering what refers to them. */
module SectionOrder {
  import opened Coff
  import opened Sorting
  import opened Outputs
  import opened Targets
  import opened Arrange

  /** Position among the well-known names; every other name comes after them. */
  function Rank(name: string): nat {
    if name == ".text" then 0 else if name == ".rdata" then 1 else if name == ".data" then 2
    else if name == ".bss" then 3 else if name == ".pdata" then 4 else if name == ".tls" then 5
    else if name == ".idata" then 6 else if name == ".rsrc" then 7 else if name == ".reloc" then 8 else 9
  }

  function NameAt(outs: seq<Out>, k: nat): string {
    if k < |outs| then outs[k].name else ""
  }

  predicate NameLess(a: string, b: string) {
    Rank(a) < Rank(b) || (Rank(a) == Rank(b) && StringLess(a, b))
  }

  /** The names with a place of their own, in image order. */
  ghost function WellKnown(): seq<string> {
    [".text", ".rdata", ".data", ".bss", ".pdata", ".tls", ".idata", ".rsrc", ".reloc"]
  }

  /** Output `a` comes before `b`: well-known names in their order, then all others lexicographically. */
  ghost predicate Precedes(a: string, b: string) {
    || (exists i, j :: 0 <= i < j < |WellKnown()| && WellKnown()[i] == a && WellKnown()[j] == b)
    || (a in WellKnown() && b !in WellKnown())
    || (a !in WellKnown() && b !in WellKnown() && exists k: nat :: SmallerAt(a, b, k))
  }

  lemma RankIs(name: string)
    ensures name in WellKnown() ==> Rank(name) < 9 && WellKnown()[Rank(name)] == name
    ensures name !in WellKnown() ==> Rank(name) == 9
    ensures forall i :: 0 <= i < |WellKnown()| && WellKnown()[i] == name ==> Rank(name) == i
  {
  }

  lemma PrecedesIs(a: string, b: string)
    ensures Precedes(a, b) <==> NameLess(a, b)
  {
    RankIs(a);
    RankIs(b);
    StringLessAt(a, b);
  }

  /** The outputs of an image: none is empty, and each precedes those behind it that have another name. */
  ghost predicate ImageOrder(outs: seq<Out>) {
    && (forall i :: 0 <= i < |outs| ==> outs[i].data != [] || outs[i].virtualSize != 0)
    && (forall i, j :: 0 <= i < j < |outs| ==> outs[i].name == outs[j].name || Precedes(outs[i].name, outs[j].name))
  }

  /** By rank, then by name; the sort is stable, so equal names keep their order. */
  predicate IndexLess(outs: seq<Out>, a: nat, b: nat) {
    NameLess(NameAt(outs, a), NameAt(outs, b)) || (NameAt(outs, a) == NameAt(outs, b) && a < b)
  }

  lemma NameLessTotal(a: string, b: string)
    ensures NameLess(a, b) ==> !NameLess(b, a)
    ensures a != b ==> NameLess(a, b) || NameLess(b, a)
    ensures a == b ==> !NameLess(a, b)
  {
    StringLessTotal(a, b);
  }

  lemma NameLessWeak(a: string, b: string, c: string)
    requires !NameLess(a, b) && !NameLess(b, c)
    ensures !NameLess(a, c)
  {
    if Rank(a) == Rank(b) && Rank(b) == Rank(c) { StringLessWeak(a, b, c); }
  }

  lemma IndexOrder(outs: seq<Out>)
    ensures StrictWeak((a: nat, b: nat) => IndexLess(outs, a, b))
  {
    var less := (a: nat, b: nat) => IndexLess(outs, a, b);
    forall a, b | less(a, b) ensures !less(b, a) { NameLessTotal(NameAt(outs, a), NameAt(outs, b)); }
    forall a, b, c | !less(a, b) && !less(b, c) ensures !less(a, c) {
      NameLessWeak(NameAt(outs, a), NameAt(outs, b), NameAt(outs, c));
      NameLessTotal(NameAt(outs, a), NameAt(outs, b));
      NameLessTotal(NameAt(outs, b), NameAt(outs, c));
      NameLessTotal(NameAt(outs, a), NameAt(outs, c));
    }
  }

  /** Indices of the outputs that are not blank, among the first `n`. */
  function Present(outs: seq<Out>, n: nat): seq<nat>
    requires n <= |outs|
  {
    if n == 0 then [] else Present(outs, n - 1) + if Blank(outs[n - 1]) then [] else [n - 1]
  }

  lemma {:induction false} PresentAre(outs: seq<Out>, n: nat)
    requires n <= |outs|
    ensures forall k: nat :: k in Present(outs, n) <==> k < n && !Blank(outs[k])
    ensures forall i, j :: 0 <= i < j < |Present(outs, n)| ==> Present(outs, n)[i] < Present(outs, n)[j]
  {
    if n > 0 {
      PresentAre(outs, n - 1);
      var before := Present(outs, n - 1);
      assert forall i :: 0 <= i < |before| ==> before[i] in before;
    }
  }

  function Order(outs: seq<Out>): seq<nat> {
    Sort(Present(outs, |outs|), (a: nat, b: nat) => IndexLess(outs, a, b))
  }

  /** The order lists each output that is not blank once. */
  ghost predicate OrderOk(outs: seq<Out>, order: seq<nat>) {
    && (forall k: nat :: k in order <==> k < |outs| && !Blank(outs[k]))
    && (forall i, j :: 0 <= i < j < |order| ==> IndexLess(outs, order[i], order[j]))
  }

  lemma OrderIsOk(outs: seq<Out>)
    ensures OrderOk(outs, Order(outs))
  {
    var less := (a: nat, b: nat) => IndexLess(outs, a, b);
    var present, order := Present(outs, |outs|), Order(outs);
    PresentAre(outs, |outs|);
    IndexOrder(outs);
    SortIsSorted(present, less);
    SortMembers(present, less);
    Increasing(present);
    Unrepeated(present, order);
    forall i, j | 0 <= i < j < |order| ensures IndexLess(outs, order[i], order[j]) {
      assert !less(order[j], order[i]);
      NameLessTotal(NameAt(outs, order[i]), NameAt(outs, order[j]));
    }
  }

  lemma {:induction false} Increasing(s: seq<nat>)
    requires forall i, j :: 0 <= i < j < |s| ==> s[i] < s[j]
    ensures forall k :: multiset(s)[k] <= 1
  {
    if s != [] {
      var front, last := s[..|s| - 1], s[|s| - 1];
      assert s == front + [last];
      Increasing(front);
      assert last !in front;
    }
  }

  lemma Unrepeated(s: seq<nat>, t: seq<nat>)
    requires multiset(s) == multiset(t) && forall k :: multiset(s)[k] <= 1
    ensures forall i, j :: 0 <= i < j < |t| ==> t[i] != t[j]
  {
    forall i, j | 0 <= i < j < |t| ensures t[i] != t[j] {
      assert t == t[..i] + [t[i]] + t[i + 1..j] + [t[j]] + t[j + 1..];
      assert multiset(t)[t[i]] <= 1;
    }
  }

  /** The outputs in image order. */
  ghost function Ordered(outs: seq<Out>, order: seq<nat>): seq<Out>
    requires OrderOk(outs, order)
  {
    seq(|order|, i requires 0 <= i < |order| => InOrder(outs, order, i); outs[order[i]])
  }

  lemma InOrder(outs: seq<Out>, order: seq<nat>, i: nat)
    requires OrderOk(outs, order) && i < |order|
    ensures order[i] < |outs| && !Blank(outs[order[i]])
  {
    assert order[i] in order;
  }

  /** The addresses after renumbering: those of dropped outputs disappear. */
  ghost predicate Renumbered(outs: seq<Out>, order: seq<nat>, spots: map<Ref, Address>, placements: map<Ref, Address>) {
    && (forall r :: r in placements <==> r in spots && spots[r].output in order)
    && (forall r :: r in placements ==>
         && placements[r].offset == spots[r].offset && placements[r].output < |order|
         && order[placements[r].output] == spots[r].output)
  }

  /** remap: the new number of each output that is kept. */
  method Remap(order: seq<nat>) returns (remap: map<nat, nat>)
    requires forall i, j :: 0 <= i < j < |order| ==> order[i] != order[j]
    ensures forall k :: k in remap <==> k in order
    ensures forall k :: k in remap ==> remap[k] < |order| && order[remap[k]] == k
  {
    remap := map[];
    for i := 0 to |order|
      invariant forall k :: k in remap <==> k in order[..i]
      invariant forall k :: k in remap ==> remap[k] < i && order[remap[k]] == k
    {
      remap := remap[order[i] := i];
    }
    assert order[..|order|] == order;
  }

  lemma OrderDistinct(outs: seq<Out>, order: seq<nat>)
    requires OrderOk(outs, order)
    ensures forall i, j :: 0 <= i < j < |order| ==> order[i] != order[j]
  {
    forall i, j | 0 <= i < j < |order| ensures order[i] != order[j] {
      NameLessTotal(NameAt(outs, order[i]), NameAt(outs, order[j]));
      assert IndexLess(outs, order[i], order[j]);
    }
  }

  method InImageOrder(outs: seq<Out>, order: seq<nat>) returns (sorted: seq<Out>)
    requires OrderOk(outs, order)
    ensures sorted == Ordered(outs, order)
  {
    sorted := [];
    for i := 0 to |order|
      invariant sorted == Ordered(outs, order)[..i]
    {
      InOrder(outs, order, i);
      sorted := sorted + [outs[order[i]]];
    }
  }

  lemma OrderedIs(outs: seq<Out>, order: seq<nat>)
    requires OrderOk(outs, order)
    ensures ImageOrder(Ordered(outs, order))
  {
    var sorted := Ordered(outs, order);
    forall i | 0 <= i < |sorted| ensures sorted[i].data != [] || sorted[i].virtualSize != 0 { InOrder(outs, order, i); }
    forall i, j | 0 <= i < j < |sorted|
      ensures sorted[i].name == sorted[j].name || Precedes(sorted[i].name, sorted[j].name) {
      InOrder(outs, order, i);
      InOrder(outs, order, j);
      assert IndexLess(outs, order[i], order[j]);
      PrecedesIs(sorted[i].name, sorted[j].name);
    }
  }

  /** Drops blank outputs, orders the others and renumbers the placements. */
  method DropAndOrder(outs: seq<Out>, spots: map<Ref, Address>)
    returns (sorted: seq<Out>, placements: map<Ref, Address>)
    ensures OrderOk(outs, Order(outs)) && sorted == Ordered(outs, Order(outs))
    ensures Renumbered(outs, Order(outs), spots, placements) && ImageOrder(sorted)
  {
    var order := Order(outs);
    OrderIsOk(outs);
    OrderDistinct(outs, order);
    OrderedIs(outs, order);
    var remap := Remap(order);
    sorted := InImageOrder(outs, order);
    placements := map r | r in spots && spots[r].output in remap :: Address(remap[spots[r].output], spots[r].offset);
  }

  /** Of several outputs with one name the image lists first the one that was created first, unless it was blank. */
  lemma FirstKept(outs: seq<Out>, order: seq<nat>, name: string, k: nat)
    requires OrderOk(outs, order) && k < |outs| && outs[k].name == name && !Blank(outs[k])
    requires forall j :: 0 <= j < k && outs[j].name == name ==> Blank(outs[j])
    ensures var i := Find(Ordered(outs, order), name);
      i < |order| && order[i] == k && Ordered(outs, order)[i] == outs[k]
  {
    var sorted := Ordered(outs, order);
    assert k in order;
    var i :| 0 <= i < |order| && order[i] == k;
    var j := Find(sorted, name);
    assert sorted[i].name == name;
    assert j <= i;
    InOrder(outs, order, j);
    if j < i {
      assert IndexLess(outs, order[j], order[i]);
      NameLessTotal(name, name);
      assert false;
    }
  }
}
