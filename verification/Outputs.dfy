/** Output sections: placed input sections grouped by canonical name, and each group laid out. */
module Outputs {
  import opened Coff
  import opened Layout
  import opened Targets

  // ---------- names ----------

  /** The name up to its first '$', which separates a subsection ordering key. */
  function Stem(name: string): string {
    if name == "" || name[0] == '$' then "" else [name[0]] + Stem(name[1..])
  }

  /** A name without '$' and any subsection key. */
  lemma {:induction false} StemOf(stem: string, key: string)
    requires '$' !in stem && (key == "" || key[0] == '$')
    ensures Stem(stem + key) == stem
  {
    if stem != "" {
      StemOf(stem[1..], key);
      assert (stem + key)[1..] == stem[1..] + key;
    } else {
      assert stem + key == key;
    }
  }

  /** canonical_section: the well-known prefixes, else the first eight characters. */
  function Canonical(name: string): string {
    var stem := Stem(name);
    if ".text" <= stem then ".text"
    else if ".rdata" <= stem then ".rdata"
    else if ".data" <= stem then ".data"
    else if ".bss" <= stem then ".bss"
    else if ".tls" <= stem then ".tls"
    else if ".idata" <= stem then ".idata"
    else if |stem| <= 8 then stem else stem[..8]
  }

  /** The names whose sections are collected under their first letters. */
  ghost function Collected(): seq<string> {
    [".text", ".rdata", ".data", ".bss", ".tls", ".idata"]
  }

  /**
   Of a name, what lies before its first '$' counts. A section belongs to the collecting output
   its name begins with, if there is one, and otherwise to the one of its first eight characters.
   */
  lemma CanonicalOf(stem: string, key: string)
    requires '$' !in stem && (key == "" || key[0] == '$')
    ensures forall i :: 0 <= i < |Collected()| && Collected()[i] <= stem ==> Canonical(stem + key) == Collected()[i]
    ensures (forall i :: 0 <= i < |Collected()| ==> !(Collected()[i] <= stem)) ==>
      Canonical(stem + key) <= stem && |Canonical(stem + key)| == if |stem| < 8 then |stem| else 8
  {
    StemOf(stem, key);
    var names := Collected();
    assert names[0] == ".text" && names[1] == ".rdata" && names[2] == ".data" && names[3] == ".bss";
    assert names[4] == ".tls" && names[5] == ".idata";
  }

  /** Every name is of this form. */
  lemma {:induction false} NameParts(name: string) returns (stem: string, key: string)
    ensures name == stem + key && '$' !in stem && (key == "" || key[0] == '$')
  {
    if name == "" || name[0] == '$' {
      stem, key := "", name;
    } else {
      var s, k := NameParts(name[1..]);
      stem, key := [name[0]] + s, k;
      assert name == [name[0]] + name[1..];
    }
  }

  function OutputName(objects: seq<Object>, r: Ref): string {
    Canonical(NameOf(objects, r))
  }

  /** The sections of `refs` that go to output `name`, in input order. */
  function Members(objects: seq<Object>, placed: set<Ref>, name: string, refs: seq<Ref>): seq<Ref> {
    if refs == [] then []
    else
      var last := refs[|refs| - 1];
      Members(objects, placed, name, refs[..|refs| - 1]) + if last in placed && OutputName(objects, last) == name
        then [last] else []
  }

  lemma {:induction false} MembersAre(objects: seq<Object>, placed: set<Ref>, name: string, refs: seq<Ref>)
    requires Distinct(refs)
    ensures forall r :: r in Members(objects, placed, name, refs) <==>
      r in refs && r in placed && OutputName(objects, r) == name
    ensures Distinct(Members(objects, placed, name, refs))
  {
    if refs != [] {
      var front := refs[..|refs| - 1];
      assert refs == front + [refs[|refs| - 1]];
      assert Distinct(front);
      MembersAre(objects, placed, name, front);
    }
  }

  // ---------- grouping ----------

  datatype Group = Group(name: string, refs: seq<Ref>)

  ghost predicate HasName(groups: seq<Group>, name: string) {
    exists i :: 0 <= i < |groups| && groups[i].name == name
  }

  /** One group per canonical name of a placed section, holding all of them in input order. */
  ghost predicate GroupsOk(objects: seq<Object>, placed: set<Ref>, refs: seq<Ref>, groups: seq<Group>) {
    && (forall i, j :: 0 <= i < j < |groups| ==> groups[i].name != groups[j].name)
    && (forall i :: 0 <= i < |groups| ==>
          groups[i].refs == Members(objects, placed, groups[i].name, refs) && groups[i].refs != [])
    && (forall r :: r in refs && r in placed ==> HasName(groups, OutputName(objects, r)))
  }

  /** A section that is not placed changes no group. */
  lemma SkipRef(objects: seq<Object>, placed: set<Ref>, refs: seq<Ref>, r: Ref, groups: seq<Group>)
    requires GroupsOk(objects, placed, refs, groups) && r !in placed
    ensures GroupsOk(objects, placed, refs + [r], groups)
  {
    assert (refs + [r])[..|refs|] == refs;
  }

  /** A placed section joins the group of its name. */
  lemma JoinGroup(objects: seq<Object>, placed: set<Ref>, refs: seq<Ref>, r: Ref, groups: seq<Group>, k: nat)
    requires GroupsOk(objects, placed, refs, groups) && r in placed && k < |groups|
    requires groups[k].name == OutputName(objects, r)
    ensures GroupsOk(objects, placed, refs + [r], groups[k := groups[k].(refs := groups[k].refs + [r])])
  {
    var joined := groups[k := groups[k].(refs := groups[k].refs + [r])];
    assert (refs + [r])[..|refs|] == refs;
    forall q | q in refs + [r] && q in placed ensures HasName(joined, OutputName(objects, q)) {
      if q in refs {
        var i :| 0 <= i < |groups| && groups[i].name == OutputName(objects, q);
        assert joined[i].name == groups[i].name;
      } else {
        assert joined[k].name == OutputName(objects, q);
      }
    }
  }

  lemma {:induction false} NoMembers(objects: seq<Object>, placed: set<Ref>, name: string, refs: seq<Ref>)
    requires forall r :: r in refs && r in placed ==> OutputName(objects, r) != name
    ensures Members(objects, placed, name, refs) == []
  {
    if refs != [] {
      assert refs[|refs| - 1] in refs;
      NoMembers(objects, placed, name, refs[..|refs| - 1]);
    }
  }

  /** The first section of a name opens a group. */
  lemma OpenGroup(objects: seq<Object>, placed: set<Ref>, refs: seq<Ref>, r: Ref, groups: seq<Group>)
    requires GroupsOk(objects, placed, refs, groups) && r in placed && !HasName(groups, OutputName(objects, r))
    ensures GroupsOk(objects, placed, refs + [r], groups + [Group(OutputName(objects, r), [r])])
  {
    var name := OutputName(objects, r);
    var more := groups + [Group(name, [r])];
    assert (refs + [r])[..|refs|] == refs;
    NoMembers(objects, placed, name, refs);
    forall q | q in refs + [r] && q in placed ensures HasName(more, OutputName(objects, q)) {
      if q in refs {
        var i :| 0 <= i < |groups| && groups[i].name == OutputName(objects, q);
        assert more[i].name == groups[i].name;
      } else {
        assert more[|groups|].name == OutputName(objects, q);
      }
    }
  }

  /** The index from names to groups, as output_by_name keeps it. */
  ghost predicate Indexed(groups: seq<Group>, index: map<string, nat>) {
    && (forall name :: name in index ==> index[name] < |groups| && groups[index[name]].name == name)
    && (forall i :: 0 <= i < |groups| ==> groups[i].name in index)
  }

  /** One section joins its group, opens one, or is passed over. */
  method GroupNext(objects: seq<Object>, placed: set<Ref>, ghost done: seq<Ref>, r: Ref, before: seq<Group>,
          known: map<string, nat>)
    returns (groups: seq<Group>, index: map<string, nat>)
    requires GroupsOk(objects, placed, done, before) && Indexed(before, known)
    ensures GroupsOk(objects, placed, done + [r], groups) && Indexed(groups, index)
  {
    groups, index := before, known;
    if r !in placed {
      SkipRef(objects, placed, done, r, groups);
      return;
    }
    var name := OutputName(objects, r);
    if name in index {
      var k := index[name];
      JoinGroup(objects, placed, done, r, groups, k);
      groups := groups[k := groups[k].(refs := groups[k].refs + [r])];
    } else {
      OpenGroup(objects, placed, done, r, groups);
      index := index[name := |groups|];
      groups := groups + [Group(name, [r])];
    }
  }

  /** The grouping loop of link. */
  method GroupSections(objects: seq<Object>, placed: set<Ref>) returns (groups: seq<Group>)
    ensures GroupsOk(objects, placed, AllRefs(objects), groups)
  {
    var refs := AllRefs(objects);
    var index: map<string, nat> := map[];
    groups := [];
    for n := 0 to |refs|
      invariant GroupsOk(objects, placed, refs[..n], groups) && Indexed(groups, index)
    {
      assert refs[..n + 1] == refs[..n] + [refs[n]];
      groups, index := GroupNext(objects, placed, refs[..n], refs[n], groups, index);
    }
    assert refs[..|refs|] == refs;
  }

  // ---------- laying out one group ----------

  datatype Out = Out(name: string, data: seq<byte>, virtualSize: int)

  /** Neither file bytes nor image bytes: such an output is dropped. */
  predicate Blank(out: Out) {
    out.data == [] && out.virtualSize == 0
  }

  /** Section sizes are 32-bit fields. */
  ghost predicate Sized(objects: seq<Object>) {
    forall r :: Exists(objects, r) ==>
      |At(objects, r).data| < 0x1_0000_0000 && At(objects, r).virtualSize < 0x1_0000_0000
  }

  function SectionsOf(objects: seq<Object>, refs: seq<Ref>): (s: seq<Section>)
    requires AllExist(objects, refs)
    ensures |s| == |refs| && forall i :: 0 <= i < |refs| ==> s[i] == At(objects, refs[i])
  {
    seq(|refs|, i requires 0 <= i < |refs| => At(objects, refs[i]))
  }

  /** What a group occupies without overflow. */
  ghost function GroupItems(objects: seq<Object>, refs: seq<Ref>): (items: seq<Item>)
    requires AllExist(objects, refs)
    ensures |items| == |refs| && AllOk(items)
  {
    SortedOk(objects, refs);
    Items(SectionsOf(objects, SortContributions(objects, refs)))
  }

  lemma SortedOk(objects: seq<Object>, refs: seq<Ref>)
    ensures |SortContributions(objects, refs)| == |refs|
    ensures forall r :: r in SortContributions(objects, refs) <==> r in refs
    ensures AllExist(objects, refs) ==> AllExist(objects, SortContributions(objects, refs))
    ensures Distinct(refs) ==> Distinct(SortContributions(objects, refs))
  {
    ContributionsSorted(objects, refs);
    var sorted := SortContributions(objects, refs);
    forall r ensures r in sorted <==> r in refs {
      assert r in sorted <==> r in multiset(sorted);
      assert r in refs <==> r in multiset(refs);
    }
    if AllExist(objects, refs) {
      forall i | 0 <= i < |sorted| ensures Exists(objects, sorted[i]) {
        assert sorted[i] in sorted;
        var k :| 0 <= k < |refs| && refs[k] == sorted[i];
      }
    }
    if Distinct(refs) { SamePermutation(refs, sorted); }
  }

  /** A permutation of distinct elements is distinct. */
  lemma SamePermutation(refs: seq<Ref>, sorted: seq<Ref>)
    requires Distinct(refs) && multiset(sorted) == multiset(refs)
    ensures Distinct(sorted)
  {
    forall i, j | 0 <= i < j < |sorted| ensures sorted[i] != sorted[j] {
      if sorted[i] == sorted[j] {
        Twice(sorted, i, j);
        Once(refs, sorted[i]);
      }
    }
  }

  lemma Twice(s: seq<Ref>, i: nat, j: nat)
    requires i < j < |s| && s[i] == s[j]
    ensures multiset(s)[s[i]] >= 2
  {
    assert s == s[..i] + [s[i]] + s[i + 1..j] + [s[j]] + s[j + 1..];
  }

  lemma {:induction false} Once(s: seq<Ref>, r: Ref)
    requires Distinct(s)
    ensures multiset(s)[r] <= 1
  {
    if s != [] {
      var front, last := s[..|s| - 1], s[|s| - 1];
      assert s == front + [last];
      Once(front, r);
      if last == r { assert r !in front; }
    }
  }

  /** The bytes of every section of the group are where its spot says. */
  ghost predicate BytesAt(objects: seq<Object>, refs: seq<Ref>, data: seq<byte>, spots: map<Ref, int>)
    requires AllExist(objects, refs)
  {
    forall i :: 0 <= i < |refs| && refs[i] in spots && At(objects, refs[i]).data != [] ==>
      Holds(data, spots[refs[i]], At(objects, refs[i]).data)
  }

  /** What laying out a group promises. */
  ghost predicate GroupPlaced(objects: seq<Object>, group: Group, out: Out, spots: map<Ref, int>)
    requires AllExist(objects, group.refs)
  {
    && out.name == group.name && out.virtualSize >= 0
    && (forall r :: r in spots <==> r in group.refs)
    && (Blank(out) <==> forall i :: 0 <= i < |group.refs| ==> LogicalSize(At(objects, group.refs[i])) == 0)
    && (NoOverflow(GroupItems(objects, group.refs), 0) ==> ExactlyPlaced(objects, group.refs, out, spots))
  }

  /**
   Without overflow sections are at the offsets of their items, with their bytes, and the ends are
   those of the items.
   */
  ghost predicate ExactlyPlaced(objects: seq<Object>, refs: seq<Ref>, out: Out, spots: map<Ref, int>)
    requires AllExist(objects, refs)
  {
    && |out.data| <= out.virtualSize == EndOf(GroupItems(objects, refs), 0, |refs|)
    && |out.data| == DataEnd(GroupItems(objects, refs), 0, 0, |refs|)
    && BytesAt(objects, refs, out.data, spots) && OffsetsAt(objects, refs, spots)
  }

  /** Every section is at the offset of its item. */
  ghost predicate OffsetsAt(objects: seq<Object>, refs: seq<Ref>, spots: map<Ref, int>)
    requires AllExist(objects, refs)
  {
    var sorted := SortContributions(objects, refs);
    |sorted| == |refs| &&
    forall i :: 0 <= i < |sorted| ==>
      sorted[i] in spots && spots[sorted[i]] == OffsetOf(GroupItems(objects, refs), 0, i)
  }

  method Spots(sorted: seq<Ref>, offsets: seq<int>) returns (spots: map<Ref, int>)
    requires Distinct(sorted) && |offsets| == |sorted|
    ensures forall r :: r in spots <==> r in sorted
    ensures forall i :: 0 <= i < |sorted| ==> spots[sorted[i]] == offsets[i]
  {
    spots := map[];
    for n := 0 to |sorted|
      invariant forall r :: r in spots <==> r in sorted[..n]
      invariant forall i :: 0 <= i < n ==> spots[sorted[i]] == offsets[i]
    {
      spots := spots[sorted[n] := offsets[n]];
    }
    assert sorted[..|sorted|] == sorted;
  }

  lemma Sizes32(objects: seq<Object>, refs: seq<Ref>)
    requires Sized(objects) && AllExist(objects, refs)
    ensures Fields32(Items(SectionsOf(objects, refs)))
  {
  }

  lemma AllBlank(objects: seq<Object>, refs: seq<Ref>, sorted: seq<Ref>)
    requires AllExist(objects, refs) && AllExist(objects, sorted) && forall r :: r in sorted <==> r in refs
    ensures (forall i :: 0 <= i < |sorted| ==> LogicalSize(At(objects, sorted[i])) == 0) <==>
            (forall i :: 0 <= i < |refs| ==> LogicalSize(At(objects, refs[i])) == 0)
  {
    if forall i :: 0 <= i < |sorted| ==> LogicalSize(At(objects, sorted[i])) == 0 {
      forall i | 0 <= i < |refs| ensures LogicalSize(At(objects, refs[i])) == 0 {
        assert refs[i] in sorted;
      }
    }
    if forall i :: 0 <= i < |refs| ==> LogicalSize(At(objects, refs[i])) == 0 {
      forall i | 0 <= i < |sorted| ensures LogicalSize(At(objects, sorted[i])) == 0 {
        assert sorted[i] in refs;
      }
    }
  }

  lemma BytesOfItems(objects: seq<Object>, refs: seq<Ref>, sorted: seq<Ref>, items: seq<Item>, data: seq<byte>,
          offsets: seq<int>, spots: map<Ref, int>)
    requires AllExist(objects, refs) && AllExist(objects, sorted) && (forall r :: r in sorted <==> r in refs)
    requires |items| == |offsets| == |sorted| && AllOk(items) && BytesPlaced(data, items, 0, |items|)
    requires forall i :: 0 <= i < |items| ==>
      items[i].bytes == At(objects, sorted[i]).data && offsets[i] == OffsetOf(items, 0, i)
    requires forall i :: 0 <= i < |sorted| ==> sorted[i] in spots && spots[sorted[i]] == offsets[i]
    ensures BytesAt(objects, refs, data, spots)
  {
    forall i | 0 <= i < |refs| && At(objects, refs[i]).data != []
      ensures refs[i] in spots && Holds(data, spots[refs[i]], At(objects, refs[i]).data) {
      assert refs[i] in sorted;
      var k :| 0 <= k < |sorted| && sorted[k] == refs[i];
      assert items[k].bytes != [];
    }
  }

  lemma PlacedExactly(objects: seq<Object>, refs: seq<Ref>, sorted: seq<Ref>, out: Out, offsets: seq<int>,
          spots: map<Ref, int>)
    requires AllExist(objects, refs) && sorted == SortContributions(objects, refs) && AllExist(objects, sorted)
    requires PlacedUpTo([], out.data, out.virtualSize, offsets, Items(SectionsOf(objects, sorted)), 0, |sorted|)
    requires forall i :: 0 <= i < |sorted| ==> i < |offsets| && sorted[i] in spots && spots[sorted[i]] == offsets[i]
    ensures ExactlyPlaced(objects, refs, out, spots)
  {
    SortedOk(objects, refs);
    BytesOfItems(objects, refs, sorted, Items(SectionsOf(objects, sorted)), out.data, offsets, spots);
  }

  lemma PlacedGroup(objects: seq<Object>, group: Group, sorted: seq<Ref>, out: Out, offsets: seq<int>,
          spots: map<Ref, int>)
    requires AllExist(objects, group.refs) && sorted == SortContributions(objects, group.refs)
    requires AllExist(objects, sorted)
    requires out.name == group.name && out.virtualSize >= 0 && |offsets| == |sorted|
    requires forall r :: r in spots <==> r in sorted
    requires NoOverflow(Items(SectionsOf(objects, sorted)), 0) ==>
      PlacedUpTo([], out.data, out.virtualSize, offsets, Items(SectionsOf(objects, sorted)), 0, |sorted|)
    requires forall i :: 0 <= i < |sorted| ==> spots[sorted[i]] == offsets[i]
    requires Blank(out) <==> forall i :: 0 <= i < |sorted| ==> LogicalSize(At(objects, sorted[i])) == 0
    ensures GroupPlaced(objects, group, out, spots)
  {
    SortedOk(objects, group.refs);
    AllBlank(objects, group.refs, sorted);
    if NoOverflow(GroupItems(objects, group.refs), 0) {
      PlacedExactly(objects, group.refs, sorted, out, offsets, spots);
    }
  }

  /** The contributions of one output: sorted by name, placed one behind the other. */
  method PlaceGroup(objects: seq<Object>, group: Group) returns (out: Out, spots: map<Ref, int>)
    requires AllExist(objects, group.refs) && Distinct(group.refs) && Sized(objects)
    ensures GroupPlaced(objects, group, out, spots)
  {
    var sorted := SortContributions(objects, group.refs);
    SortedOk(objects, group.refs);
    var data, virtualSize, offsets := PlaceContributions(SectionsOf(objects, sorted));
    Sizes32(objects, sorted);
    spots := Spots(sorted, offsets);
    out := Out(group.name, data, virtualSize);
    PlacedGroup(objects, group, sorted, out, offsets, spots);
  }

  // ---------- laying out all groups ----------

  /** The offsets of these sections. */
  function Offsets(spots: map<Ref, Address>, refs: seq<Ref>): map<Ref, int> {
    map r | r in refs && r in spots :: spots[r].offset
  }

  /** Group `k` is laid out in output `k`. */
  ghost predicate GroupAt(objects: seq<Object>, group: Group, k: nat, out: Out, spots: map<Ref, Address>) {
    && AllExist(objects, group.refs)
    && (forall r :: r in group.refs ==> r in spots && spots[r].output == k)
    && GroupPlaced(objects, group, out, Offsets(spots, group.refs))
  }

  /** Spots of other sections do not matter. */
  lemma GroupAtKept(objects: seq<Object>, group: Group, k: nat, out: Out, spots: map<Ref, Address>,
          more: map<Ref, Address>)
    requires GroupAt(objects, group, k, out, spots) && forall r :: r in group.refs ==> r in more && more[r] == spots[r]
    ensures GroupAt(objects, group, k, out, more)
  {
    assert Offsets(more, group.refs) == Offsets(spots, group.refs);
  }

  lemma GroupAtNew(objects: seq<Object>, group: Group, k: nat, out: Out, local: map<Ref, int>, more: map<Ref, Address>)
    requires AllExist(objects, group.refs) && GroupPlaced(objects, group, out, local)
    requires forall r :: r in group.refs ==> r in more && more[r] == Address(k, local[r])
    ensures GroupAt(objects, group, k, out, more)
  {
    assert Offsets(more, group.refs) == local;
  }

  /** Groups hold existing sections once, and no section twice. */
  lemma GroupsApart(objects: seq<Object>, placed: set<Ref>, groups: seq<Group>, i: nat)
    requires GroupsOk(objects, placed, AllRefs(objects), groups) && i < |groups|
    ensures AllExist(objects, groups[i].refs) && Distinct(groups[i].refs)
    ensures forall r :: r in groups[i].refs <==>
      Exists(objects, r) && r in placed && OutputName(objects, r) == groups[i].name
  {
    var refs := AllRefs(objects);
    RefsAreSections(objects, |objects|);
    assert Distinct(refs);
    MembersAre(objects, placed, groups[i].name, refs);
    forall k | 0 <= k < |groups[i].refs| ensures Exists(objects, groups[i].refs[k]) {
      assert groups[i].refs[k] in groups[i].refs;
    }
  }

  ghost predicate GroupsPlaced(objects: seq<Object>, groups: seq<Group>, n: nat, outs: seq<Out>,
          spots: map<Ref, Address>)
    requires n <= |groups|
  {
    && |outs| == n
    && (forall k :: 0 <= k < n ==> GroupAt(objects, groups[k], k, outs[k], spots))
    && (forall r :: r in spots ==> Grouped(groups, n, r))
  }

  /** The groups laid out before keep their place. */
  lemma EarlierKept(objects: seq<Object>, placed: set<Ref>, groups: seq<Group>, n: nat, outs: seq<Out>,
          spots: map<Ref, Address>, more: map<Ref, Address>, k: nat)
    requires GroupsOk(objects, placed, AllRefs(objects), groups) && k < n < |groups|
    requires GroupsPlaced(objects, groups, n, outs, spots)
    requires forall r :: r in spots && r !in groups[n].refs ==> r in more && more[r] == spots[r]
    ensures GroupAt(objects, groups[k], k, outs[k], more)
  {
    GroupsApart(objects, placed, groups, k);
    GroupsApart(objects, placed, groups, n);
    var group := groups[k];
    forall r | r in group.refs ensures r in more && more[r] == spots[r] {
      assert r !in groups[n].refs;
      assert GroupAt(objects, group, k, outs[k], spots);
    }
    GroupAtKept(objects, group, k, outs[k], spots, more);
  }

  ghost predicate Grouped(groups: seq<Group>, n: nat, r: Ref)
    requires n <= |groups|
  {
    exists k :: 0 <= k < n && r in groups[k].refs
  }

  /** Adding the spots of group `n`. */
  function WithSpots(spots: map<Ref, Address>, n: nat, local: map<Ref, int>): (more: map<Ref, Address>)
    ensures forall r :: r in more <==> r in spots || r in local
    ensures forall r :: r in local ==> more[r] == Address(n, local[r])
    ensures forall r :: r in spots && r !in local ==> more[r] == spots[r]
  {
    spots + map r | r in local :: Address(n, local[r])
  }

  lemma PlacedNext(objects: seq<Object>, placed: set<Ref>, groups: seq<Group>, n: nat, outs: seq<Out>,
          spots: map<Ref, Address>, out: Out, local: map<Ref, int>)
    requires GroupsOk(objects, placed, AllRefs(objects), groups) && n < |groups|
    requires GroupsPlaced(objects, groups, n, outs, spots)
    requires AllExist(objects, groups[n].refs) && GroupPlaced(objects, groups[n], out, local)
    ensures GroupsPlaced(objects, groups, n + 1, outs + [out], WithSpots(spots, n, local))
  {
    var more, now := WithSpots(spots, n, local), outs + [out];
    forall k | 0 <= k < n + 1 ensures GroupAt(objects, groups[k], k, now[k], more) {
      if k < n {
        EarlierKept(objects, placed, groups, n, outs, spots, more, k);
      } else {
        GroupAtNew(objects, groups[n], n, out, local, more);
      }
    }
    forall r | r in more ensures Grouped(groups, n + 1, r) {
      if r !in local { assert Grouped(groups, n, r); }
    }
  }

  /** The placement loop over all outputs. */
  method PlaceGroups(objects: seq<Object>, placed: set<Ref>, groups: seq<Group>)
    returns (outs: seq<Out>, spots: map<Ref, Address>)
    requires Sized(objects) && GroupsOk(objects, placed, AllRefs(objects), groups)
    ensures GroupsPlaced(objects, groups, |groups|, outs, spots)
  {
    outs, spots := [], map[];
    for n := 0 to |groups|
      invariant GroupsPlaced(objects, groups, n, outs, spots)
    {
      GroupsApart(objects, placed, groups, n);
      var out, local := PlaceGroup(objects, groups[n]);
      PlacedNext(objects, placed, groups, n, outs, spots, out, local);
      outs, spots := outs + [out], WithSpots(spots, n, local);
    }
  }
}
