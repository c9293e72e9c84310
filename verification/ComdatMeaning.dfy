/**
 Duplicate COMDAT selection read off the fields of the sections: which sections compete, which
 groups can be resolved and which section each policy keeps.
 */
module ComdatMeaning {
  import opened Basics
  import opened Coff
  import opened Comdat
  import opened Words

  // ---------- sections and sizes ----------

  /** Neither the file bytes nor the image bytes of a section are more than `n`, and one of them are `n`. */
  ghost predicate Spans(section: Section, n: int) {
    && section.virtualSize <= n && |section.data| <= n
    && (section.virtualSize == n || |section.data| == n)
  }

  lemma SpansLogicalSize(section: Section, n: int)
    ensures Spans(section, n) <==> n == LogicalSize(section)
  {
  }

  lemma Bits(word: int)
    ensures Bit(word, 12) <==> HasFlag(word, 0x1000)
    ensures Bit(word, 11) <==> HasFlag(word, 0x800)
  {
    FourUp(word, 8);
    FourUp(word / 16, 4);
    FourUp(word / 0x100, 0);
    FourUp(word, 7);
    FourUp(word / 16, 3);
    assert Bit(word / 0x100, 3) <==> Bit(word / 0x800, 0);
  }

  /**
   Competing are the COMDATs with a leader name, whether the characteristics or a selection number
   makes them COMDATs, except the associative ones (selection 5).
   */
  lemma Candidates(section: Section)
    ensures IsComdat(section) <==> Bit(section.characteristics, 12) || section.selection != 0
    ensures IsFollower(section) <==> section.selection == 5
    ensures IsCandidate(section) <==>
      && (Bit(section.characteristics, 12) || section.selection != 0)
      && section.selection != 5 && section.leader != ""
  {
    Bits(section.characteristics);
  }

  /** Directives, CodeView records and sections marked for removal (bit 11) never reach the image. */
  lemma Discarded(section: Section)
    ensures LinkerDiscarded(section) <==>
      || section.name == ".drectve" || Bit(section.characteristics, 11)
      || exists rest :: section.name == ".debug" + rest
  {
    Bits(section.characteristics);
    if ".debug" <= section.name {
      assert section.name == ".debug" + section.name[6..];
    }
  }

  // ---------- equal contents ----------

  /** Entry `index` of the symbol table has this name; an index outside the table has none. */
  ghost predicate Names(o: Object, index: int, name: string) {
    if 0 <= index && index < |o.symbols| then o.symbols[index].name == name else name == ""
  }

  /** The two relocations patch the same place in the same way and name the same symbol. */
  ghost predicate SameRelocation(o: Object, r: Relocation, p: Object, s: Relocation) {
    r.address == s.address && r.kind == s.kind && exists name :: Names(o, r.symbol, name) && Names(p, s.symbol, name)
  }

  /**
   Two sections of equal contents: the same bytes, the same image size, relocations that agree one
   by one, and checksums that agree where both have one.
   */
  ghost predicate Alike(o: Object, x: Section, p: Object, y: Section) {
    && x.data == y.data && (x.virtualSize == y.virtualSize || (x.virtualSize <= |x.data| && y.virtualSize <= |y.data|))
    && (x.checksum == 0 || y.checksum == 0 || x.checksum == y.checksum)
    && |x.relocations| == |y.relocations|
    && forall i :: 0 <= i < |x.relocations| ==> SameRelocation(o, x.relocations[i], p, y.relocations[i])
  }

  lemma SameTarget(o: Object, r: Relocation, p: Object, s: Relocation)
    ensures (exists name :: Names(o, r.symbol, name) && Names(p, s.symbol, name)) <==>
      TargetName(o, r) == TargetName(p, s)
  {
    assert forall name :: Names(o, r.symbol, name) <==> name == TargetName(o, r);
    assert forall name :: Names(p, s.symbol, name) <==> name == TargetName(p, s);
    assert Names(o, r.symbol, TargetName(o, r));
  }

  lemma ExactMatchIsAlike(objects: seq<Object>, a: Ref, b: Ref)
    requires Exists(objects, a) && Exists(objects, b)
    ensures ExactMatch(objects, a, b) <==>
      Alike(objects[a.obj], At(objects, a), objects[b.obj], At(objects, b))
  {
    var o, p, x, y := objects[a.obj], objects[b.obj], At(objects, a), At(objects, b);
    forall i | 0 <= i < |x.relocations| && i < |y.relocations|
      ensures SameRelocation(o, x.relocations[i], p, y.relocations[i]) <==>
        && x.relocations[i].address == y.relocations[i].address && x.relocations[i].kind == y.relocations[i].kind
        && TargetName(o, x.relocations[i]) == TargetName(p, y.relocations[i]) {
      SameTarget(o, x.relocations[i], p, y.relocations[i]);
    }
  }

  // ---------- groups ----------

  /** Every section of the group carries one of these selection numbers. */
  ghost predicate Marked(objects: seq<Object>, group: seq<Ref>, numbers: set<int>)
    requires AllExist(objects, group)
  {
    forall i :: 0 <= i < |group| ==> At(objects, group[i]).selection in numbers
  }

  lemma MarkedAre(objects: seq<Object>, group: seq<Ref>)
    requires AllExist(objects, group)
    ensures AllUse(objects, group, {SelectAny, SelectLargest}) <==> Marked(objects, group, {0, 2, 6})
    ensures AllUse(objects, group, {SelectAny}) <==> Marked(objects, group, {0, 2})
    ensures AllUse(objects, group, {SelectSameSize}) <==> Marked(objects, group, {3})
    ensures AllUse(objects, group, {SelectExactMatch}) <==> Marked(objects, group, {4})
    ensures AllUse(objects, group, {SelectLargest}) <==> Marked(objects, group, {6})
    ensures AllUse(objects, group, {SelectNewest}) <==> Marked(objects, group, {7})
  {
    assert forall i :: 0 <= i < |group| ==>
        EffectiveSelection(At(objects, group[i])) ==
          if At(objects, group[i]).selection == 0 then 2 else At(objects, group[i]).selection;
  }

  /** All sections of the group span `n` bytes. */
  ghost predicate AllSpan(objects: seq<Object>, group: seq<Ref>, n: int)
    requires AllExist(objects, group)
  {
    forall i :: 0 <= i < |group| ==> Spans(At(objects, group[i]), n)
  }

  ghost predicate OfOneSize(objects: seq<Object>, group: seq<Ref>)
    requires AllExist(objects, group)
  {
    exists n :: AllSpan(objects, group, n)
  }

  /** Each section of the group is like the first. */
  ghost predicate AllAlike(objects: seq<Object>, group: seq<Ref>)
    requires AllExist(objects, group)
  {
    forall i :: 0 < i < |group| ==>
      Alike(objects[group[0].obj], At(objects, group[0]), objects[group[i].obj], At(objects, group[i]))
  }

  /**
   A group of sections with one leader name is resolved if and only if it is a single section, or
   its selection numbers are all NEWEST (7), a mix of none, ANY and LARGEST (0, 2, 6), all
   SAME_SIZE (3) with one size, or all EXACT_MATCH (4) with equal contents. NODUPLICATES (1) and
   any other number or mix fail.
   */
  lemma GroupResolves(objects: seq<Object>, group: seq<Ref>)
    requires AllExist(objects, group) && group != []
    ensures Leader(objects, group).Ok? <==>
      || |group| == 1 || Marked(objects, group, {0, 2, 6}) || Marked(objects, group, {7})
      || (Marked(objects, group, {3}) && OfOneSize(objects, group))
      || (Marked(objects, group, {4}) && AllAlike(objects, group))
  {
    LeaderIsWinner(objects, group);
    MarkedAre(objects, group);
    OneSize(objects, group);
    forall i | 0 < i < |group|
      ensures ExactMatch(objects, group[0], group[i]) <==>
        Alike(objects[group[0].obj], At(objects, group[0]), objects[group[i].obj], At(objects, group[i])) {
      ExactMatchIsAlike(objects, group[0], group[i]);
    }
  }

  lemma OneSize(objects: seq<Object>, group: seq<Ref>)
    requires AllExist(objects, group) && group != []
    ensures OfOneSize(objects, group) <==> SameSizes(objects, group)
  {
    forall i, n | 0 <= i < |group|
      ensures Spans(At(objects, group[i]), n) <==> n == LogicalSize(At(objects, group[i])) {
      SpansLogicalSize(At(objects, group[i]), n);
    }
    var size := LogicalSize(At(objects, group[0]));
    if SameSizes(objects, group) { assert AllSpan(objects, group, size); }
  }

  /** The section at `k` spans `n` bytes, the most of the group, and everything before it spans fewer. */
  ghost predicate FirstLargest(objects: seq<Object>, group: seq<Ref>, k: int, n: int)
    requires AllExist(objects, group) && 0 <= k < |group|
  {
    Spans(At(objects, group[k]), n) && forall i :: 0 <= i < |group| ==>
      var s := At(objects, group[i]);
      if i < k then s.virtualSize < n && |s.data| < n else s.virtualSize <= n && |s.data| <= n
  }

  /** `w` spans `n` bytes, and neither the first section nor any LARGEST one spans more. */
  ghost predicate NotBelow(objects: seq<Object>, group: seq<Ref>, w: Ref, n: int)
    requires AllExist(objects, group)
  {
    Exists(objects, w) && Spans(At(objects, w), n) && forall i :: 0 <= i < |group| ==>
      var s := At(objects, group[i]);
      i == 0 || s.selection == 6 ==> s.virtualSize <= n && |s.data| <= n
  }

  /** The winner of a group, by selection number. */
  ghost predicate Wins(objects: seq<Object>, group: seq<Ref>, w: Ref)
    requires AllExist(objects, group) && group != []
  {
    && (Marked(objects, group, {0, 2}) || Marked(objects, group, {3}) || Marked(objects, group, {4}) ==> w == group[0])
    && (Marked(objects, group, {7}) ==> w == group[|group| - 1])
    && (Marked(objects, group, {6}) ==>
         exists k, n :: 0 <= k < |group| && group[k] == w && FirstLargest(objects, group, k, n))
    && (Marked(objects, group, {0, 2, 6}) ==> exists n :: NotBelow(objects, group, w, n))
  }

  lemma WinnerWins(objects: seq<Object>, group: seq<Ref>, w: Ref)
    requires AllExist(objects, group) && group != [] && PolicyWinner(objects, group, w)
    ensures Wins(objects, group, w)
  {
    MarkedAre(objects, group);
    if Marked(objects, group, {6}) {
      var k :| 0 <= k < |group| && group[k] == w && LargestAt(objects, group, k);
      assert FirstLargest(objects, group, k, LogicalSize(At(objects, w)));
    }
    if Marked(objects, group, {0, 2, 6}) { assert NotBelow(objects, group, w, LogicalSize(At(objects, w))); }
  }

  /** The sections that compete under one leader name. */
  lemma Competing(objects: seq<Object>, name: string, r: Ref)
    requires AllExist(objects, AllRefs(objects))
    ensures r in Group(objects, AllRefs(objects), name) <==>
      && Exists(objects, r) && At(objects, r).leader == name && name != "" && At(objects, r).selection != 5
      && (Bit(At(objects, r).characteristics, 12) || At(objects, r).selection != 0)
  {
    GroupMembers(objects, AllRefs(objects), name);
    RefsAreSections(objects, |objects|);
    if Exists(objects, r) { Candidates(At(objects, r)); }
  }

  /**
   Selection keeps exactly one section of every leader name: the first under ANY, SAME_SIZE and
   EXACT_MATCH, the last under NEWEST, the first of the largest under LARGEST, and under a mix of
   ANY and LARGEST one that no LARGEST section exceeds.
   */
  lemma GroupKeeps(objects: seq<Object>, kept: set<Ref>, name: string) returns (w: Ref)
    requires Selected(objects, kept) && AllExist(objects, AllRefs(objects))
    requires Group(objects, AllRefs(objects), name) != []
    ensures var group := Group(objects, AllRefs(objects), name);
      && w in group && (forall x :: x in group && x in kept <==> x == w) && Wins(objects, group, w)
  {
    var group := Group(objects, AllRefs(objects), name);
    assert OneWinner(objects, kept, group);
    w :| w in group && w in kept && PolicyWinner(objects, group, w) && forall x :: x in group && x in kept ==> x == w;
    WinnerWins(objects, group, w);
  }

  // ---------- associative sections ----------

  /** An associative section (selection 5) carries the number of its parent, counted from 1 in its own object. */
  ghost predicate IsParent(objects: seq<Object>, r: Ref, parent: Ref)
    requires Exists(objects, r)
  {
    Exists(objects, parent) && parent.obj == r.obj && At(objects, r).associative == parent.sec + 1
  }

  ghost predicate NamesParent(objects: seq<Object>, r: Ref)
    requires Exists(objects, r)
  {
    exists parent :: IsParent(objects, r, parent)
  }

  /** Selection asks every associative section for a parent. */
  lemma ParentsNamedIff(objects: seq<Object>)
    requires AllExist(objects, AllRefs(objects))
    ensures ParentsNamed(objects, AllRefs(objects)) <==>
      forall r :: Exists(objects, r) && At(objects, r).selection == 5 ==> NamesParent(objects, r)
  {
    RefsAreSections(objects, |objects|);
    var refs := AllRefs(objects);
    if ParentsNamed(objects, refs) {
      forall r | Exists(objects, r) && At(objects, r).selection == 5 ensures NamesParent(objects, r) {
        var i :| 0 <= i < |refs| && refs[i] == r;
        assert IsParent(objects, r, Ref(r.obj, At(objects, r).associative - 1));
      }
    }
    if forall r :: Exists(objects, r) && At(objects, r).selection == 5 ==> NamesParent(objects, r) {
      forall i | 0 <= i < |refs| && IsFollower(At(objects, refs[i])) ensures HasParent(objects, refs[i]) {
        assert NamesParent(objects, refs[i]);
      }
    }
  }

  /** An associative section is kept exactly with the section of its object that its number names. */
  lemma FollowsParent(objects: seq<Object>, kept: set<Ref>, r: Ref)
    requires Selected(objects, kept) && Exists(objects, r) && At(objects, r).selection == 5
    ensures NamesParent(objects, r) && forall parent :: IsParent(objects, r, parent) ==> (r in kept <==> parent in kept)
  {
    assert IsFollower(At(objects, r)) && HasParent(objects, r);
    assert IsParent(objects, r, Parent(objects, r));
  }

  /** Whatever neither competes nor is associative is kept. */
  lemma OthersKept(objects: seq<Object>, kept: set<Ref>, r: Ref)
    requires Selected(objects, kept) && Exists(objects, r) && At(objects, r).selection != 5
    requires At(objects, r).leader == "" || (!Bit(At(objects, r).characteristics, 12) && At(objects, r).selection == 0)
    ensures r in kept
  {
    Candidates(At(objects, r));
  }
}
