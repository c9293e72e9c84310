/**
 Duplicate COMDAT selection (select_coff_sections).

 Candidates are taken in input order; the first one of each leader name becomes its leader and
 every later one is compared with the current leader.
 */
module Comdat {
  import opened Basics
  import opened Coff

  function EffectiveSelection(section: Section): int {
    if section.selection != 0 then section.selection else SelectAny
  }

  /** Only COMDATs keyed by an external leader take part. */
  predicate IsCandidate(section: Section) {
    IsComdat(section) && section.selection != SelectAssociative && section.leader != ""
  }

  function TargetName(o: Object, relocation: Relocation): string {
    if 0 <= relocation.symbol < |o.symbols| then o.symbols[relocation.symbol].name else ""
  }

  predicate ExactMatch(objects: seq<Object>, a: Ref, b: Ref)
    requires Exists(objects, a) && Exists(objects, b)
  {
    var x, y := At(objects, a), At(objects, b);
    && LogicalSize(x) == LogicalSize(y) && x.data == y.data
    && |x.relocations| == |y.relocations|
    && !(x.checksum != 0 && y.checksum != 0 && x.checksum != y.checksum)
    && forall i :: 0 <= i < |x.relocations| ==>
         && x.relocations[i].address == y.relocations[i].address && x.relocations[i].kind == y.relocations[i].kind
         && TargetName(objects[a.obj], x.relocations[i]) == TargetName(objects[b.obj], y.relocations[i])
  }

  /** The policy of `p` against `c`: ANY against LARGEST counts as LARGEST. */
  function PairSelection(p: Section, c: Section): int {
    if EffectiveSelection(p) == SelectAny && EffectiveSelection(c) == SelectLargest then SelectLargest
    else EffectiveSelection(p)
  }

  /** Whether `current` replaces the leader `prior`, or the error the pair raises. */
  function Prefer(objects: seq<Object>, prior: Ref, current: Ref): Result<bool>
    requires Exists(objects, prior) && Exists(objects, current)
  {
    var p, c := At(objects, prior), At(objects, current);
    var ps, cs := PairSelection(p, c), PairSelection(c, p);
    if ps == SelectNoDuplicates || cs == SelectNoDuplicates
      then Err("duplicate COMDAT prohibited by NODUPLICATES: " + c.leader)
    else if ps != cs then Err("conflicting COMDAT selection policies for: " + c.leader)
    else if ps == SelectAny then Ok(false)
    else if ps == SelectSameSize then
      if LogicalSize(p) != LogicalSize(c) then Err("COMDAT SAME_SIZE mismatch for: " + c.leader) else Ok(false)
    else if ps == SelectExactMatch then
      if !ExactMatch(objects, prior, current) then Err("COMDAT EXACT_MATCH mismatch for: " + c.leader) else Ok(false)
    else if ps == SelectLargest then Ok(LogicalSize(c) > LogicalSize(p))
    else if ps == SelectNewest then Ok(true)
    else Err("unsupported COMDAT selection policy for: " + c.leader)
  }

  // ---------- what selection means ----------

  /** The candidates with this leader name, in input order. */
  ghost function Group(objects: seq<Object>, refs: seq<Ref>, name: string): (g: seq<Ref>)
    requires AllExist(objects, refs)
    ensures AllExist(objects, g)
  {
    if refs == [] then []
    else
      var r := refs[|refs| - 1];
      var g := Group(objects, refs[..|refs| - 1], name);
      if IsCandidate(At(objects, r)) && At(objects, r).leader == name then g + [r] else g
  }

  /** The leader after comparing the members of a group one by one. */
  ghost function Leader(objects: seq<Object>, group: seq<Ref>): (w: Result<Ref>)
    requires AllExist(objects, group) && group != []
    ensures w.Ok? ==> Exists(objects, w.value)
  {
    if |group| == 1 then Ok(group[0])
    else
      match Leader(objects, group[..|group| - 1])
      case Err(m) => Err(m)
      case Ok(prior) =>
        match Prefer(objects, prior, group[|group| - 1])
        case Err(m) => Err(m)
        case Ok(choose) => Ok(if choose then group[|group| - 1] else prior)
  }

  lemma {:induction false} GroupMembers(objects: seq<Object>, refs: seq<Ref>, name: string)
    requires AllExist(objects, refs)
    ensures forall r :: r in Group(objects, refs, name) <==>
      r in refs && IsCandidate(At(objects, r)) && At(objects, r).leader == name
  {
    if refs != [] {
      GroupMembers(objects, refs[..|refs| - 1], name);
      assert refs == refs[..|refs| - 1] + [refs[|refs| - 1]];
    }
  }

  lemma {:induction false} LeaderMember(objects: seq<Object>, group: seq<Ref>)
    requires AllExist(objects, group) && group != [] && Leader(objects, group).Ok?
    ensures Leader(objects, group).value in group
  {
    if |group| > 1 { LeaderMember(objects, group[..|group| - 1]); }
  }

  ghost predicate AllUse(objects: seq<Object>, group: seq<Ref>, selections: set<int>)
    requires AllExist(objects, group)
  {
    forall i :: 0 <= i < |group| ==> EffectiveSelection(At(objects, group[i])) in selections
  }

  /** No member is larger than the one at `k`, and every earlier one is strictly smaller. */
  ghost predicate LargestAt(objects: seq<Object>, group: seq<Ref>, k: int)
    requires AllExist(objects, group) && 0 <= k < |group|
  {
    forall i :: 0 <= i < |group| ==>
      if i < k then LogicalSize(At(objects, group[i])) < LogicalSize(At(objects, group[k]))
      else LogicalSize(At(objects, group[i])) <= LogicalSize(At(objects, group[k]))
  }

  ghost predicate EarliestLargest(objects: seq<Object>, group: seq<Ref>, w: Ref)
    requires AllExist(objects, group)
  {
    exists k :: 0 <= k < |group| && group[k] == w && LargestAt(objects, group, k)
  }

  /** The winner each policy promises. */
  ghost predicate PolicyWinner(objects: seq<Object>, group: seq<Ref>, w: Ref)
    requires AllExist(objects, group) && group != []
  {
    && (AllUse(objects, group, {SelectAny}) ==> w == group[0])
    && (AllUse(objects, group, {SelectSameSize}) ==> w == group[0])
    && (AllUse(objects, group, {SelectExactMatch}) ==> w == group[0])
    && (AllUse(objects, group, {SelectNewest}) ==> w == group[|group| - 1])
    && (AllUse(objects, group, {SelectLargest}) ==> EarliestLargest(objects, group, w))
    && (AllUse(objects, group, {SelectAny, SelectLargest}) ==> NoLarger(objects, group, w))
  }

  /** Neither the first member nor any LARGEST one is larger. */
  ghost predicate NoLarger(objects: seq<Object>, group: seq<Ref>, w: Ref)
    requires AllExist(objects, group)
  {
    Exists(objects, w) && forall i ::
      0 <= i < |group| && (i == 0 || EffectiveSelection(At(objects, group[i])) == SelectLargest) ==>
      LogicalSize(At(objects, group[i])) <= LogicalSize(At(objects, w))
  }

  lemma UseOfPrefix(objects: seq<Object>, group: seq<Ref>, selections: set<int>)
    requires AllExist(objects, group) && |group| > 1
    ensures AllExist(objects, group[..|group| - 1])
    ensures AllUse(objects, group, selections) <==>
      AllUse(objects, group[..|group| - 1], selections)
        && EffectiveSelection(At(objects, group[|group| - 1])) in selections
  {
    var before := group[..|group| - 1];
    assert group == before + [group[|group| - 1]];
    assert forall i :: 0 <= i < |before| ==> before[i] == group[i];
  }

  lemma {:induction false} AnyLeader(objects: seq<Object>, group: seq<Ref>)
    requires AllExist(objects, group) && group != [] && AllUse(objects, group, {SelectAny})
    ensures Leader(objects, group) == Ok(group[0])
  {
    if |group| > 1 {
      UseOfPrefix(objects, group, {SelectAny});
      AnyLeader(objects, group[..|group| - 1]);
    }
  }

  lemma {:induction false} NewestLeader(objects: seq<Object>, group: seq<Ref>)
    requires AllExist(objects, group) && group != [] && AllUse(objects, group, {SelectNewest})
    ensures Leader(objects, group) == Ok(group[|group| - 1])
  {
    if |group| > 1 {
      UseOfPrefix(objects, group, {SelectNewest});
      NewestLeader(objects, group[..|group| - 1]);
    }
  }

  lemma {:induction false} LargestLeader(objects: seq<Object>, group: seq<Ref>) returns (k: nat)
    requires AllExist(objects, group) && group != [] && AllUse(objects, group, {SelectLargest})
    ensures k < |group| && Leader(objects, group) == Ok(group[k]) && LargestAt(objects, group, k)
  {
    k := 0;
    if |group| > 1 {
      var before, n := group[..|group| - 1], |group| - 1;
      UseOfPrefix(objects, group, {SelectLargest});
      k := LargestLeader(objects, before);
      assert forall i :: 0 <= i < n ==> before[i] == group[i];
      if LogicalSize(At(objects, group[n])) > LogicalSize(At(objects, group[k])) { k := n; }
    }
  }

  /** Mixed ANY and LARGEST never fail, and no LARGEST member beats the leader. */
  lemma {:induction false} MixedLeader(objects: seq<Object>, group: seq<Ref>)
    requires AllExist(objects, group) && group != [] && AllUse(objects, group, {SelectAny, SelectLargest})
    ensures Leader(objects, group).Ok? && NoLarger(objects, group, Leader(objects, group).value)
  {
    if |group| > 1 {
      var before := group[..|group| - 1];
      UseOfPrefix(objects, group, {SelectAny, SelectLargest});
      MixedLeader(objects, before);
      LeaderMember(objects, before);
      assert forall i :: 0 <= i < |before| ==> before[i] == group[i];
    }
  }

  ghost predicate SameSizes(objects: seq<Object>, group: seq<Ref>)
    requires AllExist(objects, group)
  {
    forall i :: 0 <= i < |group| ==> LogicalSize(At(objects, group[i])) == LogicalSize(At(objects, group[0]))
  }

  lemma {:induction false} SameSizeLeader(objects: seq<Object>, group: seq<Ref>)
    requires AllExist(objects, group) && group != [] && AllUse(objects, group, {SelectSameSize})
    ensures Leader(objects, group).Ok? <==> SameSizes(objects, group)
    ensures Leader(objects, group).Ok? ==> Leader(objects, group).value == group[0]
  {
    if |group| > 1 {
      var before := group[..|group| - 1];
      UseOfPrefix(objects, group, {SelectSameSize});
      SameSizeLeader(objects, before);
      assert forall i :: 0 <= i < |before| ==> before[i] == group[i];
    }
  }

  ghost predicate AllMatchFirst(objects: seq<Object>, group: seq<Ref>)
    requires AllExist(objects, group)
  {
    forall i :: 0 < i < |group| ==> ExactMatch(objects, group[0], group[i])
  }

  lemma {:induction false} ExactLeader(objects: seq<Object>, group: seq<Ref>)
    requires AllExist(objects, group) && group != [] && AllUse(objects, group, {SelectExactMatch})
    ensures Leader(objects, group).Ok? <==> AllMatchFirst(objects, group)
    ensures Leader(objects, group).Ok? ==> Leader(objects, group).value == group[0]
  {
    if |group| > 1 {
      var before := group[..|group| - 1];
      UseOfPrefix(objects, group, {SelectExactMatch});
      ExactLeader(objects, before);
      assert forall i :: 0 <= i < |before| ==> before[i] == group[i];
    }
  }

  /** The families of policies that may meet in one group. */
  ghost predicate OneFamily(objects: seq<Object>, group: seq<Ref>)
    requires AllExist(objects, group)
  {
    || AllUse(objects, group, {SelectAny, SelectLargest}) || AllUse(objects, group, {SelectNewest})
    || AllUse(objects, group, {SelectSameSize}) || AllUse(objects, group, {SelectExactMatch})
  }

  lemma {:induction false} LeaderNeedsFamily(objects: seq<Object>, group: seq<Ref>)
    requires AllExist(objects, group) && |group| > 1 && Leader(objects, group).Ok?
    ensures OneFamily(objects, group)
  {
    var before := group[..|group| - 1];
    UseOfPrefix(objects, group, {SelectAny, SelectLargest});
    UseOfPrefix(objects, group, {SelectNewest});
    UseOfPrefix(objects, group, {SelectSameSize});
    UseOfPrefix(objects, group, {SelectExactMatch});
    if |before| > 1 { LeaderNeedsFamily(objects, before); }
    var prior := Leader(objects, before).value;
    LeaderMember(objects, before);
    assert exists i :: 0 <= i < |before| && before[i] == prior;
  }

  /** The groups that can be resolved, policy by policy. */
  ghost predicate Resolvable(objects: seq<Object>, group: seq<Ref>)
    requires AllExist(objects, group)
  {
    || |group| <= 1
    || AllUse(objects, group, {SelectAny, SelectLargest})
    || AllUse(objects, group, {SelectNewest})
    || (AllUse(objects, group, {SelectSameSize}) && SameSizes(objects, group))
    || (AllUse(objects, group, {SelectExactMatch}) && AllMatchFirst(objects, group))
  }

  /** Comparing one by one succeeds exactly on the resolvable groups and finds the promised winner. */
  lemma LeaderIsWinner(objects: seq<Object>, group: seq<Ref>)
    requires AllExist(objects, group) && group != []
    ensures Leader(objects, group).Ok? <==> Resolvable(objects, group)
    ensures Leader(objects, group).Ok? ==> PolicyWinner(objects, group, Leader(objects, group).value)
  {
    if AllUse(objects, group, {SelectAny}) { AnyLeader(objects, group); }
    if AllUse(objects, group, {SelectLargest}) { var _ := LargestLeader(objects, group); }
    if AllUse(objects, group, {SelectAny, SelectLargest}) { MixedLeader(objects, group); }
    if AllUse(objects, group, {SelectNewest}) { NewestLeader(objects, group); }
    if AllUse(objects, group, {SelectSameSize}) { SameSizeLeader(objects, group); }
    if AllUse(objects, group, {SelectExactMatch}) { ExactLeader(objects, group); }
    if |group| > 1 && Leader(objects, group).Ok? { LeaderNeedsFamily(objects, group); }
  }

  // ---------- prefixes of the input ----------

  /** Reading one more section leaves every group as it was, except that of its own leader. */
  lemma GroupStep(objects: seq<Object>, done: seq<Ref>, r: Ref, name: string)
    requires AllExist(objects, done) && Exists(objects, r)
    ensures AllExist(objects, done + [r])
    ensures Group(objects, done + [r], name) ==
      Group(objects, done, name) + if IsCandidate(At(objects, r)) && At(objects, r).leader == name then [r] else []
  {
    assert (done + [r])[..|done|] == done;
  }

  lemma {:induction false} GroupPrefix(objects: seq<Object>, refs: seq<Ref>, k: nat, name: string)
    requires AllExist(objects, refs) && k <= |refs|
    ensures AllExist(objects, refs[..k]) && Group(objects, refs[..k], name) <= Group(objects, refs, name)
    decreases |refs| - k
  {
    if k < |refs| {
      assert refs[..k + 1] == refs[..k] + [refs[k]];
      GroupStep(objects, refs[..k], refs[k], name);
      GroupPrefix(objects, refs, k + 1, name);
    } else {
      assert refs[..k] == refs;
    }
  }

  /** A group that fails early fails for good. */
  lemma {:induction false} LeaderPrefix(objects: seq<Object>, group: seq<Ref>, m: nat)
    requires AllExist(objects, group) && 0 < m <= |group| && Leader(objects, group[..m]).Err?
    ensures Leader(objects, group).Err?
  {
    if m < |group| {
      var before := group[..|group| - 1];
      assert before[..m] == group[..m];
      LeaderPrefix(objects, before, m);
    } else {
      assert group[..m] == group;
    }
  }

  /** The outcome of comparing all sections led by `name`. */
  ghost function LeaderOf(objects: seq<Object>, refs: seq<Ref>, name: string): Result<Ref>
    requires AllExist(objects, refs)
  {
    var group := Group(objects, refs, name);
    if group == [] then Err("no candidate") else Leader(objects, group)
  }

  /** `leaders` holds the leader of every group seen so far. */
  ghost predicate LeadersOk(objects: seq<Object>, done: seq<Ref>, leaders: map<string, Ref>)
    requires AllExist(objects, done)
  {
    forall name ::
      && (name in leaders <==> Group(objects, done, name) != [])
      && (name in leaders ==> LeaderOf(objects, done, name) == Ok(leaders[name]))
  }

  /** `lost` holds the candidates seen so far that are not leaders. */
  ghost predicate LostOk(objects: seq<Object>, done: seq<Ref>, leaders: map<string, Ref>, lost: set<Ref>)
    requires AllExist(objects, done)
  {
    forall x :: x in lost <==>
      x in done && IsCandidate(At(objects, x))
        && !(At(objects, x).leader in leaders && leaders[At(objects, x).leader] == x)
  }

  lemma ReadOther(objects: seq<Object>, done: seq<Ref>, r: Ref, leaders: map<string, Ref>)
    requires AllExist(objects, done) && Exists(objects, r) && !IsCandidate(At(objects, r))
    requires LeadersOk(objects, done, leaders)
    ensures AllExist(objects, done + [r]) && LeadersOk(objects, done + [r], leaders)
  {
    forall n ensures AllExist(objects, done + [r]) && Group(objects, done + [r], n) == Group(objects, done, n) {
      GroupStep(objects, done, r, n);
    }
  }

  lemma ReadFirst(objects: seq<Object>, done: seq<Ref>, r: Ref, leaders: map<string, Ref>)
    requires AllExist(objects, done) && Exists(objects, r) && IsCandidate(At(objects, r))
    requires LeadersOk(objects, done, leaders)
    requires At(objects, r).leader !in leaders
    ensures AllExist(objects, done + [r]) && LeadersOk(objects, done + [r], leaders[At(objects, r).leader := r])
  {
    forall n ensures AllExist(objects, done + [r])
      && Group(objects, done + [r], n) == Group(objects, done, n) + if At(objects, r).leader == n then [r] else [] {
      GroupStep(objects, done, r, n);
    }
  }

  /** The leader of a group after one more member. */
  lemma LeaderStep(objects: seq<Object>, group: seq<Ref>, r: Ref)
    requires AllExist(objects, group) && group != [] && Exists(objects, r) && Leader(objects, group).Ok?
    ensures AllExist(objects, group + [r])
    ensures var prior := Leader(objects, group).value;
      Leader(objects, group + [r]) ==
        match Prefer(objects, prior, r)
        case Err(m) => Err(m)
        case Ok(choose) => Ok(if choose then r else prior)
  {
    assert (group + [r])[..|group|] == group;
  }

  lemma ReadNext(objects: seq<Object>, done: seq<Ref>, r: Ref, leaders: map<string, Ref>, choose: bool)
    requires AllExist(objects, done) && Exists(objects, r) && IsCandidate(At(objects, r))
    requires LeadersOk(objects, done, leaders)
    requires At(objects, r).leader in leaders && Exists(objects, leaders[At(objects, r).leader])
    requires Prefer(objects, leaders[At(objects, r).leader], r) == Ok(choose)
    ensures AllExist(objects, done + [r])
    ensures LeadersOk(objects, done + [r], if choose then leaders[At(objects, r).leader := r] else leaders)
  {
    forall n ensures AllExist(objects, done + [r])
      && Group(objects, done + [r], n) == Group(objects, done, n) + if At(objects, r).leader == n then [r] else [] {
      GroupStep(objects, done, r, n);
    }
    LeaderStep(objects, Group(objects, done, At(objects, r).leader), r);
  }

  /** A group that cannot be resolved so far cannot be resolved at all. */
  lemma StillFails(objects: seq<Object>, refs: seq<Ref>, k: nat, name: string)
    requires AllExist(objects, refs) && k <= |refs|
    requires AllExist(objects, refs[..k]) && Group(objects, refs[..k], name) != []
    requires LeaderOf(objects, refs[..k], name).Err?
    ensures Group(objects, refs, name) != [] && LeaderOf(objects, refs, name).Err?
  {
    GroupPrefix(objects, refs, k, name);
    var all, m := Group(objects, refs, name), |Group(objects, refs[..k], name)|;
    assert all[..m] == Group(objects, refs[..k], name);
    LeaderPrefix(objects, all, m);
  }

  /** Candidate `r` joins, and `w` is the leader of its name from now on; the others of the pair are lost. */
  lemma LostStep(objects: seq<Object>, done: seq<Ref>, r: Ref, leaders: map<string, Ref>, lost: set<Ref>, w: Ref)
    requires AllExist(objects, done) && Exists(objects, r) && r !in done && IsCandidate(At(objects, r))
    requires LostOk(objects, done, leaders, lost) && LedByName(objects, done, leaders)
    requires var name := At(objects, r).leader; w == r || (name in leaders && w == leaders[name])
    ensures AllExist(objects, done + [r])
    ensures var name := At(objects, r).leader;
      var pair := if name in leaders then {r, leaders[name]} else {r};
      LostOk(objects, done + [r], leaders[name := w], lost + (pair - {w}))
        && LedByName(objects, done + [r], leaders[name := w])
  {
  }

  /** Every leader is a candidate of its own name. */
  ghost predicate LedByName(objects: seq<Object>, done: seq<Ref>, leaders: map<string, Ref>)
    requires AllExist(objects, done)
  {
    forall name :: name in leaders ==>
      leaders[name] in done && IsCandidate(At(objects, leaders[name])) && At(objects, leaders[name]).leader == name
  }

  /** What selection by leader promises about the candidates it drops. */
  ghost predicate LosersOf(objects: seq<Object>, refs: seq<Ref>, lost: set<Ref>)
    requires AllExist(objects, refs)
  {
    && (forall x :: x in lost ==> x in refs && IsCandidate(At(objects, x)))
    && (forall x :: x in refs && IsCandidate(At(objects, x)) ==>
         LeaderOf(objects, refs, At(objects, x).leader).Ok?
           && (x in lost <==> LeaderOf(objects, refs, At(objects, x).leader) != Ok(x)))
  }

  lemma AllRead(objects: seq<Object>, refs: seq<Ref>, leaders: map<string, Ref>, lost: set<Ref>)
    requires AllExist(objects, refs) && LeadersOk(objects, refs, leaders) && LostOk(objects, refs, leaders, lost)
    ensures LosersOf(objects, refs, lost)
    ensures forall name :: Group(objects, refs, name) != [] ==> LeaderOf(objects, refs, name).Ok?
  {
    forall x | x in refs && IsCandidate(At(objects, x)) ensures At(objects, x).leader in leaders {
      GroupMembers(objects, refs, At(objects, x).leader);
    }
  }

  /** Everything known after the sections in `done`. */
  ghost predicate Progress(objects: seq<Object>, done: seq<Ref>, leaders: map<string, Ref>, lost: set<Ref>)
    requires AllExist(objects, done)
  {
    LeadersOk(objects, done, leaders) && LostOk(objects, done, leaders, lost) && LedByName(objects, done, leaders)
  }

  lemma ProgressFirst(objects: seq<Object>, done: seq<Ref>, r: Ref, leaders: map<string, Ref>, lost: set<Ref>)
    requires AllExist(objects, done) && Exists(objects, r) && r !in done && IsCandidate(At(objects, r))
    requires Progress(objects, done, leaders, lost) && At(objects, r).leader !in leaders
    ensures AllExist(objects, done + [r]) && Progress(objects, done + [r], leaders[At(objects, r).leader := r], lost)
  {
    ReadFirst(objects, done, r, leaders);
    LostStep(objects, done, r, leaders, lost, r);
  }

  lemma ProgressNext(objects: seq<Object>, done: seq<Ref>, r: Ref, leaders: map<string, Ref>, lost: set<Ref>,
          prior: Ref, choose: bool)
    requires AllExist(objects, done) && Exists(objects, r) && r !in done && IsCandidate(At(objects, r))
    requires Progress(objects, done, leaders, lost) && At(objects, r).leader in leaders
    requires prior == leaders[At(objects, r).leader]
    requires Exists(objects, prior) && Prefer(objects, prior, r) == Ok(choose)
    ensures AllExist(objects, done + [r])
    ensures choose ==> Progress(objects, done + [r], leaders[At(objects, r).leader := r], lost + {prior})
    ensures !choose ==> Progress(objects, done + [r], leaders, lost + {r})
  {
    if choose {
      NextLeads(objects, done, r, leaders, lost, prior);
    } else {
      NextLoses(objects, done, r, leaders, lost, prior);
    }
  }

  lemma NextLeads(objects: seq<Object>, done: seq<Ref>, r: Ref, leaders: map<string, Ref>, lost: set<Ref>, prior: Ref)
    requires AllExist(objects, done) && Exists(objects, r) && r !in done && IsCandidate(At(objects, r))
    requires Progress(objects, done, leaders, lost) && At(objects, r).leader in leaders
    requires prior == leaders[At(objects, r).leader]
    requires Exists(objects, prior) && Prefer(objects, prior, r) == Ok(true)
    ensures AllExist(objects, done + [r])
    ensures Progress(objects, done + [r], leaders[At(objects, r).leader := r], lost + {prior})
  {
    ReadNext(objects, done, r, leaders, true);
    LostStep(objects, done, r, leaders, lost, r);
    assert {r, prior} - {r} == {prior};
  }

  lemma NextLoses(objects: seq<Object>, done: seq<Ref>, r: Ref, leaders: map<string, Ref>, lost: set<Ref>, prior: Ref)
    requires AllExist(objects, done) && Exists(objects, r) && r !in done && IsCandidate(At(objects, r))
    requires Progress(objects, done, leaders, lost) && At(objects, r).leader in leaders
    requires prior == leaders[At(objects, r).leader]
    requires Exists(objects, prior) && Prefer(objects, prior, r) == Ok(false)
    ensures AllExist(objects, done + [r]) && Progress(objects, done + [r], leaders, lost + {r})
  {
    ReadNext(objects, done, r, leaders, false);
    LostStep(objects, done, r, leaders, lost, prior);
    assert {r, prior} - {prior} == {r} && leaders[At(objects, r).leader := prior] == leaders;
  }

  lemma PairFails(objects: seq<Object>, done: seq<Ref>, r: Ref, leaders: map<string, Ref>, prior: Ref)
    requires AllExist(objects, done) && Exists(objects, r) && IsCandidate(At(objects, r))
    requires LeadersOk(objects, done, leaders)
    requires At(objects, r).leader in leaders && prior == leaders[At(objects, r).leader] && Exists(objects, prior)
    requires Prefer(objects, prior, r).Err?
    ensures AllExist(objects, done + [r])
    ensures var name := At(objects, r).leader;
      Group(objects, done + [r], name) != [] && LeaderOf(objects, done + [r], name).Err?
  {
    var name := At(objects, r).leader;
    GroupStep(objects, done, r, name);
    LeaderStep(objects, Group(objects, done, name), r);
  }

  /** Candidate `r` meets the leader of its name, if there is one. */
  method Compete(objects: seq<Object>, ghost done: seq<Ref>, r: Ref, leaders: map<string, Ref>, lost: set<Ref>)
    returns (next: Result<(map<string, Ref>, set<Ref>)>)
    requires AllExist(objects, done) && Exists(objects, r) && r !in done && IsCandidate(At(objects, r))
    requires Progress(objects, done, leaders, lost)
    ensures AllExist(objects, done + [r])
    ensures next.Ok? ==> Progress(objects, done + [r], next.value.0, next.value.1)
    ensures next.Err? ==> var name := At(objects, r).leader;
      Group(objects, done + [r], name) != [] && LeaderOf(objects, done + [r], name).Err?
  {
    var name := At(objects, r).leader;
    if name !in leaders {
      ProgressFirst(objects, done, r, leaders, lost);
      return Ok((leaders[name := r], lost));
    }
    var prior := leaders[name];
    var choice := Prefer(objects, prior, r);
    if choice.Err? {
      PairFails(objects, done, r, leaders, prior);
      return Err(choice.message);
    }
    ProgressNext(objects, done, r, leaders, lost, prior, choice.value);
    next := Ok(if choice.value then (leaders[name := r], lost + {prior}) else (leaders, lost + {r}));
  }

  /** The candidates that lose against their leader. */
  method SelectLeaders(objects: seq<Object>, refs: seq<Ref>) returns (r: Result<set<Ref>>)
    requires AllExist(objects, refs) && Distinct(refs)
    ensures r.Ok? <==> forall name :: Group(objects, refs, name) != [] ==> LeaderOf(objects, refs, name).Ok?
    ensures r.Ok? ==> LosersOf(objects, refs, r.value)
  {
    var leaders: map<string, Ref> := map[];
    var lost: set<Ref> := {};
    for k := 0 to |refs|
      invariant Progress(objects, refs[..k], leaders, lost)
    {
      assert refs[..k + 1] == refs[..k] + [refs[k]];
      if !IsCandidate(At(objects, refs[k])) {
        ReadOther(objects, refs[..k], refs[k], leaders);
      } else {
        var next := Compete(objects, refs[..k], refs[k], leaders, lost);
        if next.Err? {
          StillFails(objects, refs, k + 1, At(objects, refs[k]).leader);
          return Err(next.message);
        }
        leaders, lost := next.value.0, next.value.1;
      }
    }
    assert refs[..|refs|] == refs;
    AllRead(objects, refs, leaders, lost);
    r := Ok(lost);
  }

  // ---------- followers ----------

  predicate IsFollower(section: Section) {
    section.selection == SelectAssociative
  }

  /** The parent named by an associative section, in its own object. */
  predicate HasParent(objects: seq<Object>, r: Ref)
    requires Exists(objects, r)
  {
    1 <= At(objects, r).associative <= |objects[r.obj].sections|
  }

  function Parent(objects: seq<Object>, r: Ref): (p: Ref)
    requires Exists(objects, r) && HasParent(objects, r)
    ensures Exists(objects, p)
  {
    Ref(r.obj, At(objects, r).associative - 1)
  }

  /** Following parents from `r`, `n` associations lead to a section that lost. */
  ghost predicate DoomedIn(objects: seq<Object>, lost: set<Ref>, r: Ref, n: nat)
    requires Exists(objects, r)
    decreases n
  {
    if n == 0 then r in lost
    else IsFollower(At(objects, r)) && HasParent(objects, r) && DoomedIn(objects, lost, Parent(objects, r), n - 1)
  }

  ghost predicate Doomed(objects: seq<Object>, lost: set<Ref>, r: Ref)
    requires Exists(objects, r)
  {
    exists n: nat :: DoomedIn(objects, lost, r, n)
  }

  ghost predicate ParentsNamed(objects: seq<Object>, refs: seq<Ref>)
    requires AllExist(objects, refs)
  {
    forall i :: 0 <= i < |refs| && IsFollower(At(objects, refs[i])) ==> HasParent(objects, refs[i])
  }

  lemma DoomedChild(objects: seq<Object>, lost: set<Ref>, r: Ref)
    requires Exists(objects, r) && IsFollower(At(objects, r)) && HasParent(objects, r)
    requires Doomed(objects, lost, Parent(objects, r))
    ensures Doomed(objects, lost, r)
  {
    var n: nat :| DoomedIn(objects, lost, Parent(objects, r), n);
    assert DoomedIn(objects, lost, r, n + 1);
  }

  /** A set that contains the losers and every follower of a member contains whatever is doomed. */
  lemma {:induction false} ClosedHoldsDoomed(objects: seq<Object>, lost: set<Ref>, dropped: set<Ref>, r: Ref, n: nat)
    requires Exists(objects, r) && DoomedIn(objects, lost, r, n) && lost <= dropped
    requires forall x ::
      Exists(objects, x) && IsFollower(At(objects, x)) && HasParent(objects, x) && Parent(objects, x) in dropped ==>
        x in dropped
    ensures r in dropped
    decreases n
  {
    if n > 0 { ClosedHoldsDoomed(objects, lost, dropped, Parent(objects, r), n - 1); }
  }

  /** One sweep over all sections: drops followers of dropped parents. */
  method Sweep(objects: seq<Object>, refs: seq<Ref>, lost: set<Ref>, before: set<Ref>) returns (r: Result<set<Ref>>)
    requires AllExist(objects, refs) && lost <= before
    requires forall x :: x in before ==> x in refs && Doomed(objects, lost, x)
    ensures r.Err? ==> !ParentsNamed(objects, refs)
    ensures r.Ok? ==> before <= r.value && forall x :: x in r.value ==> x in refs && Doomed(objects, lost, x)
    ensures r.Ok? && r.value == before ==> forall x :: x in refs && x !in before && IsFollower(At(objects, x)) ==>
      HasParent(objects, x) && Parent(objects, x) !in before
  {
    var dropped := before;
    for k := 0 to |refs|
      invariant before <= dropped
      invariant forall x :: x in dropped ==> x in refs && Doomed(objects, lost, x)
      invariant dropped == before ==> forall x :: x in refs[..k] && x !in before && IsFollower(At(objects, x)) ==>
        HasParent(objects, x) && Parent(objects, x) !in before
    {
      var x := refs[k];
      if x !in dropped && IsFollower(At(objects, x)) {
        if !HasParent(objects, x) { return Err("associative COMDAT has no valid parent"); }
        if Parent(objects, x) in dropped {
          DoomedChild(objects, lost, x);
          dropped := dropped + {x};
        }
      }
    }
    r := Ok(dropped);
  }

  /** Associative sections go when their parent goes, through nested associations. */
  method DropFollowers(objects: seq<Object>, refs: seq<Ref>, lost: set<Ref>) returns (r: Result<set<Ref>>)
    requires AllExist(objects, refs) && forall x :: Exists(objects, x) ==> x in refs
    requires forall x :: x in lost ==> x in refs && !IsFollower(At(objects, x))
    ensures r.Ok? <==> ParentsNamed(objects, refs)
    ensures r.Ok? ==> forall x :: x in r.value <==> Exists(objects, x) && Doomed(objects, lost, x)
  {
    var dropped := lost;
    forall x | x in lost ensures Doomed(objects, lost, x) { assert DoomedIn(objects, lost, x, 0); }
    ghost var universe := set x | x in refs;
    while true
      invariant lost <= dropped
      invariant forall x :: x in dropped ==> x in refs && Doomed(objects, lost, x)
      decreases universe - dropped
    {
      var next := Sweep(objects, refs, lost, dropped);
      if next.Err? { return Err(next.message); }
      if next.value == dropped { break; }
      dropped := next.value;
    }
    forall x | Exists(objects, x) && Doomed(objects, lost, x) ensures x in dropped {
      var n: nat :| DoomedIn(objects, lost, x, n);
      ClosedHoldsDoomed(objects, lost, dropped, x, n);
    }
    forall i | 0 <= i < |refs| && IsFollower(At(objects, refs[i])) ensures HasParent(objects, refs[i]) {
      if refs[i] in dropped {
        var n: nat :| DoomedIn(objects, lost, refs[i], n);
        assert n > 0;
      }
    }
    r := Ok(dropped);
  }

  // ---------- the whole selection ----------

  ghost predicate AllResolvable(objects: seq<Object>) {
    AllExist(objects, AllRefs(objects)) && forall name :: Resolvable(objects, Group(objects, AllRefs(objects), name))
  }

  function Losers(objects: seq<Object>, kept: set<Ref>): set<Ref> {
    set x | x in AllRefs(objects) && Exists(objects, x) && IsCandidate(At(objects, x)) && x !in kept
  }

  /** Exactly one member of the group is kept, and it is the one its policy promises. */
  ghost predicate OneWinner(objects: seq<Object>, kept: set<Ref>, group: seq<Ref>)
    requires AllExist(objects, group) && group != []
  {
    exists w :: w in group && w in kept && PolicyWinner(objects, group, w) && forall x :: x in group && x in kept ==>
      x == w
  }

  /**
   The sections kept by selection: one winner per leader name, every section that is neither a
   candidate nor a follower, and the followers whose chain of parents meets no losing candidate.
   */
  ghost predicate Selected(objects: seq<Object>, kept: set<Ref>) {
    && AllExist(objects, AllRefs(objects))
    && (forall x :: x in kept ==> Exists(objects, x))
    && (forall x :: Exists(objects, x) && !IsCandidate(At(objects, x)) && !IsFollower(At(objects, x)) ==> x in kept)
    && (forall x :: Exists(objects, x) && IsFollower(At(objects, x)) ==>
         && HasParent(objects, x)
         && (x in kept <==> Parent(objects, x) in kept)
         && (x in kept <==> !Doomed(objects, Losers(objects, kept), x)))
    && (forall name :: Group(objects, AllRefs(objects), name) != [] ==>
          OneWinner(objects, kept, Group(objects, AllRefs(objects), name)))
  }

  lemma WinnerOfGroup(objects: seq<Object>, refs: seq<Ref>, lost: set<Ref>, kept: set<Ref>, name: string)
    requires AllExist(objects, refs) && LosersOf(objects, refs, lost)
    requires forall x :: x in refs && IsCandidate(At(objects, x)) ==> (x in kept <==> x !in lost)
    requires Group(objects, refs, name) != []
    ensures OneWinner(objects, kept, Group(objects, refs, name))
  {
    var group := Group(objects, refs, name);
    GroupMembers(objects, refs, name);
    assert group[0] in group;
    var w := LeaderOf(objects, refs, name).value;
    LeaderMember(objects, group);
    LeaderIsWinner(objects, group);
    assert w in group && w in kept;
  }

  lemma KeptFollowers(objects: seq<Object>, lost: set<Ref>, x: Ref)
    requires Exists(objects, x) && IsFollower(At(objects, x)) && HasParent(objects, x) && x !in lost
    ensures Doomed(objects, lost, x) <==> Doomed(objects, lost, Parent(objects, x))
  {
    if Doomed(objects, lost, x) {
      var n: nat :| DoomedIn(objects, lost, x, n);
      assert DoomedIn(objects, lost, Parent(objects, x), n - 1);
    }
    if Doomed(objects, lost, Parent(objects, x)) { DoomedChild(objects, lost, x); }
  }

  /** Nothing that is not a follower is doomed, except the losers themselves. */
  lemma OnlyFollowersDoomed(objects: seq<Object>, lost: set<Ref>, x: Ref)
    requires Exists(objects, x) && !IsFollower(At(objects, x))
    ensures Doomed(objects, lost, x) <==> x in lost
  {
    if Doomed(objects, lost, x) {
      var n: nat :| DoomedIn(objects, lost, x, n);
    }
    if x in lost { assert DoomedIn(objects, lost, x, 0); }
  }

  lemma SelectionHolds(objects: seq<Object>, refs: seq<Ref>, lost: set<Ref>, kept: set<Ref>)
    requires refs == AllRefs(objects) && AllExist(objects, refs) && (forall x :: Exists(objects, x) ==> x in refs)
    requires LosersOf(objects, refs, lost) && ParentsNamed(objects, refs)
    requires forall x :: x in kept <==> Exists(objects, x) && !Doomed(objects, lost, x)
    ensures Selected(objects, kept)
  {
    forall x | Exists(objects, x) && !IsFollower(At(objects, x)) ensures x in kept <==> x !in lost {
      OnlyFollowersDoomed(objects, lost, x);
    }
    assert Losers(objects, kept) == lost;
    forall x | Exists(objects, x) && IsFollower(At(objects, x))
      ensures HasParent(objects, x) && (x in kept <==> Parent(objects, x) in kept) {
      var i :| 0 <= i < |refs| && refs[i] == x;
      KeptFollowers(objects, lost, x);
    }
    forall name | Group(objects, refs, name) != [] ensures OneWinner(objects, kept, Group(objects, refs, name)) {
      WinnerOfGroup(objects, refs, lost, kept, name);
    }
  }

  /** select_coff_sections: succeeds exactly when every group is resolvable and every follower names a parent. */
  method SelectSections(objects: seq<Object>) returns (r: Result<set<Ref>>)
    ensures AllExist(objects, AllRefs(objects))
    ensures r.Ok? <==> AllResolvable(objects) && ParentsNamed(objects, AllRefs(objects))
    ensures r.Ok? ==> Selected(objects, r.value)
  {
    var refs := AllRefs(objects);
    RefsAreSections(objects, |objects|);
    assert AllExist(objects, refs) by { assert forall i :: 0 <= i < |refs| ==> refs[i] in refs; }
    forall name | Group(objects, refs, name) != []
      ensures LeaderOf(objects, refs, name).Ok? <==> Resolvable(objects, Group(objects, refs, name)) {
      LeaderIsWinner(objects, Group(objects, refs, name));
    }
    var lost := SelectLeaders(objects, refs);
    if lost.Err? { return Err(lost.message); }
    var dropped := DropFollowers(objects, refs, lost.value);
    if dropped.Err? { return Err(dropped.message); }
    var kept := set x | x in refs && x !in dropped.value;
    SelectionHolds(objects, refs, lost.value, kept);
    r := Ok(kept);
  }
}
