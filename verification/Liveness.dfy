/**
 Section liveness (compute_live_sections): sections reachable from the roots along relocations,
 through aliases, prevailing definitions and weak fallbacks, and along associative children.
 */
module Liveness {
  import opened Basics
  import opened Coff
  import opened Aliases

  /** `mask` is the eligibility mask; without one every section takes part. `forced` lists forced root names. */
  datatype Input = Input(objects: seq<Object>, mask: Option<set<Ref>>, aliases: Aliases, entry: string,
    forced: seq<string>)

  predicate Eligible(x: Input, r: Ref) {
    Exists(x.objects, r) && (x.mask.Some? ==> r in x.mask.value) && !LinkerDiscarded(At(x.objects, r))
  }

  // ---------- definitions ----------

  /** Symbol `sy` of object `o` is an external definition of `name` in the eligible section `r`. */
  predicate DefinesIn(x: Input, o: int, sy: int, name: string, r: Ref) {
    && 0 <= o < |x.objects| && 0 <= sy < |x.objects[o].symbols|
    && var symbol := x.objects[o].symbols[sy];
       && name != "" && symbol.name == name && symbol.storageClass == ExternalClass
       && r.obj == o && r.sec == symbol.sectionNumber - 1 && Eligible(x, r)
  }

  /** Symbol (`fo`, `fs`) defines `name` in `r`, and no symbol before it defines `name`. */
  ghost predicate FirstDefAt(x: Input, name: string, r: Ref, fo: int, fs: int) {
    && DefinesIn(x, fo, fs, name, r)
    && forall o, sy, q :: DefinesIn(x, o, sy, name, q) ==> !Earlier(o, sy, fo, fs)
  }

  /** Some symbol before (`o`, `sy`) is the first that defines `name`, and it does so in `r`. */
  ghost predicate FirstDef(x: Input, name: string, r: Ref, o: int, sy: int) {
    exists fo, fs :: FirstDefAt(x, name, r, fo, fs) && Earlier(fo, fs, o, sy)
  }

  /** `defs` maps each name to its first eligible definition among the symbols before (`o`, `sy`). */
  ghost predicate DefsUpTo(x: Input, defs: map<string, Ref>, o: int, sy: int) {
    && (forall o', sy', name, q :: DefinesIn(x, o', sy', name, q) && Earlier(o', sy', o, sy) ==> name in defs)
    && (forall name :: name in defs ==> FirstDef(x, name, defs[name], o, sy))
  }

  ghost predicate IsDefs(x: Input, defs: map<string, Ref>) {
    DefsUpTo(x, defs, |x.objects|, 0)
  }

  lemma FirstDefLater(x: Input, defs: map<string, Ref>, o: int, sy: int, o': int, sy': int)
    requires DefsUpTo(x, defs, o, sy) && (o < o' || (o == o' && sy <= sy'))
    ensures forall name :: name in defs ==> FirstDef(x, name, defs[name], o', sy')
  {
    forall n | n in defs ensures FirstDef(x, n, defs[n], o', sy') {
      var fo, fs :| FirstDefAt(x, n, defs[n], fo, fs) && Earlier(fo, fs, o, sy);
      assert Earlier(fo, fs, o', sy');
    }
  }

  lemma DefsStep(x: Input, defs: map<string, Ref>, o: nat, sy: nat, name: string, r: Ref)
    requires DefsUpTo(x, defs, o, sy) && DefinesIn(x, o, sy, name, r)
    ensures DefsUpTo(x, if name !in defs then defs[name := r] else defs, o, sy + 1)
  {
    FirstDefLater(x, defs, o, sy, o, sy + 1);
    if name !in defs {
      assert FirstDefAt(x, name, r, o, sy) && Earlier(o, sy, o, sy + 1);
      assert FirstDef(x, name, r, o, sy + 1);
    }
  }

  method CollectDefinitions(x: Input) returns (defs: map<string, Ref>)
    ensures IsDefs(x, defs)
  {
    defs := map[];
    for o := 0 to |x.objects|
      invariant DefsUpTo(x, defs, o, 0)
    {
      for sy := 0 to |x.objects[o].symbols|
        invariant DefsUpTo(x, defs, o, sy)
      {
        var symbol := x.objects[o].symbols[sy];
        FirstDefLater(x, defs, o, sy, o, sy + 1);
        if symbol.name != "" && symbol.storageClass == ExternalClass && symbol.sectionNumber > 0 {
          var r := Ref(o, symbol.sectionNumber - 1);
          if Eligible(x, r) {
            DefsStep(x, defs, o, sy, symbol.name, r);
            if symbol.name !in defs { defs := defs[symbol.name := r]; }
          }
        }
      }
      FirstDefLater(x, defs, o, |x.objects[o].symbols|, o + 1, 0);
    }
  }

  // ---------- edges ----------

  /** The eligible section that the alias-resolved name is defined in, if any. */
  function Named(x: Input, defs: map<string, Ref>, name: string): set<Ref> {
    if name == "" then {}
    else
      var resolved := Resolved(x.aliases, name);
      if resolved in defs then {defs[resolved]} else {}
  }

  /** The sections a relocation of object `o` keeps alive. */
  function Targets(x: Input, defs: map<string, Ref>, o: nat, relocation: Relocation): set<Ref>
    requires o < |x.objects|
  {
    var symbols := x.objects[o].symbols;
    if !(0 <= relocation.symbol < |symbols|) then {}
    else
      var symbol := symbols[relocation.symbol];
      if symbol.sectionNumber > 0 then
        var target := Ref(o, symbol.sectionNumber - 1);
        if Eligible(x, target) then {target}
        else if symbol.storageClass == ExternalClass then Named(x, defs, symbol.name) else {}
      else if symbol.sectionNumber != 0 || symbol.name == "" then {}
      else
        Named(x, defs, symbol.name) +
        if symbol.storageClass == WeakClass && 0 <= symbol.weakDefault < |symbols|
        then Named(x, defs, symbols[symbol.weakDefault].name) else {}
  }

  /** `child` is an eligible associative section whose parent is `parent`. */
  predicate IsChild(x: Input, parent: Ref, child: Ref) {
    && Eligible(x, child) && At(x.objects, child).selection == SelectAssociative
    && parent.obj == child.obj && parent.sec == At(x.objects, child).associative - 1
  }

  /** Some relocation of `from` keeps `to` alive. */
  predicate Relocates(x: Input, defs: map<string, Ref>, from: Ref, to: Ref) {
    Exists(x.objects, from) &&
    exists i ::
      0 <= i < |At(x.objects, from).relocations| && to in Targets(x, defs, from.obj, At(x.objects, from).relocations[i])
  }

  /** `from` alive keeps `to` alive. */
  predicate Edge(x: Input, defs: map<string, Ref>, from: Ref, to: Ref) {
    Relocates(x, defs, from, to) || IsChild(x, from, to)
  }

  predicate IsRoot(x: Input, defs: map<string, Ref>, r: Ref) {
    || (Eligible(x, r) && !IsComdat(At(x.objects, r)))
    || r in Named(x, defs, x.entry)
    || exists i :: 0 <= i < |x.forced| && r in Named(x, defs, x.forced[i])
  }

  // ---------- the least closed set ----------

  ghost predicate ReachedIn(x: Input, defs: map<string, Ref>, r: Ref, n: nat)
    decreases n
  {
    if n == 0 then IsRoot(x, defs, r) else exists p :: ReachedIn(x, defs, p, n - 1) && Edge(x, defs, p, r)
  }

  ghost predicate Reached(x: Input, defs: map<string, Ref>, r: Ref) {
    exists n: nat :: ReachedIn(x, defs, r, n)
  }

  ghost predicate Closed(x: Input, defs: map<string, Ref>, live: set<Ref>) {
    && (forall r :: IsRoot(x, defs, r) ==> r in live)
    && (forall p, r :: p in live && Edge(x, defs, p, r) ==> r in live)
  }

  lemma ReachedEdge(x: Input, defs: map<string, Ref>, p: Ref, r: Ref)
    requires Reached(x, defs, p) && Edge(x, defs, p, r)
    ensures Reached(x, defs, r)
  {
    var n: nat :| ReachedIn(x, defs, p, n);
    assert ReachedIn(x, defs, r, n + 1);
  }

  /** Whatever is reached lies in every closed set. */
  lemma {:induction false} ClosedHoldsReached(x: Input, defs: map<string, Ref>, live: set<Ref>, r: Ref, n: nat)
    requires Closed(x, defs, live) && ReachedIn(x, defs, r, n)
    ensures r in live
    decreases n
  {
    if n > 0 {
      var p :| ReachedIn(x, defs, p, n - 1) && Edge(x, defs, p, r);
      ClosedHoldsReached(x, defs, live, p, n - 1);
    }
  }

  lemma NamedEligible(x: Input, defs: map<string, Ref>, name: string)
    requires IsDefs(x, defs)
    ensures forall r :: r in Named(x, defs, name) ==> Eligible(x, r)
  {
    var resolved := Resolved(x.aliases, name);
    if resolved in defs {
      var fo, fs :| FirstDefAt(x, resolved, defs[resolved], fo, fs) && Earlier(fo, fs, |x.objects|, 0);
    }
  }

  lemma EdgeEligible(x: Input, defs: map<string, Ref>, p: Ref, r: Ref)
    requires IsDefs(x, defs) && Edge(x, defs, p, r)
    ensures Eligible(x, r)
  {
    if !IsChild(x, p, r) {
      var i :| 0 <= i < |At(x.objects, p).relocations| && r in Targets(x, defs, p.obj, At(x.objects, p).relocations[i]);
      var symbols := x.objects[p.obj].symbols;
      var symbol := symbols[At(x.objects, p).relocations[i].symbol];
      NamedEligible(x, defs, symbol.name);
      if 0 <= symbol.weakDefault < |symbols| { NamedEligible(x, defs, symbols[symbol.weakDefault].name); }
    }
  }

  // ---------- the marking loops ----------

  /** Everything marked so far is an eligible section reached from a root. */
  ghost predicate Marked(x: Input, defs: map<string, Ref>, live: set<Ref>) {
    forall r :: r in live ==> Eligible(x, r) && Reached(x, defs, r)
  }

  method MarkRoots(x: Input, defs: map<string, Ref>, refs: seq<Ref>) returns (live: set<Ref>)
    requires IsDefs(x, defs) && forall r :: r in refs <==> Exists(x.objects, r)
    ensures forall r :: r in live <==> IsRoot(x, defs, r)
  {
    live := {};
    for k := 0 to |refs|
      invariant forall r :: r in live <==> r in refs[..k] && Eligible(x, r) && !IsComdat(At(x.objects, r))
    {
      if Eligible(x, refs[k]) && !IsComdat(At(x.objects, refs[k])) { live := live + {refs[k]}; }
    }
    live := live + Named(x, defs, x.entry);
    ghost var before := live;
    for i := 0 to |x.forced|
      invariant forall r :: r in live <==> r in before || exists j :: 0 <= j < i && r in Named(x, defs, x.forced[j])
    {
      live := live + Named(x, defs, x.forced[i]);
    }
  }

  /** Marks the targets of every relocation of one live section. */
  method MarkTargets(x: Input, defs: map<string, Ref>, p: Ref, before: set<Ref>) returns (live: set<Ref>)
    requires IsDefs(x, defs) && Marked(x, defs, before) && p in before
    ensures before <= live && Marked(x, defs, live)
    ensures forall r :: Relocates(x, defs, p, r) ==> r in live
  {
    var relocations := At(x.objects, p).relocations;
    live := before;
    for i := 0 to |relocations|
      invariant before <= live && Marked(x, defs, live)
      invariant forall j :: 0 <= j < i ==> Targets(x, defs, p.obj, relocations[j]) <= live
    {
      forall r | r in Targets(x, defs, p.obj, relocations[i]) ensures Eligible(x, r) && Reached(x, defs, r) {
        assert Relocates(x, defs, p, r);
        EdgeEligible(x, defs, p, r);
        ReachedEdge(x, defs, p, r);
      }
      live := live + Targets(x, defs, p.obj, relocations[i]);
    }
  }

  /** Whatever the marked sections among `refs` relocate against is marked. */
  ghost predicate TargetsMarked(x: Input, defs: map<string, Ref>, refs: seq<Ref>, from: set<Ref>, live: set<Ref>) {
    forall p, r :: p in refs && p in from && Relocates(x, defs, p, r) ==> r in live
  }

  /** The relocation half of a round. */
  method MarkAllTargets(x: Input, defs: map<string, Ref>, refs: seq<Ref>, before: set<Ref>) returns (live: set<Ref>)
    requires IsDefs(x, defs) && Marked(x, defs, before)
    ensures before <= live && Marked(x, defs, live) && TargetsMarked(x, defs, refs, before, live)
  {
    live := before;
    for k := 0 to |refs|
      invariant before <= live && Marked(x, defs, live) && TargetsMarked(x, defs, refs[..k], before, live)
    {
      if refs[k] in live { live := MarkTargets(x, defs, refs[k], live); }
    }
    assert refs[..|refs|] == refs;
  }

  /** Every eligible child among `refs` of a section in `from` is marked. */
  ghost predicate ChildrenMarked(x: Input, refs: seq<Ref>, from: set<Ref>, live: set<Ref>) {
    forall p, r :: r in refs && p in from && IsChild(x, p, r) ==> r in live
  }

  /** The associative half of a round. */
  method MarkAllChildren(x: Input, defs: map<string, Ref>, refs: seq<Ref>, before: set<Ref>) returns (live: set<Ref>)
    requires IsDefs(x, defs) && Marked(x, defs, before) && forall r :: r in refs ==> Exists(x.objects, r)
    ensures before <= live && Marked(x, defs, live) && ChildrenMarked(x, refs, before, live)
  {
    live := before;
    for k := 0 to |refs|
      invariant before <= live && Marked(x, defs, live) && ChildrenMarked(x, refs[..k], before, live)
    {
      var r := refs[k];
      assert r in refs;
      var section := At(x.objects, r);
      if Eligible(x, r) && section.selection == SelectAssociative && section.associative >= 1 {
        var parent := Ref(r.obj, section.associative - 1);
        if parent in live {
          ReachedEdge(x, defs, parent, r);
          live := live + {r};
        }
      }
    }
    assert refs[..|refs|] == refs;
  }

  /** One round of the outer loop: relocation targets first, then associative children. */
  method MarkRound(x: Input, defs: map<string, Ref>, refs: seq<Ref>, before: set<Ref>) returns (live: set<Ref>)
    requires IsDefs(x, defs) && Marked(x, defs, before) && forall r :: r in refs <==> Exists(x.objects, r)
    ensures before <= live && Marked(x, defs, live)
    ensures live == before ==> forall p, r :: p in live && Edge(x, defs, p, r) ==> r in live
  {
    var targets := MarkAllTargets(x, defs, refs, before);
    live := MarkAllChildren(x, defs, refs, targets);
    assert forall p, r :: IsChild(x, p, r) ==> r in refs;
  }

  /**
   compute_live_sections: the least set of eligible sections that contains the roots and is
   closed under relocation and associative-child edges.
   */
  method ComputeLiveSections(x: Input) returns (live: set<Ref>, ghost defs: map<string, Ref>)
    ensures IsDefs(x, defs) && Closed(x, defs, live)
    ensures forall r :: r in live ==> Eligible(x, r)
    ensures forall other :: Closed(x, defs, other) ==> live <= other
  {
    var definitions := CollectDefinitions(x);
    defs := definitions;
    var refs := AllRefs(x.objects);
    RefsAreSections(x.objects, |x.objects|);
    live := MarkRoots(x, definitions, refs);
    forall r | r in live ensures Eligible(x, r) && Reached(x, defs, r) { RootEligible(x, defs, r); }
    ghost var universe := set r | r in refs;
    ghost var roots := live;
    while true
      invariant roots <= live && Marked(x, defs, live)
      decreases universe - live
    {
      var next := MarkRound(x, definitions, refs, live);
      if next == live { break; }
      live := next;
    }
    forall other, r | Closed(x, defs, other) && r in live ensures r in other {
      var n: nat :| ReachedIn(x, defs, r, n);
      ClosedHoldsReached(x, defs, other, r, n);
    }
  }

  lemma RootEligible(x: Input, defs: map<string, Ref>, r: Ref)
    requires IsDefs(x, defs) && IsRoot(x, defs, r)
    ensures Eligible(x, r) && Reached(x, defs, r)
  {
    assert ReachedIn(x, defs, r, 0);
    NamedEligible(x, defs, x.entry);
    forall i | 0 <= i < |x.forced| ensures forall q :: q in Named(x, defs, x.forced[i]) ==> Eligible(x, q) {
      NamedEligible(x, defs, x.forced[i]);
    }
  }
}
