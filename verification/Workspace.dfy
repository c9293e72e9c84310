/** The incremental workspace graph: reverse edges, dirty propagation and comparison of two graphs. */
module Workspace {
  import opened Sorting

  type Key = string

  datatype ModuleState = ModuleState(
    sourcePath: string, sourceFingerprint: int, importFingerprint: int, dependencies: seq<Key>, dependents: seq<Key>)

  type Modules = map<Key, ModuleState>

  // ---------- reverse edges ----------

  ghost predicate DependsOn(modules: Modules, m: Key, d: Key) {
    m in modules && d in modules[m].dependencies
  }

  /** Dependents are exactly the modules that list this one, in increasing order without repeats. */
  ghost predicate Rebuilt(modules: Modules) {
    forall d :: d in modules ==>
      && (forall m :: m in modules[d].dependents <==> DependsOn(modules, m, d))
      && forall i, j :: 0 <= i < j < |modules[d].dependents| ==>
        StringLess(modules[d].dependents[i], modules[d].dependents[j])
  }

  method Pick<T>(s: set<T>) returns (x: T)
    requires s != {}
    ensures x in s
  {
    x :| x in s;
  }

  /** std::unique: drops repeats of the previous element. */
  function Unique(s: seq<Key>): seq<Key> {
    if |s| <= 1 then s
    else if s[|s| - 1] == s[|s| - 2] then Unique(s[..|s| - 1])
    else Unique(s[..|s| - 1]) + [s[|s| - 1]]
  }

  function SortUnique(s: seq<Key>): seq<Key> {
    Unique(Sort(s, (a: Key, b: Key) => StringLess(a, b)))
  }

  lemma KeyOrder()
    ensures StrictWeak((a: Key, b: Key) => StringLess(a, b))
  {
    var less := (a: Key, b: Key) => StringLess(a, b);
    forall a, b | less(a, b) ensures !less(b, a) { StringLessTotal(a, b); }
    forall a, b, c | !less(a, b) && !less(b, c) ensures !less(a, c) { StringLessWeak(a, b, c); }
  }

  ghost predicate NonDecreasing(s: seq<Key>) {
    forall i, j :: 0 <= i < j < |s| ==> !StringLess(s[j], s[i])
  }

  ghost predicate Increasing(s: seq<Key>) {
    forall i, j :: 0 <= i < j < |s| ==> StringLess(s[i], s[j])
  }

  lemma {:induction false} UniqueIncreases(s: seq<Key>)
    requires NonDecreasing(s)
    ensures Increasing(Unique(s)) && (forall x :: x in Unique(s) <==> x in s)
    ensures s != [] ==> Unique(s) != [] && Unique(s)[|Unique(s)| - 1] == s[|s| - 1]
  {
    if |s| > 1 {
      var front, last := s[..|s| - 1], s[|s| - 1];
      UniqueIncreases(front);
      assert s == front + [last];
      if last != s[|s| - 2] {
        var u := Unique(front);
        StringLessTotal(s[|s| - 2], last);
        forall i | 0 <= i < |u| ensures StringLess(u[i], last) {
          StringLessTransitive(u[i], s[|s| - 2], last);
        }
      }
    }
  }

  lemma SortUniqueOk(s: seq<Key>)
    ensures Increasing(SortUnique(s)) && forall x :: x in SortUnique(s) <==> x in s
  {
    var less := (a: Key, b: Key) => StringLess(a, b);
    KeyOrder();
    SortIsSorted(s, less);
    SortMembers(s, less);
    var sorted := Sort(s, less);
    forall i, j | 0 <= i < j < |sorted| ensures !StringLess(sorted[j], sorted[i]) {
      assert !less(sorted[j], sorted[i]);
    }
    UniqueIncreases(sorted);
  }

  /** Same modules and same forward edges; only dependents may differ. */
  ghost predicate SameForward(a: Modules, b: Modules) {
    a.Keys == b.Keys && forall k :: k in a ==> b[k] == a[k].(dependents := b[k].dependents)
  }

  /** `x` was recorded with `d`: it is in `done` and lists `d`, or it is `m` and lists `d` among its first `n`. */
  ghost predicate Listed(modules: Modules, done: set<Key>, m: Key, n: nat, x: Key, d: Key) {
    || (x in done && DependsOn(modules, x, d))
    || (x == m && m in modules && exists i ::
          0 <= i < n && i < |modules[m].dependencies| && modules[m].dependencies[i] == d)
  }

  /** Dependents recorded so far. */
  ghost predicate Recorded(modules: Modules, done: set<Key>, m: Key, n: nat) {
    forall d, x :: d in modules ==> (x in modules[d].dependents <==> Listed(modules, done, m, n, x, d))
  }

  lemma RecordStep(modules: Modules, done: set<Key>, m: Key, n: nat)
    requires m in modules && n < |modules[m].dependencies| && Recorded(modules, done, m, n)
    ensures var d := modules[m].dependencies[n];
      Recorded(if d in modules then modules[d := modules[d].(dependents := modules[d].dependents + [m])] else modules,
        done, m, n + 1)
  {
    var d := modules[m].dependencies[n];
    var r := if d in modules then modules[d := modules[d].(dependents := modules[d].dependents + [m])] else modules;
    assert forall k :: k in modules ==> r[k].dependencies == modules[k].dependencies;
    forall e, x | e in r ensures x in r[e].dependents <==> Listed(r, done, m, n + 1, x, e) {
      assert DependsOn(r, x, e) <==> DependsOn(modules, x, e);
      assert Listed(r, done, m, n + 1, x, e) <==> Listed(modules, done, m, n, x, e) || (x == m && e == d);
    }
  }

  lemma AllRecorded(modules: Modules, done: set<Key>, m: Key, m': Key)
    requires m in modules && Recorded(modules, done, m, |modules[m].dependencies|)
    ensures Recorded(modules, done + {m}, m', 0)
  {
    forall e, x | e in modules ensures x in modules[e].dependents <==> Listed(modules, done + {m}, m', 0, x, e) {
      assert Listed(modules, done, m, |modules[m].dependencies|, x, e) <==> Listed(modules, done + {m}, m', 0, x, e);
    }
  }

  method ClearDependents(modules: Modules) returns (r: Modules)
    ensures SameForward(modules, r) && forall k :: k in r ==> r[k].dependents == []
  {
    r := map k | k in modules :: modules[k].(dependents := []);
  }

  method Normalize(modules: Modules) returns (r: Modules)
    ensures SameForward(modules, r) && forall k :: k in r ==> r[k].dependents == SortUnique(modules[k].dependents)
  {
    r := map k | k in modules :: modules[k].(dependents := SortUnique(modules[k].dependents));
  }

  /** Records module `m` with each of its dependencies that exists. */
  method RecordModule(modules: Modules, m: Key, ghost done: set<Key>) returns (r: Modules)
    requires m in modules && Recorded(modules, done, m, 0)
    ensures SameForward(modules, r) && Recorded(r, done + {m}, m, 0)
  {
    r := modules;
    var dependencies := modules[m].dependencies;
    for n := 0 to |dependencies|
      invariant SameForward(modules, r) && Recorded(r, done, m, n)
    {
      RecordStep(r, done, m, n);
      var d := dependencies[n];
      if d in r { r := r[d := r[d].(dependents := r[d].dependents + [m])]; }
    }
    AllRecorded(r, done, m, m);
  }

  lemma FirstModule(modules: Modules, done: set<Key>, m: Key, m': Key)
    requires Recorded(modules, done, m, 0)
    ensures Recorded(modules, done, m', 0)
  {
    forall e, x | e in modules ensures x in modules[e].dependents <==> Listed(modules, done, m', 0, x, e) {
      assert Listed(modules, done, m, 0, x, e) <==> Listed(modules, done, m', 0, x, e);
    }
  }

  /** rebuild_dependents: whatever the dependents were, afterwards they are the exact reverse edges. */
  method RebuildDependents(modules: Modules) returns (r: Modules)
    ensures SameForward(modules, r) && Rebuilt(r)
  {
    r := ClearDependents(modules);
    var rest, done: set<Key> := modules.Keys, {};
    while rest != {}
      invariant SameForward(modules, r) && rest + done == modules.Keys && rest !! done && Recorded(r, done, "", 0)
      decreases rest
    {
      var m := Pick(rest);
      FirstModule(r, done, "", m);
      r := RecordModule(r, m, done);
      rest, done := rest - {m}, done + {m};
      FirstModule(r, done, m, "");
    }
    ghost var recorded := r;
    r := Normalize(r);
    NormalizedIsRebuilt(recorded, r);
  }

  lemma NormalizedIsRebuilt(recorded: Modules, r: Modules)
    requires SameForward(recorded, r) && Recorded(recorded, recorded.Keys, "", 0)
    requires forall k :: k in r ==> r[k].dependents == SortUnique(recorded[k].dependents)
    ensures Rebuilt(r)
  {
    forall d | d in r
      ensures (forall m :: m in r[d].dependents <==> DependsOn(r, m, d)) && Increasing(r[d].dependents) {
      SortUniqueOk(recorded[d].dependents);
      forall m ensures m in r[d].dependents <==> DependsOn(r, m, d) {
        assert Listed(recorded, recorded.Keys, "", 0, m, d) <==> DependsOn(recorded, m, d);
        assert DependsOn(recorded, m, d) <==> DependsOn(r, m, d);
      }
    }
  }

  // ---------- dirty propagation ----------

  /** `x` follows from the seeds along `n` reverse edges. */
  ghost predicate DirtyIn(modules: Modules, seeds: set<Key>, x: Key, n: nat)
    decreases n
  {
    if n == 0 then x in seeds
    else exists p :: DirtyIn(modules, seeds, p, n - 1) && p in modules && x in modules[p].dependents
  }

  ghost predicate IsDirty(modules: Modules, seeds: set<Key>, x: Key) {
    exists n: nat :: DirtyIn(modules, seeds, x, n)
  }

  lemma DirtyDependent(modules: Modules, seeds: set<Key>, p: Key, x: Key)
    requires IsDirty(modules, seeds, p) && p in modules && x in modules[p].dependents
    ensures IsDirty(modules, seeds, x)
  {
    var n: nat :| DirtyIn(modules, seeds, p, n);
    assert DirtyIn(modules, seeds, x, n + 1);
  }

  ghost predicate ClosedUnder(modules: Modules, dirty: set<Key>) {
    forall p, x :: p in dirty && p in modules && x in modules[p].dependents ==> x in dirty
  }

  lemma {:induction false} ClosedHoldsDirty(modules: Modules, seeds: set<Key>, dirty: set<Key>, x: Key, n: nat)
    requires seeds <= dirty && ClosedUnder(modules, dirty) && DirtyIn(modules, seeds, x, n)
    ensures x in dirty
    decreases n
  {
    if n > 0 {
      var p :| DirtyIn(modules, seeds, p, n - 1) && p in modules && x in modules[p].dependents;
      ClosedHoldsDirty(modules, seeds, dirty, p, n - 1);
    }
  }

  /** Every name that occurs in the graph or among the seeds. */
  ghost function Universe(modules: Modules, seeds: set<Key>): set<Key> {
    seeds + set k, x | k in modules && x in modules[k].dependents :: x
  }

  /** Everything reached is dirty, and what has left the queue has passed dirtiness on. */
  ghost predicate Propagating(modules: Modules, seeds: set<Key>, dirty: set<Key>, queue: seq<Key>) {
    && seeds <= dirty && (forall x :: x in queue ==> x in dirty)
    && (forall x :: x in dirty ==> IsDirty(modules, seeds, x))
    && (forall p, x :: p in dirty && p !in queue && p in modules && x in modules[p].dependents ==> x in dirty)
  }

  lemma MarkedAll(modules: Modules, seeds: set<Key>, before: set<Key>, waiting: seq<Key>, key: Key, dirty: set<Key>,
          queue: seq<Key>)
    requires Propagating(modules, seeds, before, [key] + waiting) && key in before && key in modules
    requires forall x :: x in dirty <==> x in before || x in modules[key].dependents
    requires forall x :: x in queue <==> x in waiting || (x in dirty && x !in before)
    ensures Propagating(modules, seeds, dirty, queue)
  {
    forall x | x in dirty ensures IsDirty(modules, seeds, x) {
      if x !in before { DirtyDependent(modules, seeds, key, x); }
    }
    assert forall y :: y in [key] + waiting <==> y == key || y in waiting;
  }

  /** Marks the dependents of one module and queues those that were clean. */
  method MarkDependents(modules: Modules, key: Key, before: set<Key>, waiting: seq<Key>, ghost seeds: set<Key>)
    returns (dirty: set<Key>, queue: seq<Key>)
    requires key in modules && key in before && Propagating(modules, seeds, before, [key] + waiting)
    ensures Propagating(modules, seeds, dirty, queue) && before <= dirty <= before + Universe(modules, seeds)
    ensures dirty == before ==> queue == waiting
  {
    dirty, queue := before, waiting;
    var dependents := modules[key].dependents;
    for i := 0 to |dependents|
      invariant forall x :: x in dirty <==> x in before || x in dependents[..i]
      invariant forall x :: x in queue <==> x in waiting || (x in dirty && x !in before)
      invariant dirty == before ==> queue == waiting
    {
      if dependents[i] !in dirty {
        dirty, queue := dirty + {dependents[i]}, queue + [dependents[i]];
      }
    }
    MarkedAll(modules, seeds, before, waiting, key, dirty, queue);
  }

  /** propagate_dirty: exactly what is reachable from the seeds along reverse edges. */
  method PropagateDirty(modules: Modules, seeds: set<Key>, order: seq<Key>) returns (dirty: set<Key>)
    requires forall x :: x in order <==> x in seeds
    ensures forall x :: x in dirty <==> IsDirty(modules, seeds, x)
  {
    dirty := seeds;
    var queue := order;
    forall x | x in seeds ensures IsDirty(modules, seeds, x) { assert DirtyIn(modules, seeds, x, 0); }
    ghost var universe := seeds + Universe(modules, seeds);
    while queue != []
      invariant Propagating(modules, seeds, dirty, queue) && dirty <= universe
      decreases universe - dirty, |queue|
    {
      var key, waiting := queue[0], queue[1..];
      assert queue == [key] + waiting;
      if key in modules {
        dirty, queue := MarkDependents(modules, key, dirty, waiting, seeds);
      } else {
        queue := waiting;
      }
    }
    AllDirty(modules, seeds, dirty);
  }

  /** Nothing that is dirty is missing when the queue is empty. */
  lemma AllDirty(modules: Modules, seeds: set<Key>, dirty: set<Key>)
    requires Propagating(modules, seeds, dirty, [])
    ensures forall x :: x in dirty <==> IsDirty(modules, seeds, x)
  {
    forall x | IsDirty(modules, seeds, x) ensures x in dirty {
      var n: nat :| DirtyIn(modules, seeds, x, n);
      ClosedHoldsDirty(modules, seeds, dirty, x, n);
    }
  }

  method Enumerate<T>(s: set<T>) returns (r: seq<T>)
    ensures forall x :: x in r <==> x in s
  {
    r := [];
    var rest := s;
    while rest != {}
      invariant rest <= s && forall x :: x in r <==> x in s - rest
      decreases rest
    {
      var x := Pick(rest);
      rest := rest - {x};
      r := r + [x];
    }
  }

  // ---------- comparing two graphs ----------

  datatype Delta = Delta(removed: set<Key>, sourceChanged: set<Key>, graphChanged: set<Key>, added: set<Key>,
    dirty: set<Key>)

  /** The parts of a module that a build depends on are the same: all but the dependents. */
  ghost predicate Same(a: ModuleState, b: ModuleState) {
    && a.sourceFingerprint == b.sourceFingerprint && a.importFingerprint == b.importFingerprint
    && a.sourcePath == b.sourcePath && a.dependencies == b.dependencies
  }

  ghost predicate FromRemoved(older: Modules, newer: Modules, x: Key) {
    exists r :: r in older && r !in newer && x in older[r].dependents
  }

  /** Where dirtiness starts: added and changed modules, and what depended on a removed one. */
  ghost predicate IsSeed(older: Modules, newer: Modules, x: Key) {
    || (x in newer && x !in older)
    || (x in older && x in newer && !Same(older[x], newer[x]))
    || FromRemoved(older, newer, x)
  }

  ghost function Seeds(older: Modules, newer: Modules): set<Key> {
    (set k | k in newer && IsSeed(older, newer, k)) + set r, x | r in older && r !in newer
      && x in older[r].dependents :: x
  }

  lemma SeedsAre(older: Modules, newer: Modules, x: Key)
    ensures x in Seeds(older, newer) <==> IsSeed(older, newer, x)
  {
  }

  /** Dirty: reachable along the reverse edges of the newer graph from a seed. */
  ghost predicate MustRebuild(older: Modules, newer: Modules, x: Key) {
    IsDirty(newer, Seeds(older, newer), x)
  }

  class WorkspaceGraph {
    var modules: Modules
    var moduleByPath: map<string, Key>

    constructor (modules: Modules, moduleByPath: map<string, Key>)
      ensures this.modules == modules && this.moduleByPath == moduleByPath
    {
      this.modules, this.moduleByPath := modules, moduleByPath;
    }

    method Rebuild()
      modifies this`modules
      ensures SameForward(old(modules), modules) && Rebuilt(modules)
    {
      modules := RebuildDependents(modules);
    }

    /** compare: what changed between this graph and a newer one, and exactly what must be rebuilt. */
    method Compare(newer: WorkspaceGraph) returns (delta: Delta)
      ensures delta.removed == modules.Keys - newer.modules.Keys && delta.added == newer.modules.Keys - modules.Keys
      ensures forall k :: k in delta.sourceChanged <==>
        k in modules && k in newer.modules && modules[k].sourceFingerprint != newer.modules[k].sourceFingerprint
      ensures forall k :: k in delta.graphChanged <==>
        k in modules && k in newer.modules
          && (modules[k].importFingerprint != newer.modules[k].importFingerprint
                || modules[k].dependencies != newer.modules[k].dependencies
                || modules[k].sourcePath != newer.modules[k].sourcePath)
      ensures forall k :: k in delta.dirty <==> MustRebuild(modules, newer.modules, k)
    {
      delta := Changes(modules, newer.modules);
      var seeds := delta.dirty;
      var order := Enumerate(seeds);
      var dirty := PropagateDirty(newer.modules, seeds, order);
      assert seeds == Seeds(modules, newer.modules) by {
        forall k ensures k in seeds <==> k in Seeds(modules, newer.modules) { SeedsAre(modules, newer.modules, k); }
      }
      delta := delta.(dirty := dirty);
    }

    /** dirty_from_path: the module of the edited file and everything that transitively depends on it. */
    method DirtyFromPath(path: string) returns (dirty: set<Key>)
      ensures forall k :: k in dirty <==> path in moduleByPath && IsDirty(modules, {moduleByPath[path]}, k)
    {
      var seeds: set<Key> := if path in moduleByPath then {moduleByPath[path]} else {};
      var order: seq<Key> := if path in moduleByPath then [moduleByPath[path]] else [];
      dirty := PropagateDirty(modules, seeds, order);
      if path !in moduleByPath { NothingFromNothing(modules); }
    }
  }

  lemma {:induction false} NoneIn(modules: Modules, k: Key, n: nat)
    ensures !DirtyIn(modules, {}, k, n)
    decreases n
  {
    if n > 0 {
      var before := n - 1;
      forall p ensures !DirtyIn(modules, {}, p, before) { NoneIn(modules, p, before); }
    }
  }

  lemma NothingFromNothing(modules: Modules)
    ensures forall k :: !IsDirty(modules, {}, k)
  {
    forall k, n: nat ensures !DirtyIn(modules, {}, k, n) { NoneIn(modules, k, n); }
  }

  /** The loops of compare before propagation; `dirty` holds the seeds. */
  method Changes(older: Modules, newer: Modules) returns (delta: Delta)
    ensures delta.removed == older.Keys - newer.Keys && delta.added == newer.Keys - older.Keys
    ensures forall k :: k in delta.sourceChanged <==>
      k in older && k in newer && older[k].sourceFingerprint != newer[k].sourceFingerprint
    ensures forall k :: k in delta.graphChanged <==>
      k in older && k in newer
        && (older[k].importFingerprint != newer[k].importFingerprint || older[k].dependencies != newer[k].dependencies
              || older[k].sourcePath != newer[k].sourcePath)
    ensures forall k :: k in delta.dirty <==> IsSeed(older, newer, k)
  {
    var removed, source, graph, added := {}, {}, {}, {};
    var rest := older.Keys;
    while rest != {}
      invariant rest <= older.Keys && removed == (older.Keys - rest) - newer.Keys
      invariant forall k :: k in source <==>
        k in older && k !in rest && k in newer && older[k].sourceFingerprint != newer[k].sourceFingerprint
      invariant forall k :: k in graph <==>
        k in older && k !in rest && k in newer
          && (older[k].importFingerprint != newer[k].importFingerprint || older[k].dependencies != newer[k].dependencies
                || older[k].sourcePath != newer[k].sourcePath)
      decreases rest
    {
      var k := Pick(rest);
      rest := rest - {k};
      if k !in newer {
        removed := removed + {k};
      } else {
        if older[k].sourceFingerprint != newer[k].sourceFingerprint { source := source + {k}; }
        if older[k].importFingerprint != newer[k].importFingerprint || older[k].dependencies != newer[k].dependencies
          || older[k].sourcePath != newer[k].sourcePath {
          graph := graph + {k};
        }
      }
    }
    added := set k | k in newer && k !in older;
    var orphans := Orphans(older, newer, removed);
    delta := Delta(removed, source, graph, added, added + source + graph + orphans);
  }

  method Orphans(older: Modules, newer: Modules, removed: set<Key>) returns (orphans: set<Key>)
    requires removed == older.Keys - newer.Keys
    ensures forall x :: x in orphans <==> FromRemoved(older, newer, x)
  {
    orphans := {};
    var rest := removed;
    while rest != {}
      invariant rest <= removed
      invariant forall x :: x in orphans <==> exists r :: r in removed && r !in rest && x in older[r].dependents
      decreases rest
    {
      var r := Pick(rest);
      rest := rest - {r};
      orphans := orphans + set x | x in older[r].dependents;
    }
  }

  // ---------- soundness ----------

  /** `d` is reached from `m` along `n` dependencies. */
  ghost predicate ReachesIn(modules: Modules, m: Key, d: Key, n: nat)
    decreases n
  {
    if n == 0 then d == m else exists p :: ReachesIn(modules, m, p, n - 1) && DependsOn(modules, p, d)
  }

  /** Identical in both graphs: absent from both, or the same path, fingerprints and edges. */
  ghost predicate Unchanged(older: Modules, newer: Modules, k: Key) {
    && (k in older <==> k in newer)
    && (k in newer ==>
          && older[k].sourceFingerprint == newer[k].sourceFingerprint
          && older[k].importFingerprint == newer[k].importFingerprint
          && older[k].sourcePath == newer[k].sourcePath && older[k].dependencies == newer[k].dependencies)
  }

  /** A clean module of the newer graph is unchanged, and so are its dependencies, which are clean or absent. */
  lemma CleanStep(older: Modules, newer: Modules, m: Key, d: Key)
    requires Rebuilt(older) && Rebuilt(newer) && m in newer && !MustRebuild(older, newer, m)
    ensures Unchanged(older, newer, m)
    ensures DependsOn(newer, m, d) ==> Unchanged(older, newer, d) && (d in newer ==> !MustRebuild(older, newer, d))
  {
    SeedDirty(older, newer, m);
    if DependsOn(newer, m, d) {
      if d in newer {
        assert m in newer[d].dependents;
        if MustRebuild(older, newer, d) { DirtyDependent(newer, Seeds(older, newer), d, m); }
        SeedDirty(older, newer, d);
      } else if d in older {
        assert DependsOn(older, m, d);
      }
    }
  }

  lemma SeedDirty(older: Modules, newer: Modules, x: Key)
    ensures IsSeed(older, newer, x) ==> MustRebuild(older, newer, x)
  {
    SeedsAre(older, newer, x);
    if IsSeed(older, newer, x) { assert DirtyIn(newer, Seeds(older, newer), x, 0); }
  }

  /**
   Incremental soundness: everything a clean module transitively depends on is reached by the
   same edges in both graphs and is identical there, down to modules absent from both.
   */
  lemma {:induction false} CleanClosure(older: Modules, newer: Modules, m: Key, d: Key, n: nat)
    requires Rebuilt(older) && Rebuilt(newer) && m in newer && !MustRebuild(older, newer, m)
    ensures ReachesIn(newer, m, d, n) <==> ReachesIn(older, m, d, n)
    ensures ReachesIn(newer, m, d, n) ==> Unchanged(older, newer, d) && (d in newer ==> !MustRebuild(older, newer, d))
    decreases n
  {
    if n == 0 {
      CleanStep(older, newer, m, m);
    } else {
      forall p ensures
        && (ReachesIn(newer, m, p, n - 1) <==> ReachesIn(older, m, p, n - 1))
        && (ReachesIn(newer, m, p, n - 1) ==> (DependsOn(newer, p, d) <==> DependsOn(older, p, d)))
        && (ReachesIn(newer, m, p, n - 1) && DependsOn(newer, p, d) ==>
            Unchanged(older, newer, d) && (d in newer ==> !MustRebuild(older, newer, d))) {
        CleanClosure(older, newer, m, p, n - 1);
        if ReachesIn(newer, m, p, n - 1) && p in newer { CleanStep(older, newer, p, d); }
      }
    }
  }
}
