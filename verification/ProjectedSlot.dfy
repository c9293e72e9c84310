/** The projection part of an async slot, as mutable state. */
module ProjectedSlot {
  import opened Words
  import opened Projection
  import opened ProjectionRuns

  /** Word count matches the projection count, and bits above the count are zero. */
  ghost predicate Packed(words: seq<nat>, count: int) {
    && 0 <= count < 0x1_0000_0000 && AllWords(words) && |words| == (count + 63) / 64
    && forall i :: count <= i < 64 * |words| ==> !View(words)[i]
  }

  /** The projections the bitmap stands for. */
  ghost function Bits(words: seq<nat>, count: int): (b: seq<bool>)
    requires Packed(words, count)
    ensures |b| == count
  {
    View(words)[..count]
  }

  // ---------- arming ----------

  /** The words that allocate_projected_bytes stores: the mask in each, the last one cut to the count. */
  function ArmedWords(mask: nat, projections: int): seq<nat>
    requires projections > 0
  {
    var n := (projections + 63) / 64;
    var words := seq(n, i requires 0 <= i => mask);
    if projections % 64 == 0 then words else words[n - 1 := And(mask, Pow2(projections % 64) - 1)]
  }

  lemma ArmedBit(mask: nat, projections: int, i: nat)
    requires projections > 0 && IsWord(mask) && i < 64 * ((projections + 63) / 64)
    ensures |ArmedWords(mask, projections)| == (projections + 63) / 64 && IsWord(ArmedWords(mask, projections)[i / 64])
    ensures Bit(ArmedWords(mask, projections)[i / 64], i % 64) <==> i < projections && Bit(mask, i % 64)
  {
    if projections % 64 != 0 && i / 64 == (projections + 63) / 64 - 1 { CutBit(mask, projections % 64, i % 64); }
    InTail(projections, i, i / 64, i % 64);
  }

  /** Whether a bit of the last word counts. */
  lemma InTail(projections: int, i: nat, word: nat, bit: nat)
    requires projections > 0 && i == 64 * word + bit && bit < 64 && word < (projections + 63) / 64
    ensures i < projections <==> projections % 64 == 0 || word < (projections + 63) / 64 - 1 || bit < projections % 64
  {
  }

  /** The last word keeps `tail` bits. */
  lemma CutBit(mask: nat, tail: nat, bit: nat)
    requires IsWord(mask) && 0 < tail < 64 && bit < 64
    ensures IsWord(And(mask, Pow2(tail) - 1))
    ensures Bit(And(mask, Pow2(tail) - 1), bit) <==> bit < tail && Bit(mask, bit)
  {
    AndBit(mask, Pow2(tail) - 1, bit);
    LowBits(tail, bit);
    Pow2Grows(tail, 64);
    OpsBelow(mask, Pow2(tail) - 1, 64);
  }

  lemma ArmedView(mask: nat, projections: int)
    requires projections > 0 && IsWord(mask)
    ensures var words := ArmedWords(mask, projections);
      && |words| == (projections + 63) / 64 && AllWords(words)
      && forall i :: 0 <= i < 64 * |words| ==> (View(words)[i] <==> i < projections && Bit(mask, i % 64))
  {
    var words := ArmedWords(mask, projections);
    forall i: nat | i < 64 * |words|
      ensures IsWord(words[i / 64]) && (View(words)[i] <==> i < projections && Bit(mask, i % 64)) {
      ArmedBit(mask, projections, i);
    }
    forall k | 0 <= k < |words| ensures IsWord(words[k]) { ArmedBit(mask, projections, 64 * k); }
  }

  /** The stored count is a 32-bit truncation: the bitmap is packed exactly when it loses nothing. */
  lemma ArmedIsPacked(mask: nat, projections: int)
    requires projections > 0 && IsWord(mask)
    ensures Packed(ArmedWords(mask, projections), projections % 0x1_0000_0000) <==> projections < 0x1_0000_0000
  {
    ArmedView(mask, projections);
  }

  // ---------- updates ----------

  lemma PackedUpdate(words: seq<nat>, count: int, r: seq<nat>, first: int, end: int, b: bool)
    requires Packed(words, count) && |r| == |words| && AllWords(r) && View(r) == SetRange(View(words), first, end, b)
    requires end <= first || end <= count
    ensures Packed(r, count) && Bits(r, count) == SetRange(Bits(words, count), first, end, b)
    ensures Distance(View(words), View(r)) == Distance(Bits(words, count), Bits(r, count))
  {
    SamePrefixDistance(View(words), View(r), count);
  }

  lemma SamePrefixDistance(a: seq<bool>, b: seq<bool>, n: nat)
    requires |a| == |b| && n <= |a| && forall i :: n <= i < |a| ==> a[i] == b[i]
    ensures Distance(a, b) == Distance(a[..n], b[..n])
  {
    FlipsSplit(a, b, 0, n, |a| - n);
    NoFlips(a, b, n, |a| - n);
    PrefixFlips(a, b, n, n);
  }

  lemma {:induction false} PrefixFlips(a: seq<bool>, b: seq<bool>, n: nat, m: nat)
    requires |a| == |b| && m <= n <= |a|
    ensures Flips(a, b, 0, m) == Flips(a[..n], b[..n], 0, m)
    decreases m
  {
    if m > 0 { PrefixFlips(a, b, n, m - 1); }
  }

  /** The range checks of a batch: inside the bitmap, not empty. */
  predicate ValidRange(count: int, r: Run) {
    0 <= r.first < count && 0 < r.count <= count - r.first
  }

  lemma NextRun(v: seq<bool>, runs: seq<Run>, k: nat)
    requires k < |runs|
    ensures var next := SetRange(ApplyRuns(v, runs[..k]), runs[k].first, runs[k].first + runs[k].count,
      runs[k].initialized);
      ApplyRuns(v, runs[..k + 1]) == next
        && TotalFlips(v, runs[..k + 1]) == TotalFlips(v, runs[..k]) + Distance(ApplyRuns(v, runs[..k]), next)
  {
    assert runs[..k + 1][..k] == runs[..k];
  }

  /** A valid range is not clamped. */
  lemma ValidEnd(count: int, r: Run)
    requires ValidRange(count, r) && count < 0x1_0000_0000
    ensures UpdateEnd(count, true, r.first, r.count) == r.first + r.count && r.count < 0x8000_0000_0000_0000
  {
  }

  class Slot {
    var words: seq<nat>
    var count: int
    var version: int
    var armed: bool

    ghost predicate Valid()
      reads this
    {
      Packed(words, count)
    }

    ghost function View(): (b: seq<bool>)
      reads this
      requires Valid()
    {
      Bits(words, count)
    }

    /** Arms the slot with a mask repeated over all projections. */
    method Arm(mask: nat, projections: int)
      requires IsWord(mask) && projections > 0
      modifies this
      ensures armed && version == 0 && count == projections % 0x1_0000_0000
      ensures Valid() <==> projections < 0x1_0000_0000
      ensures Valid() ==> forall i :: 0 <= i < projections ==> View()[i] == Bit(mask, i % 64)
    {
      ArmedIsPacked(mask, projections);
      ArmedView(mask, projections);
      words := ArmedWords(mask, projections);
      count, version, armed := projections % 0x1_0000_0000, 0, true;
    }

    method Update(first: int, n: int, initialized: bool) returns (changed: int)
      requires Valid() && n < 0x8000_0000_0000_0000
      modifies this`words
      ensures Valid() && View() == SetRange(old(View()), first, UpdateEnd(count, armed, first, n), initialized)
      ensures changed == Distance(old(View()), View())
    {
      ghost var before := words;
      words, changed := UpdateRange(words, count, armed, first, n, initialized);
      PackedUpdate(before, count, words, first, UpdateEnd(count, armed, first, n), initialized);
    }

    /** projection_range_set, and projection_set with n = 1: bumps the version when something flipped. */
    method RangeSet(first: int, n: int, initialized: bool)
      requires Valid() && n < 0x8000_0000_0000_0000
      modifies this`words, this`version
      ensures Valid() && View() == SetRange(old(View()), first, UpdateEnd(count, armed, first, n), initialized)
      ensures version == if View() == old(View()) then old(version) else (old(version) + 1) % 0x1_0000_0000_0000_0000
    {
      ghost var before := View();
      var changed := Update(first, n, initialized);
      DistanceZero(before, View());
      if changed != 0 { version := (version + 1) % 0x1_0000_0000_0000_0000; }
    }

    /** projection_batch_set: nothing at all if any range is invalid, otherwise every range in order. */
    method BatchSet(updates: seq<Run>) returns (changed: int)
      requires Valid()
      modifies this`words, this`version
      ensures Valid()
      ensures !(forall k :: 0 <= k < |updates| ==> ValidRange(count, updates[k])) ==>
        changed == 0 && words == old(words) && version == old(version)
      ensures armed && (forall k :: 0 <= k < |updates| ==> ValidRange(count, updates[k])) ==>
        View() == ApplyRuns(old(View()), updates) && changed == TotalFlips(old(View()), updates)
      ensures version == if changed == 0 then old(version) else (old(version) + 1) % 0x1_0000_0000_0000_0000
    {
      changed := 0;
      var valid := AllInside(count, updates);
      if !valid { return; }
      changed := Apply(updates);
      if changed != 0 { version := (version + 1) % 0x1_0000_0000_0000_0000; }
    }

    method ApplyOne(r: Run) returns (changed: nat)
      requires Valid() && ValidRange(count, r)
      modifies this`words
      ensures Valid()
      ensures armed ==> View() == SetRange(old(View()), r.first, r.first + r.count, r.initialized)
      ensures armed ==> changed == Distance(old(View()), View())
    {
      ValidEnd(count, r);
      changed := Update(r.first, r.count, r.initialized);
    }

    method Apply(updates: seq<Run>) returns (changed: nat)
      requires Valid() && forall k :: 0 <= k < |updates| ==> ValidRange(count, updates[k])
      modifies this`words
      ensures Valid()
      ensures armed ==> View() == ApplyRuns(old(View()), updates) && changed == TotalFlips(old(View()), updates)
    {
      changed := 0;
      ghost var start := View();
      for k := 0 to |updates|
        invariant Valid()
        invariant armed ==>
          View() == ApplyRuns(start, updates[..k]) && changed == TotalFlips(start, updates[..k])
      {
        var step := ApplyOne(updates[k]);
        changed := changed + step;
        if armed { NextRun(start, updates, k); }
      }
      assert updates[..|updates|] == updates;
    }
  }

  method AllInside(count: int, updates: seq<Run>) returns (ok: bool)
    ensures ok <==> forall k :: 0 <= k < |updates| ==> ValidRange(count, updates[k])
  {
    for k := 0 to |updates|
      invariant forall j :: 0 <= j < k ==> ValidRange(count, updates[j])
    {
      if !ValidRange(count, updates[k]) { return false; }
    }
    return true;
  }

  lemma {:induction false} FlipsZero(a: seq<bool>, b: seq<bool>, lo: nat, n: nat)
    requires |a| == |b| && lo + n <= |a|
    ensures Flips(a, b, lo, n) == 0 <==> forall i :: lo <= i < lo + n ==> a[i] == b[i]
  {
    if n > 0 { FlipsZero(a, b, lo, n - 1); }
  }

  lemma DistanceZero(a: seq<bool>, b: seq<bool>)
    requires |a| == |b|
    ensures Distance(a, b) == 0 <==> a == b
  {
    FlipsZero(a, b, 0, |a|);
  }

  // ---------- exporting runs ----------

  /** The words show these booleans, one bit each. */
  ghost predicate Shows(words: seq<nat>, b: seq<bool>) {
    |b| <= 64 * |words| && forall i :: 0 <= i < |b| ==> b[i] == Bit(words[i / 64], i % 64)
  }

  lemma PackedShows(words: seq<nat>, count: int)
    requires Packed(words, count)
    ensures Shows(words, Bits(words, count)) && (count == 0 <==> words == [])
  {
  }

  /** Reads projection `i` the way the export loops do. */
  method ReadBit(words: seq<nat>, i: nat, ghost b: seq<bool>) returns (bit: bool)
    requires Shows(words, b) && i < |b|
    ensures bit == b[i]
  {
    bit := Bit(words[i / 64], i % 64);
  }

  /** The runs closed before projection `p` and the open one. */
  lemma OpenRun(b: seq<bool>, p: nat)
    requires 1 <= p <= |b|
    ensures var runs := RunsUpTo(b, p);
      && runs != [] && runs[|runs| - 1].first + runs[|runs| - 1].count == p && runs[|runs| - 1].initialized == b[p - 1]
      && (p < |b| && b[p] != b[p - 1] ==> RunsUpTo(b, p + 1) == runs + [Run(p, 1, b[p])])
      && (p < |b| && b[p] == b[p - 1] ==>
           RunsUpTo(b, p + 1) == runs[|runs| - 1 := runs[|runs| - 1].(count := runs[|runs| - 1].count + 1)])
  {
    RunsAreRuns(b, p);
    assert RunOk(b, p, RunsUpTo(b, p)[|RunsUpTo(b, p)| - 1]);
  }

  method CountRuns(words: seq<nat>, count: nat, ghost b: seq<bool>) returns (runs: int)
    requires Shows(words, b) && count == |b| > 0
    ensures runs == |RunsOf(b)|
  {
    runs := 1;
    var previous := ReadBit(words, 0, b);
    for p := 1 to count
      invariant runs == |RunsUpTo(b, p)| && previous == b[p - 1]
    {
      OpenRun(b, p);
      var current := ReadBit(words, p, b);
      if current != previous { runs, previous := runs + 1, current; }
    }
  }

  /** projection_run_count. */
  method RunCount(words: seq<nat>, count: int) returns (runs: int)
    requires Packed(words, count)
    ensures runs == |RunsOf(Bits(words, count))|
  {
    PackedShows(words, count);
    if count == 0 || words == [] { return 0; }
    runs := CountRuns(words, count, Bits(words, count));
  }

  /** The buffers hold these runs, as far as they reach. */
  ghost predicate Emitted(runs: seq<Run>, firsts: seq<int>, counts: seq<int>, states: seq<int>, capacity: int) {
    && capacity <= |firsts| && capacity <= |counts| && capacity <= |states|
    && forall k :: 0 <= k < |runs| && k < capacity ==>
         firsts[k] == runs[k].first && counts[k] == runs[k].count && states[k] == if runs[k].initialized then 1 else 0
  }

  /** Stores one more run while there is room for it. */
  method Emit(firsts: array<int>, counts: array<int>, states: array<int>, capacity: int, emitted: nat, run: Run,
          ghost runs: seq<Run>)
    requires Emitted(runs, firsts[..], counts[..], states[..], capacity) && emitted == |runs|
    requires firsts != counts && counts != states && firsts != states
    modifies firsts, counts, states
    ensures Emitted(runs + [run], firsts[..], counts[..], states[..], capacity)
  {
    if emitted < capacity {
      firsts[emitted], counts[emitted], states[emitted] := run.first, run.count, if run.initialized then 1 else 0;
    }
  }

  /** One projection further: the open run grows, or is closed and a new one opened. */
  lemma RunStep(b: seq<bool>, p: nat, closed: seq<Run>, first: int, state: bool)
    requires 1 <= p < |b| && RunsUpTo(b, p) == closed + [Run(first, p - first, state)] && state == b[p - 1]
    ensures b[p] == state ==> RunsUpTo(b, p + 1) == closed + [Run(first, p + 1 - first, state)]
    ensures b[p] != state ==> RunsUpTo(b, p + 1) == closed + [Run(first, p - first, state)] + [Run(p, 1, b[p])]
  {
    OpenRun(b, p);
  }

  /**
   The export loop between two rounds: the 32-bit counter, the open run, and the runs handed to
   the caller so far, which stores those that fit.
   */
  datatype Export = Export(p: nat, first: int, state: bool, done: seq<Run>)

  function StartExport(words: seq<nat>): Export
    requires words != []
  {
    Export(1, 0, Bit(words[0], 0), [])
  }

  /** The loop condition. */
  predicate Exporting(count: nat, e: Export) {
    e.p <= count
  }

  /** ++ on a 32-bit counter. */
  function Next32(p: nat): nat {
    if p == 0xFFFF_FFFF then 0 else p + 1
  }

  /** The round closes the open run: at the boundary, and where the state changes. */
  predicate Closes(words: seq<nat>, count: nat, e: Export)
    requires count <= 64 * |words| && Exporting(count, e)
  {
    e.p == count || Bit(words[e.p / 64], e.p % 64) != e.state
  }

  function Round(words: seq<nat>, count: nat, e: Export): Export
    requires count <= 64 * |words| && Exporting(count, e)
  {
    if Closes(words, count, e)
    then Export(Next32(e.p), e.p, if e.p == count then e.state else !e.state,
      e.done + [Run(e.first, e.p - e.first, e.state)])
    else e.(p := Next32(e.p))
  }

  /** The loop after `n` rounds, or where it stopped before. */
  ghost function Rounds(words: seq<nat>, count: nat, n: nat): Export
    requires 0 < count <= 64 * |words|
  {
    if n == 0 then StartExport(words)
    else
      var e := Rounds(words, count, n - 1);
      if Exporting(count, e) then Round(words, count, e) else e
  }

  /** A round before the boundary extends the runs by one projection. */
  lemma InnerRound(words: seq<nat>, b: seq<bool>, p: nat, e: Export)
    requires Shows(words, b) && 1 <= p < |b| < 0x1_0000_0000 && e.p == p && e.state == b[p - 1]
    requires RunsUpTo(b, p) == e.done + [Run(e.first, p - e.first, e.state)]
    ensures var r := Round(words, |b|, e);
      r.p == p + 1 && r.state == b[p] && RunsUpTo(b, p + 1) == r.done + [Run(r.first, p + 1 - r.first, r.state)]
  {
    RunStep(b, p, e.done, e.first, e.state);
    assert b[p] == Bit(words[p / 64], p % 64);
  }

  /** Up to the last projection the closed runs and the open one are the runs so far. */
  lemma {:induction false} RoundsAreRuns(words: seq<nat>, b: seq<bool>, n: nat)
    requires Shows(words, b) && n < |b| < 0x1_0000_0000
    ensures var e := Rounds(words, |b|, n);
      e.p == n + 1 && RunsUpTo(b, n + 1) == e.done + [Run(e.first, n + 1 - e.first, e.state)] && e.state == b[n]
  {
    if n > 0 {
      RoundsAreRuns(words, b, n - 1);
      InnerRound(words, b, n, Rounds(words, |b|, n - 1));
    } else {
      FirstRound(words, b);
    }
  }

  /** The first projection opens the first run. */
  lemma FirstRound(words: seq<nat>, b: seq<bool>)
    requires Shows(words, b) && 0 < |b|
    ensures var e := Rounds(words, |b|, 0); e.p == 1 && e.done == [] && e.first == 0 && e.state == b[0]
    ensures RunsUpTo(b, 1) == [Run(0, 1, b[0])]
  {
    assert RunsUpTo(b, 0) == [];
    assert b[0] == Bit(words[0 / 64], 0 % 64);
  }

  /** The boundary round closes the last run. */
  lemma BoundaryRound(words: seq<nat>, b: seq<bool>)
    requires Shows(words, b) && 0 < |b| < 0x1_0000_0000
    ensures Rounds(words, |b|, |b|).done == RunsOf(b) && Rounds(words, |b|, |b|).p == Next32(|b|)
  {
    RoundsAreRuns(words, b, |b| - 1);
  }

  lemma {:induction false} Stopped(words: seq<nat>, count: nat, n: nat, m: nat)
    requires 0 < count <= 64 * |words| && n <= m && !Exporting(count, Rounds(words, count, n))
    ensures Rounds(words, count, m) == Rounds(words, count, n)
    decreases m
  {
    if n < m { Stopped(words, count, n, m - 1); }
  }

  /** At the largest 32-bit count the counter never gets past the count. */
  lemma {:induction false} NeverPast(words: seq<nat>, n: nat)
    requires 0xFFFF_FFFF <= 64 * |words|
    ensures Exporting(0xFFFF_FFFF, Rounds(words, 0xFFFF_FFFF, n))
    decreases n
  {
    if n > 0 { NeverPast(words, n - 1); }
  }

  /**
   The export loop ends if and only if the count is below the largest 32-bit value, and then it has
   handed out exactly the runs.
   */
  lemma ExportEnds(words: seq<nat>, b: seq<bool>)
    requires Shows(words, b) && 0 < |b| < 0x1_0000_0000
    ensures (exists n: nat :: !Exporting(|b|, Rounds(words, |b|, n))) <==> |b| < 0xFFFF_FFFF
    ensures forall n: nat :: !Exporting(|b|, Rounds(words, |b|, n)) ==> Rounds(words, |b|, n).done == RunsOf(b)
  {
    BoundaryRound(words, b);
    if |b| < 0xFFFF_FFFF {
      assert !Exporting(|b|, Rounds(words, |b|, |b|));
      forall n: nat | !Exporting(|b|, Rounds(words, |b|, n)) ensures Rounds(words, |b|, n).done == RunsOf(b) {
        if n < |b| { RoundsAreRuns(words, b, n); } else { Stopped(words, |b|, |b|, n); }
      }
    } else {
      forall n: nat ensures Exporting(|b|, Rounds(words, |b|, n)) { NeverPast(words, n); }
    }
  }

  /** From counter 0 the rounds count up again, and the runs handed out stay. */
  lemma {:induction false} CountsUp(words: seq<nat>, from: nat, k: nat)
    requires 0xFFFF_FFFF <= 64 * |words| && k <= 0xFFFF_FFFF && Rounds(words, 0xFFFF_FFFF, from).p == 0
    ensures Rounds(words, 0xFFFF_FFFF, from + k).p == k
    ensures Rounds(words, 0xFFFF_FFFF, from).done <= Rounds(words, 0xFFFF_FFFF, from + k).done
  {
    if k > 0 { CountsUp(words, from, k - 1); }
  }

  /** There the loop comes to the boundary again and hands out more than the runs. */
  lemma ExportOverruns(words: seq<nat>, b: seq<bool>)
    requires Shows(words, b) && |b| == 0xFFFF_FFFF
    ensures exists n: nat :: |Rounds(words, |b|, n).done| > |RunsOf(b)|
  {
    var n: nat := |b|;
    BoundaryRound(words, b);
    CountsUp(words, n, 0xFFFF_FFFF);
    var again := n + 0xFFFF_FFFF;
    assert Rounds(words, n, again + 1) == Round(words, n, Rounds(words, n, again));
    assert |Rounds(words, n, again + 1).done| > |RunsOf(b)|;
  }

  /** The loop of projection_copy_runs; it is entered only where it ends. */
  method WriteRuns(words: seq<nat>, count: nat, firsts: array<int>, counts: array<int>, states: array<int>,
          capacity: nat, ghost b: seq<bool>)
    requires Shows(words, b) && 0 < count == |b| < 0xFFFF_FFFF
    requires capacity <= firsts.Length && capacity <= counts.Length && capacity <= states.Length
    requires firsts != counts && counts != states && firsts != states
    modifies firsts, counts, states
    ensures Emitted(RunsOf(b), firsts[..], counts[..], states[..], capacity)
  {
    var e := StartExport(words);
    var emitted: nat := 0;
    ghost var n: nat := 0;
    while e.p <= count
      invariant n <= count && e.p == n + 1 && e == Rounds(words, count, n)
      invariant emitted == |e.done| && Emitted(e.done, firsts[..], counts[..], states[..], capacity)
      decreases count + 1 - e.p
    {
      if Closes(words, count, e) {
        Emit(firsts, counts, states, capacity, emitted, Run(e.first, e.p - e.first, e.state), e.done);
        emitted := emitted + 1;
      }
      e, n := Round(words, count, e), n + 1;
    }
    ExportEnds(words, b);
  }

  /** projection_copy_runs: fills the caller's arrays with the first `capacity` runs and returns how many there are. */
  method CopyRuns(words: seq<nat>, count: int, firsts: array<int>, counts: array<int>, states: array<int>,
          capacity: int)
    returns (required: int)
    requires Packed(words, count) && (capacity > 0 ==> count < 0xFFFF_FFFF)
    requires capacity <= firsts.Length && capacity <= counts.Length && capacity <= states.Length
    requires firsts != counts && counts != states && firsts != states
    modifies firsts, counts, states
    ensures required == |RunsOf(Bits(words, count))|
    ensures Emitted(RunsOf(Bits(words, count)), firsts[..], counts[..], states[..], capacity)
  {
    required := RunCount(words, count);
    PackedShows(words, count);
    if count == 0 || words == [] || capacity <= 0 { return; }
    WriteRuns(words, count, firsts, counts, states, capacity, Bits(words, count));
  }

  /**
   Exported runs fed to a batch on any armed bitmap of the same count: all ranges are valid, the
   source is reproduced, the Hamming distance is reported, and it is zero only without a change.
   */
  lemma ExportImports(v: seq<bool>, b: seq<bool>)
    requires |v| == |b|
    ensures forall k :: 0 <= k < |RunsOf(b)| ==> ValidRange(|b|, RunsOf(b)[k])
    ensures ApplyRuns(v, RunsOf(b)) == b && TotalFlips(v, RunsOf(b)) == Distance(v, b)
    ensures TotalFlips(v, RunsOf(b)) == 0 <==> v == b
  {
    ImportExport(v, b);
    DistanceZero(v, b);
    forall k | 0 <= k < |RunsOf(b)| ensures ValidRange(|b|, RunsOf(b)[k]) { assert RunOk(b, |b|, RunsOf(b)[k]); }
  }
}
