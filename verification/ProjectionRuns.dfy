/** Runs of a projection bitmap: maximal alternating ranges, exported and imported in batches. */
module ProjectionRuns {
  import opened Projection

  datatype Run = Run(first: int, count: int, initialized: bool)

  // ---------- the runs of a sequence of booleans ----------

  /** Runs of the first `n` booleans. */
  function RunsUpTo(b: seq<bool>, n: nat): seq<Run>
    requires n <= |b|
  {
    if n == 0 then []
    else
      var before := RunsUpTo(b, n - 1);
      if n == 1 || b[n - 1] != b[n - 2] || before == [] then before + [Run(n - 1, 1, b[n - 1])]
      else
        var last := before[|before| - 1];
        before[|before| - 1 := last.(count := last.count + 1)]
  }

  function RunsOf(b: seq<bool>): seq<Run> {
    RunsUpTo(b, |b|)
  }

  /** The runs tile the first `n` booleans, each is constant, and neighbours alternate, so each is maximal. */
  ghost predicate IsRuns(b: seq<bool>, n: nat, runs: seq<Run>) {
    && n <= |b| && (runs == [] <==> n == 0)
    && (runs != [] ==> runs[0].first == 0 && runs[|runs| - 1].first + runs[|runs| - 1].count == n)
    && (forall k :: 0 <= k < |runs| ==> RunOk(b, n, runs[k]))
    && (forall k :: 0 <= k < |runs| - 1 ==>
         runs[k].first + runs[k].count == runs[k + 1].first && runs[k].initialized != runs[k + 1].initialized)
  }

  ghost predicate RunOk(b: seq<bool>, n: nat, r: Run) {
    && 0 <= r.first && 1 <= r.count && r.first + r.count <= n <= |b|
    && forall i :: r.first <= i < r.first + r.count ==> b[i] == r.initialized
  }

  lemma {:induction false} RunsAreRuns(b: seq<bool>, n: nat)
    requires n <= |b|
    ensures IsRuns(b, n, RunsUpTo(b, n))
  {
    if n > 0 {
      RunsAreRuns(b, n - 1);
      var before := RunsUpTo(b, n - 1);
      assert forall k :: 0 <= k < |before| ==> RunOk(b, n - 1, before[k]);
      if n > 1 { assert before[|before| - 1].initialized == b[n - 2]; }
      RunsGrow(b, n, before, RunsUpTo(b, n));
    }
  }

  lemma RunsGrow(b: seq<bool>, n: nat, before: seq<Run>, runs: seq<Run>)
    requires 1 <= n <= |b| && IsRuns(b, n - 1, before)
    requires n > 1 ==> before[|before| - 1].initialized == b[n - 2]
    requires runs ==
      if n == 1 || b[n - 1] != b[n - 2] then before + [Run(n - 1, 1, b[n - 1])]
      else before[|before| - 1 := before[|before| - 1].(count := before[|before| - 1].count + 1)]
    ensures IsRuns(b, n, runs)
  {
    forall k | 0 <= k < |runs| ensures RunOk(b, n, runs[k]) {
      if k < |before| { assert RunOk(b, n - 1, before[k]); }
    }
  }

  /** There is only one way to cut a sequence into maximal alternating runs. */
  lemma {:induction false} RunsUnique(b: seq<bool>, n: nat, r: seq<Run>, s: seq<Run>, k: nat)
    requires IsRuns(b, n, r) && IsRuns(b, n, s) && k <= |r| && k <= |s|
    ensures r[..k] == s[..k]
    ensures k == |r| && n > 0 ==> |s| == k
    decreases k
  {
    if k > 0 {
      RunsUnique(b, n, r, s, k - 1);
      var x, y := r[k - 1], s[k - 1];
      assert RunOk(b, n, x) && RunOk(b, n, y);
      if k > 1 { assert r[k - 2] == r[..k - 1][k - 2] && s[k - 2] == s[..k - 1][k - 2]; }
      assert x.first == y.first;
      assert b[x.first] == x.initialized == y.initialized;
      if x.count < y.count { NextDiffers(b, n, r, k - 1); }
      if y.count < x.count { NextDiffers(b, n, s, k - 1); }
      assert x == y;
      LastEnds(b, n, s, k - 1);
    }
  }

  /** Only the last run reaches the end. */
  lemma LastEnds(b: seq<bool>, n: nat, s: seq<Run>, j: nat)
    requires IsRuns(b, n, s) && j < |s|
    ensures s[j].first + s[j].count == n ==> j == |s| - 1
  {
    assert RunOk(b, n, s[|s| - 1]);
    if j < |s| - 1 { EndsBefore(b, n, s, j, |s| - 1); }
  }

  /** Behind a run that is not the last comes the other value. */
  lemma NextDiffers(b: seq<bool>, n: nat, r: seq<Run>, k: nat)
    requires IsRuns(b, n, r) && k < |r| && r[k].first + r[k].count < n
    ensures r[k].first + r[k].count < |b| && b[r[k].first + r[k].count] != r[k].initialized
  {
    if k + 1 < |r| { assert RunOk(b, n, r[k + 1]); }
  }

  /** Whatever tiles `b` with maximal alternating ranges is its exported list of runs. */
  lemma OnlyRuns(b: seq<bool>, runs: seq<Run>)
    requires IsRuns(b, |b|, runs)
    ensures runs == RunsOf(b)
  {
    var r := RunsOf(b);
    RunsAreRuns(b, |b|);
    if |r| <= |runs| { RunsUnique(b, |b|, r, runs, |r|); } else { RunsUnique(b, |b|, runs, r, |runs|); }
    assert runs[..|runs|] == runs && r[..|r|] == r;
  }

  // ---------- importing runs ----------

  ghost function ApplyRuns(v: seq<bool>, runs: seq<Run>): (r: seq<bool>)
    ensures |r| == |v|
  {
    if runs == [] then v
    else
      var front, last := runs[..|runs| - 1], runs[|runs| - 1];
      SetRange(ApplyRuns(v, front), last.first, last.first + last.count, last.initialized)
  }

  /** What the batch reports: the flips of every step, added up. */
  ghost function TotalFlips(v: seq<bool>, runs: seq<Run>): nat {
    if runs == [] then 0
    else TotalFlips(v, runs[..|runs| - 1]) + Distance(ApplyRuns(v, runs[..|runs| - 1]), ApplyRuns(v, runs))
  }

  /** Importing the first runs of `b` makes the prefix equal to `b`, flipping exactly the differences. */
  lemma {:induction false} ImportPrefix(v: seq<bool>, b: seq<bool>, runs: seq<Run>, n: nat)
    requires |v| == |b| && IsRuns(b, n, runs)
    ensures forall i :: 0 <= i < |b| ==> ApplyRuns(v, runs)[i] == if i < n then b[i] else v[i]
    ensures TotalFlips(v, runs) == Distance(v, ApplyRuns(v, runs))
  {
    if runs == [] {
      NoFlips(v, v, 0, |v|);
    } else {
      var front, last := runs[..|runs| - 1], runs[|runs| - 1];
      assert RunOk(b, n, last);
      FrontIsRuns(b, n, runs);
      ImportPrefix(v, b, front, last.first);
      var r, r' := ApplyRuns(v, front), ApplyRuns(v, runs);
      DistanceGrows(v, r, r', last.first, last.count, |v| - last.first - last.count);
      NoDifferenceOutside(r, r', last.first, last.count);
    }
  }

  lemma FrontIsRuns(b: seq<bool>, n: nat, runs: seq<Run>)
    requires IsRuns(b, n, runs) && runs != []
    ensures 0 <= runs[|runs| - 1].first && IsRuns(b, runs[|runs| - 1].first, runs[..|runs| - 1])
  {
    var front, last := runs[..|runs| - 1], runs[|runs| - 1];
    assert RunOk(b, n, last);
    forall k | 0 <= k < |front| ensures RunOk(b, last.first, front[k]) {
      assert RunOk(b, n, runs[k]);
      EndsBefore(b, n, runs, k, |runs| - 1);
    }
  }

  lemma {:induction false} EndsBefore(b: seq<bool>, n: nat, runs: seq<Run>, j: nat, k: nat)
    requires IsRuns(b, n, runs) && j < k < |runs|
    ensures runs[j].first + runs[j].count <= runs[k].first
    decreases k
  {
    if j + 1 < k {
      assert RunOk(b, n, runs[k - 1]);
      EndsBefore(b, n, runs, j, k - 1);
    }
  }

  lemma NoDifferenceOutside(r: seq<bool>, r': seq<bool>, lo: nat, n: nat)
    requires |r| == |r'| && lo + n <= |r| && forall i :: 0 <= i < |r| && !(lo <= i < lo + n) ==> r'[i] == r[i]
    ensures Distance(r, r') == Flips(r, r', lo, n)
  {
    var rest := |r| - lo - n;
    DistanceSplit(r, r', lo, n, rest);
    NoFlips(r, r', 0, lo);
    NoFlips(r, r', lo + n, rest);
  }

  /** Feeding the exported runs of `b` to any bitmap of the same size reproduces `b` and counts the Hamming distance. */
  lemma ImportExport(v: seq<bool>, b: seq<bool>)
    requires |v| == |b|
    ensures ApplyRuns(v, RunsOf(b)) == b && TotalFlips(v, RunsOf(b)) == Distance(v, b)
    ensures forall k :: 0 <= k < |RunsOf(b)| ==> RunOk(b, |b|, RunsOf(b)[k])
  {
    RunsAreRuns(b, |b|);
    ImportPrefix(v, b, RunsOf(b), |b|);
    assert ApplyRuns(v, RunsOf(b)) == b;
  }
}
