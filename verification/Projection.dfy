/**
 The packed projection bitmap of an async slot: word-and-mask updates refining a plain sequence
 of booleans.
 */
module Projection {
  import opened Words

  ghost predicate AllWords(words: seq<nat>) {
    forall k :: 0 <= k < |words| ==> IsWord(words[k])
  }

  /** The bitmap as booleans, 64 per word. */
  ghost function View(words: seq<nat>): (v: seq<bool>)
    ensures |v| == 64 * |words|
  {
    seq(64 * |words|, i requires 0 <= i < 64 * |words| => Bit(words[i / 64], i % 64))
  }

  lemma ViewAt(words: seq<nat>, k: nat, j: nat)
    requires k < |words| && j < 64
    ensures 64 * k + j < |View(words)| && View(words)[64 * k + j] == Bit(words[k], j)
  {
    assert (64 * k + j) / 64 == k && (64 * k + j) % 64 == j;
  }

  // ---------- counting differences ----------

  /** How many of the `n` booleans from `lo` on differ. */
  ghost function Flips(a: seq<bool>, b: seq<bool>, lo: nat, n: nat): nat
    requires |a| == |b| && lo + n <= |a|
  {
    if n == 0 then 0 else Flips(a, b, lo, n - 1) + if a[lo + n - 1] != b[lo + n - 1] then 1 else 0
  }

  /** The Hamming distance. */
  ghost function Distance(a: seq<bool>, b: seq<bool>): nat
    requires |a| == |b|
  {
    Flips(a, b, 0, |a|)
  }

  lemma {:induction false} FlipsSplit(a: seq<bool>, b: seq<bool>, lo: nat, n: nat, m: nat)
    requires |a| == |b| && lo + n + m <= |a|
    ensures Flips(a, b, lo, n + m) == Flips(a, b, lo, n) + Flips(a, b, lo + n, m)
    decreases m
  {
    if m > 0 {
      FlipsSplit(a, b, lo, n, m - 1);
      assert lo + (n + m) - 1 == (lo + n) + m - 1;
    }
  }

  /** Only what is inside the window matters. */
  lemma {:induction false} FlipsSame(a: seq<bool>, b: seq<bool>, a': seq<bool>, b': seq<bool>, lo: nat, n: nat)
    requires |a| == |b| == |a'| == |b'| && lo + n <= |a|
    requires forall i :: lo <= i < lo + n ==> a[i] == a'[i] && b[i] == b'[i]
    ensures Flips(a, b, lo, n) == Flips(a', b', lo, n)
  {
    if n > 0 { FlipsSame(a, b, a', b', lo, n - 1); }
  }

  lemma {:induction false} NoFlips(a: seq<bool>, b: seq<bool>, lo: nat, n: nat)
    requires |a| == |b| && lo + n <= |a| && forall i :: lo <= i < lo + n ==> a[i] == b[i]
    ensures Flips(a, b, lo, n) == 0
  {
    if n > 0 { NoFlips(a, b, lo, n - 1); }
  }

  // ---------- one word ----------

  /** What the loop stores in a word. */
  function Updated(before: nat, mask: nat, initialized: bool): nat
    requires IsWord(mask)
  {
    if initialized then Or(before, mask) else And(before, Not(mask))
  }

  lemma UpdatedBits(before: nat, bit: nat, span: nat, initialized: bool, i: nat)
    requires IsWord(before) && 1 <= span && bit + span <= 64 && i < 64
    ensures var mask := SpanMask(bit, span);
      IsWord(mask)
        && (Bit(Updated(before, mask, initialized), i) <==>
              if bit <= i < bit + span then initialized else Bit(before, i))
  {
    var mask := SpanMask(bit, span);
    SpanMaskBits(bit, span, i);
    if initialized {
      OrBit(before, mask, i);
    } else {
      NotBit(mask, i);
      AndBit(before, Not(mask), i);
    }
  }

  lemma UpdatedIsWord(before: nat, mask: nat, initialized: bool)
    requires IsWord(before) && IsWord(mask)
    ensures IsWord(Updated(before, mask, initialized))
  {
    if initialized {
      OpsBelow(before, mask, 64);
    } else {
      NotBit(mask, 0);
      OpsBelow(before, Not(mask), 64);
    }
  }

  /** popcount((before ^ after) & mask): the bits that flipped. */
  function Flipped(before: nat, after: nat, mask: nat): nat {
    PopCount(And(Xor(before, after), mask))
  }

  lemma FlippedBit(before: nat, after: nat, bit: nat, span: nat, i: nat)
    requires 1 <= span && bit + span <= 64
    ensures Bit(And(Xor(before, after), SpanMask(bit, span)), i) <==>
      bit <= i < bit + span && Bit(before, i) != Bit(after, i)
  {
    SpanMaskBits(bit, span, i);
    XorBit(before, after, i);
    AndBit(Xor(before, after), SpanMask(bit, span), i);
  }

  lemma {:induction false} NoBits(w: nat, from: nat, n: nat)
    requires forall i :: from <= i < from + n ==> !Bit(w, i)
    ensures CountBits(w, from + n) == CountBits(w, from)
  {
    if n > 0 { NoBits(w, from, n - 1); }
  }

  /** Counting the flipped bits of word `k` is counting flipped projections. */
  lemma {:induction false} FlipsOfWord(a: seq<nat>, b: seq<nat>, k: nat, bit: nat, span: nat, w: nat, n: nat)
    requires k < |a| == |b| && bit + span <= 64 && n <= span
    requires forall i :: 0 <= i < 64 ==> (Bit(w, i) <==> bit <= i < bit + span && Bit(a[k], i) != Bit(b[k], i))
    ensures 64 * k + bit + n <= 64 * |a| && CountBits(w, bit + n) == Flips(View(a), View(b), 64 * k + bit, n)
  {
    if n == 0 {
      NoBits(w, 0, bit);
    } else {
      FlipsOfWord(a, b, k, bit, span, w, n - 1);
      ViewAt(a, k, bit + n - 1);
      ViewAt(b, k, bit + n - 1);
    }
  }

  lemma FlippedCounts(a: seq<nat>, b: seq<nat>, k: nat, bit: nat, span: nat)
    requires k < |a| == |b| && 1 <= span && bit + span <= 64
    ensures 64 * k + bit + span <= 64 * |a|
    ensures Flipped(a[k], b[k], SpanMask(bit, span)) == Flips(View(a), View(b), 64 * k + bit, span)
  {
    var w := And(Xor(a[k], b[k]), SpanMask(bit, span));
    forall i | 0 <= i < 64 ensures Bit(w, i) <==> bit <= i < bit + span && Bit(a[k], i) != Bit(b[k], i) {
      FlippedBit(a[k], b[k], bit, span, i);
    }
    FlipsOfWord(a, b, k, bit, span, w, span);
    NoBits(w, bit + span, 64 - (bit + span));
  }

  // ---------- the update loop ----------

  /** `v` with the booleans from `lo` up to `hi` set to `b`. */
  ghost function SetRange(v: seq<bool>, lo: int, hi: int, b: bool): (r: seq<bool>)
    ensures |r| == |v|
    ensures forall i :: 0 <= i < |v| ==> r[i] == if lo <= i < hi then b else v[i]
  {
    seq(|v|, i requires 0 <= i < |v| => if lo <= i < hi then b else v[i])
  }

  lemma UpdatedView(r: seq<nat>, k: nat, bit: nat, span: nat, initialized: bool)
    requires k < |r| && AllWords(r) && 1 <= span && bit + span <= 64 && IsWord(SpanMask(bit, span))
    ensures View(r[k := Updated(r[k], SpanMask(bit, span), initialized)]) ==
      SetRange(View(r), 64 * k + bit, 64 * k + bit + span, initialized)
  {
    var r' := r[k := Updated(r[k], SpanMask(bit, span), initialized)];
    forall i | 0 <= i < |View(r)|
      ensures View(r')[i] == SetRange(View(r), 64 * k + bit, 64 * k + bit + span, initialized)[i] {
      UpdatedBit(r, r', k, bit, span, initialized, i, i / 64, i % 64);
    }
  }

  lemma UpdatedBit(r: seq<nat>, r': seq<nat>, k: nat, bit: nat, span: nat, initialized: bool, i: nat, q: nat, j: nat)
    requires k < |r| && AllWords(r) && 1 <= span && bit + span <= 64 && IsWord(SpanMask(bit, span))
    requires r' == r[k := Updated(r[k], SpanMask(bit, span), initialized)] && i == 64 * q + j && j < 64 && q < |r|
    ensures i < |View(r)| && View(r')[i] == if 64 * k + bit <= i < 64 * k + bit + span then initialized else View(r)[i]
  {
    ViewAt(r, q, j);
    ViewAt(r', q, j);
    if q == k { UpdatedBits(r[k], bit, span, initialized, j); }
  }

  /** One round of the loop: the rest of a word, or the rest of the range. */
  method UpdateStep(r: seq<nat>, cursor: nat, end: nat, initialized: bool)
    returns (r': seq<nat>, span: nat, flipped: nat)
    requires AllWords(r) && cursor < end && cursor / 64 < |r|
    ensures 1 <= span && cursor + span <= end && cursor + span <= 64 * |r| && |r'| == |r| && AllWords(r')
    ensures View(r') == SetRange(View(r), cursor, cursor + span, initialized)
    ensures flipped == Flips(View(r), View(r'), cursor, span)
  {
    var k, bit := cursor / 64, cursor % 64;
    assert cursor == 64 * k + bit;
    span := if 64 - bit < end - cursor then 64 - bit else end - cursor;
    r', flipped := UpdateWord(r, k, bit, span, initialized);
  }

  method UpdateWord(r: seq<nat>, k: nat, bit: nat, span: nat, initialized: bool) returns (r': seq<nat>, flipped: nat)
    requires AllWords(r) && k < |r| && 1 <= span && bit + span <= 64
    ensures |r'| == |r| && AllWords(r') && View(r') == SetRange(View(r), 64 * k + bit, 64 * k + bit + span, initialized)
    ensures 64 * k + bit + span <= 64 * |r| && flipped == Flips(View(r), View(r'), 64 * k + bit, span)
  {
    var mask := SpanMask(bit, span);
    SpanMaskBits(bit, span, 0);
    UpdatedIsWord(r[k], mask, initialized);
    UpdatedView(r, k, bit, span, initialized);
    r' := r[k := Updated(r[k], mask, initialized)];
    flipped := Flipped(r[k], r'[k], mask);
    FlippedCounts(r, r', k, bit, span);
  }

  lemma DistanceSplit(a: seq<bool>, b: seq<bool>, lo: nat, n: nat, rest: nat)
    requires |a| == |b| == lo + n + rest
    ensures Distance(a, b) == Flips(a, b, 0, lo) + Flips(a, b, lo, n) + Flips(a, b, lo + n, rest)
  {
    FlipsSplit(a, b, 0, lo, n);
    FlipsSplit(a, b, 0, lo + n, rest);
  }

  /** Changing a window where the two agreed adds exactly the differences in it. */
  lemma DistanceGrows(v: seq<bool>, r: seq<bool>, r': seq<bool>, lo: nat, n: nat, rest: nat)
    requires |v| == |r| == |r'| == lo + n + rest
    requires forall i :: lo <= i < lo + n ==> v[i] == r[i]
    requires forall i :: 0 <= i < |v| && !(lo <= i < lo + n) ==> r'[i] == r[i]
    ensures Distance(v, r') == Distance(v, r) + Flips(r, r', lo, n)
  {
    DistanceSplit(v, r, lo, n, rest);
    DistanceSplit(v, r', lo, n, rest);
    FlipsSame(v, r', v, r, 0, lo);
    FlipsSame(v, r', v, r, lo + n, rest);
    FlipsSame(v, r', r, r', lo, n);
    NoFlips(v, r, lo, n);
  }

  /** Extending an updated range, and the differences it adds. */
  lemma StepExtends(v: seq<bool>, r: seq<bool>, r': seq<bool>, first: nat, cursor: nat, span: nat, b: bool)
    requires first <= cursor && cursor + span <= |v| && r == SetRange(v, first, cursor, b)
    requires r' == SetRange(r, cursor, cursor + span, b)
    ensures r' == SetRange(v, first, cursor + span, b)
    ensures Distance(v, r') == Distance(v, r) + Flips(r, r', cursor, span)
  {
    DistanceGrows(v, r, r', cursor, span, |v| - (cursor + span));
  }

  /** `first + n` in 64-bit two's complement arithmetic, for operands that are themselves in range. */
  function Sum64(first: int, n: int): int {
    if first + n < 0x8000_0000_0000_0000 then first + n else first + n - 0x1_0000_0000_0000_0000
  }

  /**
   The end of the touched range: the requested range clamped to the count, empty for a refused
   request or a wrapped sum.
   */
  function UpdateEnd(count: int, armed: bool, first: int, n: int): int {
    if !armed || first < 0 || n <= 0 || first >= count || Sum64(first, n) < first then first
    else if count < first + n then count else first + n
  }

  /**
   An accepted request touches the clamped range if and only if its end fits 64 bits; otherwise it
   touches nothing.
   */
  lemma ClampedUnlessWrapped(count: int, first: int, n: int)
    requires 0 <= first < count < 0x1_0000_0000 && 0 < n < 0x8000_0000_0000_0000
    ensures UpdateEnd(count, true, first, n) == (if count < first + n then count else first + n) <==>
      first + n < 0x8000_0000_0000_0000
    ensures first + n >= 0x8000_0000_0000_0000 ==> UpdateEnd(count, true, first, n) == first
  {
  }

  /** Whether a range ends at the end of the bitmap or behind it makes no difference. */
  lemma RangeReached(v: seq<bool>, first: int, cursor: int, end: int, b: bool)
    requires cursor == end || (|v| <= cursor && |v| <= end)
    ensures SetRange(v, first, cursor, b) == SetRange(v, first, end, b)
  {
  }

  /** The word loop from `first` to `end`, or to the end of the words. */
  method UpdateWords(words: seq<nat>, first: nat, end: nat, initialized: bool)
    returns (r: seq<nat>, changed: int, ghost reached: nat)
    requires AllWords(words) && first < end
    ensures |r| == |words| && AllWords(r) && first <= reached <= end && (reached == end || 64 * |words| <= reached)
    ensures View(r) == SetRange(View(words), first, reached, initialized) && changed == Distance(View(words), View(r))
  {
    r, changed := words, 0;
    var cursor := first;
    ghost var v := View(words);
    NoFlips(v, v, 0, |v|);
    assert SetRange(v, first, first, initialized) == v;
    while cursor < end
      invariant first <= cursor <= end && |r| == |words| && AllWords(r) && (cursor == first || cursor <= |v|)
      invariant View(r) == SetRange(v, first, cursor, initialized) && changed == Distance(v, View(r))
    {
      if cursor / 64 >= |words| { return r, changed, cursor; }
      var next, span, flipped := UpdateStep(r, cursor, end, initialized);
      StepExtends(v, View(r), View(next), first, cursor, span, initialized);
      r, cursor, changed := next, cursor + span, changed + flipped;
    }
    reached := cursor;
  }

  /** update_async_projection_range: sets exactly the clamped range and returns how many projections flipped. */
  method UpdateRange(words: seq<nat>, count: int, armed: bool, first: int, n: int, initialized: bool)
    returns (r: seq<nat>, changed: int)
    requires AllWords(words) && count < 0x1_0000_0000 && n < 0x8000_0000_0000_0000
    ensures |r| == |words| && AllWords(r)
    ensures View(r) == SetRange(View(words), first, UpdateEnd(count, armed, first, n), initialized)
    ensures changed == Distance(View(words), View(r))
  {
    r, changed := words, 0;
    ghost var v := View(words);
    NoFlips(v, v, 0, |v|);
    if !armed || first < 0 || n <= 0 || first >= count { return; }
    var sum := Sum64(first, n);
    var end := if count < sum then count else sum;
    if first >= end { return; }
    ghost var cursor;
    r, changed, cursor := UpdateWords(words, first, end, initialized);
    RangeReached(v, first, cursor, UpdateEnd(count, armed, first, n), initialized);
  }
}
