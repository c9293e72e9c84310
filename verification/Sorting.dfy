/** Stable sorting by a comparison, as std::sort and std::stable_sort are used by the linker. */
module Sorting {
  /** A strict weak order, as the C++ algorithms require of their comparison. */
  ghost predicate StrictWeak<T(!new)>(less: (T, T) -> bool) {
    && (forall a, b :: less(a, b) ==> !less(b, a))
    && (forall a, b, c :: !less(a, b) && !less(b, c) ==> !less(a, c))
  }

  ghost predicate Sorted<T>(s: seq<T>, less: (T, T) -> bool) {
    forall i, j :: 0 <= i < j < |s| ==> !less(s[j], s[i])
  }

  /** Behind every element that is not greater. */
  function Insert<T>(s: seq<T>, x: T, less: (T, T) -> bool): seq<T> {
    if s == [] || !less(x, s[|s| - 1]) then s + [x] else Insert(s[..|s| - 1], x, less) + [s[|s| - 1]]
  }

  function Sort<T>(s: seq<T>, less: (T, T) -> bool): seq<T> {
    if s == [] then [] else Insert(Sort(s[..|s| - 1], less), s[|s| - 1], less)
  }

  lemma {:induction false} InsertContents<T>(s: seq<T>, x: T, less: (T, T) -> bool)
    ensures multiset(Insert(s, x, less)) == multiset(s) + multiset{x} && |Insert(s, x, less)| == |s| + 1
  {
    if s != [] && less(x, s[|s| - 1]) {
      InsertContents(s[..|s| - 1], x, less);
      assert s == s[..|s| - 1] + [s[|s| - 1]];
    }
  }

  lemma {:induction false} InsertSorted<T(!new)>(s: seq<T>, x: T, less: (T, T) -> bool)
    requires StrictWeak(less) && Sorted(s, less)
    ensures Sorted(Insert(s, x, less), less)
  {
    if s != [] && less(x, s[|s| - 1]) {
      var front, last := s[..|s| - 1], s[|s| - 1];
      InsertSorted(front, x, less);
      InsertContents(front, x, less);
      var r := Insert(front, x, less);
      forall i | 0 <= i < |r| ensures !less(last, r[i]) {
        assert r[i] in multiset(r);
        if r[i] != x {
          assert r[i] in multiset(front);
          assert r[i] in front;
        }
      }
    } else if s != [] {
      forall i | 0 <= i < |s| ensures !less(x, s[i]) {
        if i < |s| - 1 { assert !less(x, s[|s| - 1]) && !less(s[|s| - 1], s[i]); }
      }
    }
  }

  /** Sorting permutes and sorts. */
  lemma {:induction false} SortIsSorted<T(!new)>(s: seq<T>, less: (T, T) -> bool)
    requires StrictWeak(less)
    ensures Sorted(Sort(s, less), less) && multiset(Sort(s, less)) == multiset(s) && |Sort(s, less)| == |s|
  {
    if s != [] {
      var front := s[..|s| - 1];
      SortIsSorted(front, less);
      InsertSorted(Sort(front, less), s[|s| - 1], less);
      InsertContents(Sort(front, less), s[|s| - 1], less);
      assert s == front + [s[|s| - 1]];
    }
  }

  lemma SortMembers<T(!new)>(s: seq<T>, less: (T, T) -> bool)
    requires StrictWeak(less)
    ensures forall x :: x in Sort(s, less) <==> x in s
  {
    SortIsSorted(s, less);
    forall x ensures x in Sort(s, less) <==> x in s {
      assert x in Sort(s, less) <==> x in multiset(Sort(s, less));
      assert x in s <==> x in multiset(s);
    }
  }

  // ---------- the order of names ----------

  /** std::string comparison: lexicographic by character. */
  predicate StringLess(a: string, b: string) {
    b != [] && (a == [] || a[0] < b[0] || (a[0] == b[0] && StringLess(a[1..], b[1..])))
  }

  /** The strings agree before position `k`, where `a` ends or has the smaller character. */
  ghost predicate SmallerAt(a: string, b: string, k: nat) {
    k <= |a| && k < |b| && a[..k] == b[..k] && (k < |a| ==> a[k] < b[k])
  }

  /** The comparison is decided at the first position where the strings differ. */
  lemma {:induction false} StringLessAt(a: string, b: string)
    ensures StringLess(a, b) <==> exists k: nat :: SmallerAt(a, b, k)
  {
    if b != [] && (a == [] || a[0] < b[0]) {
      assert SmallerAt(a, b, 0);
    } else if a != [] && b != [] && a[0] == b[0] {
      StringLessAt(a[1..], b[1..]);
      if StringLess(a[1..], b[1..]) {
        var k: nat :| SmallerAt(a[1..], b[1..], k);
        assert a[..k + 1] == [a[0]] + a[1..][..k] && b[..k + 1] == [b[0]] + b[1..][..k];
        assert SmallerAt(a, b, k + 1);
      }
      if k: nat :| SmallerAt(a, b, k) {
        assert k > 0;
        assert a[1..][..k - 1] == a[..k][1..] && b[1..][..k - 1] == b[..k][1..];
        assert SmallerAt(a[1..], b[1..], k - 1);
      }
    } else {
      forall k: nat ensures !SmallerAt(a, b, k) {
        if 0 < k <= |a| && k <= |b| { assert a[..k][0] == a[0] && b[..k][0] == b[0]; }
      }
    }
  }

  lemma {:induction false} StringLessTotal(a: string, b: string)
    ensures !StringLess(a, b) && !StringLess(b, a) ==> a == b
    ensures StringLess(a, b) ==> !StringLess(b, a)
  {
    if a != [] && b != [] {
      StringLessTotal(a[1..], b[1..]);
      assert a == [a[0]] + a[1..] && b == [b[0]] + b[1..];
    }
  }

  lemma {:induction false} StringLessTransitive(a: string, b: string, c: string)
    ensures StringLess(a, b) && StringLess(b, c) ==> StringLess(a, c)
  {
    if a != [] && b != [] && c != [] { StringLessTransitive(a[1..], b[1..], c[1..]); }
  }

  lemma StringLessWeak(a: string, b: string, c: string)
    ensures !StringLess(a, b) && !StringLess(b, c) ==> !StringLess(a, c)
  {
    StringLessTotal(a, b);
    StringLessTotal(b, c);
    StringLessTransitive(c, b, a);
    StringLessTotal(a, c);
  }
}
