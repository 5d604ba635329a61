/**
 * Sorting by a comparison, as `Array.prototype.sort` and MongoDB's `sort` stage do it, and
 * `filter` and `slice(0, n)`. The comparison `le(a, b)` means "`a` may come before `b`".
 */
module Sorting {

  /** `le` orders every pair and is transitive, which any key-based comparison is. */
  ghost predicate TotalPreorder<T(!new)>(le: (T, T) -> bool) {
    && (forall a, b :: le(a, b) || le(b, a))
    && (forall a, b, c :: le(a, b) && le(b, c) ==> le(a, c))
  }

  predicate SortedBy<T>(s: seq<T>, le: (T, T) -> bool) {
    forall i, j :: 0 <= i < j < |s| ==> le(s[i], s[j])
  }

  /** `x` put in front of the first element it may precede. */
  function Insert<T>(x: T, s: seq<T>, le: (T, T) -> bool): (r: seq<T>)
    ensures |r| == |s| + 1
    ensures multiset(r) == multiset(s) + multiset{x}
    decreases |s|
  {
    if s == [] || le(x, s[0]) then [x] + s
    else
      var rest := Insert(x, s[1..], le);
      assert s == [s[0]] + s[1..];
      [s[0]] + rest
  }

  lemma {:induction false} InsertSorted<T(!new)>(x: T, s: seq<T>, le: (T, T) -> bool)
    requires TotalPreorder(le) && SortedBy(s, le)
    ensures SortedBy(Insert(x, s, le), le)
    decreases |s|
  {
    if s != [] && !le(x, s[0]) {
      InsertSorted(x, s[1..], le);
      var r := Insert(x, s, le);
      var rest := Insert(x, s[1..], le);
      assert r == [s[0]] + rest;
      forall j | 0 < j < |r|
        ensures le(r[0], r[j])
      {
        assert r[j] in multiset(rest);
        assert r[j] in multiset(s[1..]) + multiset{x};
        if r[j] == x {
          assert le(s[0], x);
        } else {
          assert r[j] in s[1..];
          var k :| 0 <= k < |s[1..]| && s[1..][k] == r[j];
          assert s[k + 1] == r[j];
        }
      }
    }
  }

  /** Insertion sort: a permutation of `s` (sorted by `le` when `le` is a total preorder). */
  function SortBy<T>(s: seq<T>, le: (T, T) -> bool): (r: seq<T>)
    ensures |r| == |s|
    ensures multiset(r) == multiset(s)
    decreases |s|
  {
    if s == [] then []
    else
      assert s == [s[0]] + s[1..];
      Insert(s[0], SortBy(s[1..], le), le)
  }

  /** The result of `SortBy` is in order. */
  lemma {:induction false} SortBySorted<T(!new)>(s: seq<T>, le: (T, T) -> bool)
    requires TotalPreorder(le)
    ensures SortedBy(SortBy(s, le), le)
    decreases |s|
  {
    if s != [] {
      SortBySorted(s[1..], le);
      InsertSorted(s[0], SortBy(s[1..], le), le);
    }
  }

  /** `s.slice(0, n)`. */
  function Take<T>(s: seq<T>, n: nat): (r: seq<T>)
    ensures |r| == if |s| < n then |s| else n
    ensures r == s[..|r|]
  {
    if |s| < n then s else s[..n]
  }

  /** `s.filter(p)`: the elements satisfying `p`, in their order in `s`. */
  function Filter<T(!new)>(s: seq<T>, p: T -> bool): (r: seq<T>)
    ensures forall x :: x in r <==> x in s && p(x)
    ensures |r| <= |s|
    decreases |s|
  {
    if s == [] then []
    else (if p(s[0]) then [s[0]] else []) + Filter(s[1..], p)
  }

  /** `at` is the position in `s` of each element of `r`, increasing, and takes in every element satisfying `p`. */
  ghost predicate FilterPositions<T>(s: seq<T>, p: T -> bool, r: seq<T>, at: seq<nat>) {
    && |at| == |r|
    && (forall i :: 0 <= i < |at| ==> at[i] < |s| && s[at[i]] == r[i])
    && (forall i, j :: 0 <= i < j < |at| ==> at[i] < at[j])
    && (forall k :: 0 <= k < |s| && p(s[k]) ==> k in at)
  }

  /** Positions in `s[1..]` moved to the same elements of `s`. */
  lemma ShiftPositions<T>(s: seq<T>, p: T -> bool, rest: seq<nat>, r: seq<T>) returns (at: seq<nat>)
    requires s != [] && FilterPositions(s[1..], p, r, rest)
    ensures |at| == |rest|
    ensures forall i :: 0 <= i < |at| ==> 0 < at[i] < |s| && s[at[i]] == r[i]
    ensures forall i, j :: 0 <= i < j < |at| ==> at[i] < at[j]
    ensures forall k :: 0 < k < |s| && p(s[k]) ==> k in at
  {
    var tail := s[1..];
    at := seq(|rest|, k requires 0 <= k < |rest| => rest[k] + 1);
    forall k | 0 < k < |s| && p(s[k]) ensures k in at {
      assert tail[k - 1] == s[k];
      var i :| 0 <= i < |rest| && rest[i] == k - 1;
      assert at[i] == k;
    }
  }

  /** The positions for `s` from those for `s[1..]`. */
  lemma FilterStep<T(!new)>(s: seq<T>, p: T -> bool, rest: seq<nat>) returns (at: seq<nat>)
    requires s != [] && FilterPositions(s[1..], p, Filter(s[1..], p), rest)
    ensures FilterPositions(s, p, Filter(s, p), at)
  {
    var r := Filter(s[1..], p);
    var shifted := ShiftPositions(s, p, rest, r);
    if p(s[0]) {
      assert Filter(s, p) == [s[0]] + r;
      at := [0] + shifted;
      KeepHead(s, p, r, shifted);
    } else {
      assert Filter(s, p) == r;
      at := shifted;
      SkipHead(s, p, r, shifted);
    }
  }

  /** A first element that passes goes first, at position 0. */
  lemma KeepHead<T>(s: seq<T>, p: T -> bool, r: seq<T>, shifted: seq<nat>)
    requires s != [] && p(s[0]) && |shifted| == |r|
    requires forall i :: 0 <= i < |shifted| ==> 0 < shifted[i] < |s| && s[shifted[i]] == r[i]
    requires forall i, j :: 0 <= i < j < |shifted| ==> shifted[i] < shifted[j]
    requires forall k :: 0 < k < |s| && p(s[k]) ==> k in shifted
    ensures FilterPositions(s, p, [s[0]] + r, [0] + shifted)
  {
    var at := [0] + shifted;
    forall k | 0 < k < |s| && p(s[k]) ensures k in at {
      var i :| 0 <= i < |shifted| && shifted[i] == k;
      assert at[i + 1] == k;
    }
  }

  /** A first element that fails is left out. */
  lemma SkipHead<T>(s: seq<T>, p: T -> bool, r: seq<T>, shifted: seq<nat>)
    requires s != [] && !p(s[0]) && |shifted| == |r|
    requires forall i :: 0 <= i < |shifted| ==> 0 < shifted[i] < |s| && s[shifted[i]] == r[i]
    requires forall i, j :: 0 <= i < j < |shifted| ==> shifted[i] < shifted[j]
    requires forall k :: 0 < k < |s| && p(s[k]) ==> k in shifted
    ensures FilterPositions(s, p, r, shifted)
  {
  }

  /**
   * Filtering keeps the order and drops nothing that passes: the result sits in `s` at
   * strictly increasing positions, and every position of an element satisfying `p` is one.
   */
  lemma {:induction false} FilterIsSubsequence<T(!new)>(s: seq<T>, p: T -> bool) returns (at: seq<nat>)
    ensures |at| == |Filter(s, p)|
    ensures forall i :: 0 <= i < |at| ==> at[i] < |s| && s[at[i]] == Filter(s, p)[i]
    ensures forall i, j :: 0 <= i < j < |at| ==> at[i] < at[j]
    ensures forall k :: 0 <= k < |s| && p(s[k]) ==> k in at
    decreases |s|
  {
    if s == [] {
      at := [];
    } else {
      var rest := FilterIsSubsequence(s[1..], p);
      at := FilterStep(s, p, rest);
    }
  }

  /** Filtering keeps every copy of an element that passes and no copy of one that fails. */
  lemma {:induction false} FilterCount<T(!new)>(s: seq<T>, p: T -> bool)
    ensures forall x :: multiset(Filter(s, p))[x] == if p(x) then multiset(s)[x] else 0
    decreases |s|
  {
    if s != [] {
      FilterCount(s[1..], p);
      assert s == [s[0]] + s[1..];
    }
  }

  /** Filtering a concatenation filters each part. */
  lemma {:induction false} FilterConcat<T(!new)>(a: seq<T>, b: seq<T>, p: T -> bool)
    ensures Filter(a + b, p) == Filter(a, p) + Filter(b, p)
    decreases |a|
  {
    if a != [] {
      assert (a + b)[1..] == a[1..] + b;
      FilterConcat(a[1..], b, p);
    } else {
      assert a + b == b;
    }
  }

  /** A filter every element passes keeps them all. */
  lemma {:induction false} FilterAll<T(!new)>(s: seq<T>, p: T -> bool)
    requires forall i :: 0 <= i < |s| ==> p(s[i])
    ensures Filter(s, p) == s
    decreases |s|
  {
    if s != [] {
      FilterAll(s[1..], p);
      assert s == [s[0]] + s[1..];
    }
  }

  /** No element occurs twice. */
  predicate Distinct<T(==)>(s: seq<T>) {
    forall i, j :: 0 <= i < j < |s| ==> s[i] != s[j]
  }

  /** An element occurs at most once in a sequence without repetitions. */
  lemma {:induction false} DistinctCount<T>(s: seq<T>, x: T)
    requires Distinct(s)
    ensures multiset(s)[x] <= 1
    decreases |s|
  {
    if s != [] {
      var tail := s[1..];
      assert s == [s[0]] + tail;
      assert Distinct(tail) by {
        forall i, j | 0 <= i < j < |tail| ensures tail[i] != tail[j] {
          assert tail[i] == s[i + 1] && tail[j] == s[j + 1];
        }
      }
      DistinctCount(tail, x);
      if x == s[0] {
        assert x !in tail by {
          forall k | 0 <= k < |tail| ensures tail[k] != x {
            assert tail[k] == s[k + 1];
          }
        }
      }
    }
  }

  /** Rearranging a sequence without repetitions gives a sequence without repetitions. */
  lemma DistinctPermutation<T>(a: seq<T>, b: seq<T>)
    requires multiset(a) == multiset(b) && Distinct(a)
    ensures Distinct(b)
  {
    forall i, j | 0 <= i < j < |b| ensures b[i] != b[j] {
      if b[i] == b[j] {
        var x := b[i];
        assert b == b[..j] + b[j..];
        assert x in b[..j] && x in b[j..];
        assert multiset(b)[x] == multiset(b[..j])[x] + multiset(b[j..])[x];
        DistinctCount(a, x);
        assert false;
      }
    }
  }
}
