/**
 The Douglas-Peucker line simplification of scripts/aa847_country_polygons.py: the recursive
 definition, the explicit-stack loop that computes it, its error bound and its idempotence. All of it
 is over any distance of a point from a chord (`dist(a, b, p)`) and any limit on it; module Polygons
 puts in the distance and the limit of the script.
 */
module DouglasPeucker {

  /** How far point `i` lies from the chord between points `a` and `b`. */
  function Gap<P>(dist: (P, P, P) -> real, p: seq<P>, a: nat, b: nat, i: nat): real
    requires a < |p| && b < |p| && i < |p|
  {
    dist(p[a], p[b], p[i])
  }

  /** `m` is the first of the points strictly between `a` and `b` that lie farthest from their chord. */
  predicate IsFarthest<P>(dist: (P, P, P) -> real, p: seq<P>, a: nat, b: nat, m: nat)
    requires b < |p|
  {
    && a < m < b
    && (forall i :: a < i < b ==> Gap(dist, p, a, b, i) <= Gap(dist, p, a, b, m))
    && (forall i :: a < i < m ==> Gap(dist, p, a, b, i) < Gap(dist, p, a, b, m))
  }

  function FarthestUpTo<P>(dist: (P, P, P) -> real, p: seq<P>, a: nat, b: nat, k: nat): (m: nat)
    requires a < k < b < |p|
    ensures a < m <= k
    ensures forall i :: a < i <= k ==> Gap(dist, p, a, b, i) <= Gap(dist, p, a, b, m)
    ensures forall i :: a < i < m ==> Gap(dist, p, a, b, i) < Gap(dist, p, a, b, m)
  {
    if k == a + 1 then k
    else
      var m := FarthestUpTo(dist, p, a, b, k - 1);
      if Gap(dist, p, a, b, k) > Gap(dist, p, a, b, m) then k else m
  }

  function Farthest<P>(dist: (P, P, P) -> real, p: seq<P>, a: nat, b: nat): (m: nat)
    requires a + 1 < b < |p|
    ensures IsFarthest(dist, p, a, b, m)
  {
    FarthestUpTo(dist, p, a, b, b - 1)
  }

  /** The recursive definition: split at the first farthest point while it is out of tolerance. */
  function Simplified<P>(dist: (P, P, P) -> real, s: seq<P>, limit: real): (r: seq<P>)
    ensures |s| >= 2 ==> 2 <= |r| <= |s| && r[0] == s[0] && r[|r| - 1] == s[|s| - 1]
    ensures |s| < 2 ==> r == s
    decreases |s|
  {
    if |s| < 3 then s
    else
      var m := Farthest(dist, s, 0, |s| - 1);
      if Gap(dist, s, 0, |s| - 1, m) > limit
      then Simplified(dist, s[..m + 1], limit) + Simplified(dist, s[m..], limit)[1..]
      else [s[0], s[|s| - 1]]
  }

  /** The indices strictly between `a` and `b` that the recursive definition keeps. */
  function Kept<P>(dist: (P, P, P) -> real, p: seq<P>, limit: real, a: nat, b: nat): (k: set<nat>)
    requires a < b < |p|
    ensures forall i :: i in k ==> a < i < b
    decreases b - a
  {
    if b == a + 1 then {}
    else
      var m := Farthest(dist, p, a, b);
      if Gap(dist, p, a, b, m) > limit
      then Kept(dist, p, limit, a, m) + {m} + Kept(dist, p, limit, m, b)
      else {}
  }

  function KeptIndices<P>(dist: (P, P, P) -> real, p: seq<P>, limit: real): set<nat>
    requires |p| >= 2
  {
    {0, |p| - 1} + Kept(dist, p, limit, 0, |p| - 1)
  }

  /** The points of `p[lo..hi]` whose index is in `keep`, in order. */
  function Pick<P>(p: seq<P>, keep: set<nat>, lo: nat, hi: nat): seq<P>
    requires lo <= hi <= |p|
  {
    if lo == hi then []
    else Pick(p, keep, lo, hi - 1) + (if hi - 1 in keep then [p[hi - 1]] else [])
  }

  // ----- the explicit-stack loop

  /** A stack entry: the points strictly between these two indices are still to be looked at. */
  datatype Segment = Segment(a: nat, b: nat)

  function Pending<P>(dist: (P, P, P) -> real, p: seq<P>, limit: real, stack: seq<Segment>): set<nat>
    requires forall s :: s in stack ==> s.a < s.b < |p|
  {
    if stack == [] then {}
    else
      var Segment(a, b) := stack[|stack| - 1];
      Pending(dist, p, limit, stack[..|stack| - 1]) + Kept(dist, p, limit, a, b)
  }

  // The two halves of a split are together as long as the whole, so the length alone does not shrink.
  function Work(stack: seq<Segment>): nat
    requires forall s :: s in stack ==> s.a < s.b
  {
    if stack == [] then 0
    else
      var Segment(a, b) := stack[|stack| - 1];
      Work(stack[..|stack| - 1]) + 2 * (b - a) - 1
  }

  lemma PushTwo<P>(dist: (P, P, P) -> real, p: seq<P>, limit: real, rest: seq<Segment>, a: nat, m: nat, b: nat)
    requires forall s :: s in rest ==> s.a < s.b < |p|
    requires a < m < b < |p|
    ensures Pending(dist, p, limit, rest + [Segment(a, m), Segment(m, b)])
         == Pending(dist, p, limit, rest) + Kept(dist, p, limit, a, m) + Kept(dist, p, limit, m, b)
    ensures Work(rest + [Segment(a, m), Segment(m, b)]) == Work(rest) + 2 * (b - a) - 2
  {
    var two := rest + [Segment(a, m), Segment(m, b)];
    var one := rest + [Segment(a, m)];
    assert two[..|two| - 1] == one && one[..|one| - 1] == rest;
  }

  /** Popping a segment that needs no split: it contributes nothing. */
  lemma PopWhole<P>(dist: (P, P, P) -> real, p: seq<P>, limit: real, rest: seq<Segment>, a: nat, b: nat)
    requires forall s :: s in rest ==> s.a < s.b < |p|
    requires a < b < |p| && (b == a + 1 || Gap(dist, p, a, b, Farthest(dist, p, a, b)) <= limit)
    ensures Pending(dist, p, limit, rest + [Segment(a, b)]) == Pending(dist, p, limit, rest)
    ensures Work(rest + [Segment(a, b)]) > Work(rest)
  {
    var stack := rest + [Segment(a, b)];
    assert stack[..|stack| - 1] == rest;
    assert Kept(dist, p, limit, a, b) == {};
  }

  /** Popping a segment that is split at `m`: keeping `m` and pushing the two halves loses nothing. */
  lemma PopSplit<P>(dist: (P, P, P) -> real, p: seq<P>, limit: real, rest: seq<Segment>, a: nat, m: nat, b: nat)
    requires forall s :: s in rest ==> s.a < s.b < |p|
    requires a + 1 < b < |p| && m == Farthest(dist, p, a, b) && Gap(dist, p, a, b, m) > limit
    ensures Pending(dist, p, limit, rest + [Segment(a, b)])
         == Pending(dist, p, limit, rest + [Segment(a, m), Segment(m, b)]) + {m}
    ensures Work(rest + [Segment(a, b)]) > Work(rest + [Segment(a, m), Segment(m, b)])
  {
    var stack := rest + [Segment(a, b)];
    assert stack[..|stack| - 1] == rest;
    PushTwo(dist, p, limit, rest, a, m, b);
  }

  ghost predicate NonNegative<P(!new)>(dist: (P, P, P) -> real) {
    forall a, b, p :: dist(a, b, p) >= 0.0
  }

  method MarkKept<P(!new)>(dist: (P, P, P) -> real, points: seq<P>, limit: real) returns (keep: array<bool>)
    requires |points| >= 2 && NonNegative(dist)
    ensures fresh(keep) && keep.Length == |points|
    ensures forall i :: 0 <= i < |points| ==> (keep[i] <==> i in KeptIndices(dist, points, limit))
  {
    var n := |points|;
    keep := new bool[n](_ => false);
    keep[0], keep[n - 1] := true, true;
    var stack: seq<Segment> := [Segment(0, n - 1)];
    ghost var target := KeptIndices(dist, points, limit);
    assert stack[..0] == [];
    while stack != []
      invariant forall s :: s in stack ==> s.a < s.b < n
      invariant forall i :: 0 <= i < n ==> (keep[i] || i in Pending(dist, points, limit, stack) <==> i in target)
      decreases Work(stack)
    {
      var Segment(a, b) := stack[|stack| - 1];
      ghost var all := stack;
      stack := stack[..|stack| - 1];
      assert all == stack + [Segment(a, b)];
      var best, idx := ScanSegment(dist, points, a, b);
      if idx > 0 && best > limit {
        keep[idx] := true;
        PopSplit(dist, points, limit, stack, a, idx, b);
        stack := stack + [Segment(a, idx), Segment(idx, b)];
      } else {
        PopWhole(dist, points, limit, stack, a, b);
      }
    }
  }

  /** The inner scan: the first farthest point strictly between `a` and `b`, or -1 when there is none. */
  method ScanSegment<P(!new)>(dist: (P, P, P) -> real, points: seq<P>, a: nat, b: nat) returns (best: real, idx: int)
    requires a < b < |points| && NonNegative(dist)
    ensures b == a + 1 ==> idx == -1
    ensures b > a + 1 ==> idx == Farthest(dist, points, a, b)
                          && best == Gap(dist, points, a, b, idx)
  {
    best, idx := -1.0, -1;
    for i := a + 1 to b
      invariant i == a + 1 ==> idx == -1 && best == -1.0
      invariant i > a + 1 ==> idx == FarthestUpTo(dist, points, a, b, i - 1)
                              && best == Gap(dist, points, a, b, idx)
    {
      var d := Gap(dist, points, a, b, i);
      if d > best {
        best, idx := d, i;
      }
    }
  }

  // ----- the recursive definition on slices is the one on indices

  lemma FarthestOfSlice<P>(dist: (P, P, P) -> real, p: seq<P>, a: nat, b: nat)
    requires a + 1 < b < |p|
    ensures a + Farthest(dist, p[a..b + 1], 0, b - a) == Farthest(dist, p, a, b)
    ensures Gap(dist, p[a..b + 1], 0, b - a, Farthest(dist, p, a, b) - a) == Gap(dist, p, a, b, Farthest(dist, p, a, b))
  {
    var s := p[a..b + 1];
    var m, k := Farthest(dist, s, 0, b - a), Farthest(dist, p, a, b) - a;
    assert s[0] == p[a] && s[b - a] == p[b];
    assert forall i :: 0 < i < b - a ==> s[i] == p[a + i];
    assert Gap(dist, s, 0, b - a, m) == Gap(dist, p, a, b, a + m);
    assert Gap(dist, s, 0, b - a, k) == Gap(dist, p, a, b, a + k);
  }

  lemma {:induction false} PickSplit<P>(p: seq<P>, keep: set<nat>, lo: nat, mid: nat, hi: nat)
    requires lo <= mid <= hi <= |p|
    ensures Pick(p, keep, lo, hi) == Pick(p, keep, lo, mid) + Pick(p, keep, mid, hi)
  {
    if mid < hi {
      PickSplit(p, keep, lo, mid, hi - 1);
    }
  }

  lemma {:induction false} PickAgree<P>(p: seq<P>, k1: set<nat>, k2: set<nat>, lo: nat, hi: nat)
    requires lo <= hi <= |p|
    requires forall i :: lo <= i < hi ==> (i in k1 <==> i in k2)
    ensures Pick(p, k1, lo, hi) == Pick(p, k2, lo, hi)
  {
    if lo < hi {
      PickAgree(p, k1, k2, lo, hi - 1);
    }
  }

  lemma {:induction false} PickNone<P>(p: seq<P>, keep: set<nat>, lo: nat, hi: nat)
    requires lo <= hi <= |p|
    requires forall i :: lo <= i < hi ==> i !in keep
    ensures Pick(p, keep, lo, hi) == []
  {
    if lo < hi {
      PickNone(p, keep, lo, hi - 1);
    }
  }

  lemma PickOne<P>(p: seq<P>, keep: set<nat>, i: nat)
    requires i < |p| && i in keep
    ensures Pick(p, keep, i, i + 1) == [p[i]]
  {
    assert Pick(p, keep, i, i) == [];
  }

  lemma PickFirst<P>(p: seq<P>, keep: set<nat>, i: nat, hi: nat)
    requires i < hi <= |p| && i in keep
    ensures Pick(p, keep, i, hi) == [p[i]] + Pick(p, keep, i + 1, hi)
  {
    PickOne(p, keep, i);
    PickSplit(p, keep, i, i + 1, hi);
  }

  lemma PickEnds<P>(p: seq<P>, a: nat, b: nat)
    requires a < b < |p|
    ensures Pick(p, {a, b}, a, b + 1) == [p[a], p[b]]
  {
    PickOne(p, {a, b}, a);
    PickSplit(p, {a, b}, a, a + 1, b);
    PickNone(p, {a, b}, a + 1, b);
  }

  lemma PickJoin<P>(p: seq<P>, all: set<nat>, left: set<nat>, right: set<nat>, lo: nat, m: nat, hi: nat)
    requires lo <= m < hi <= |p| && all == left + right && m in left && m in right
    requires (forall i :: i in left ==> i <= m) && (forall i :: i in right ==> i >= m)
    ensures Pick(p, right, m, hi) != [] && Pick(p, all, lo, hi) == Pick(p, left, lo, m + 1) + Pick(p, right, m, hi)[1..]
  {
    PickSplit(p, all, lo, m + 1, hi);
    PickAgree(p, all, left, lo, m + 1);
    PickAgree(p, all, right, m + 1, hi);
    PickFirst(p, right, m, hi);
  }

  lemma SimplifiedSplit<P>(dist: (P, P, P) -> real, s: seq<P>, limit: real, m: nat, left: seq<P>, right: seq<P>)
    requires |s| >= 3 && IsFarthest(dist, s, 0, |s| - 1, m) && Gap(dist, s, 0, |s| - 1, m) > limit
    requires left == s[..m + 1] && right == s[m..]
    ensures Simplified(dist, s, limit) == Simplified(dist, left, limit) + Simplified(dist, right, limit)[1..]
  {
  }

  lemma SegmentSplit<P>(dist: (P, P, P) -> real, p: seq<P>, limit: real, a: nat, m: nat, b: nat)
    requires a + 1 < b < |p| && m == Farthest(dist, p, a, b) && Gap(dist, p, a, b, m) > limit
    ensures Simplified(dist, p[a..b + 1], limit)
         == Simplified(dist, p[a..m + 1], limit) + Simplified(dist, p[m..b + 1], limit)[1..]
  {
    var s := p[a..b + 1];
    FarthestOfSlice(dist, p, a, b);
    SliceOfSlice(p, a, m, b + 1);
    SimplifiedSplit(dist, s, limit, m - a, p[a..m + 1], p[m..b + 1]);
  }

  lemma SliceOfSlice<P>(p: seq<P>, lo: nat, m: nat, hi: nat)
    requires lo <= m < hi <= |p|
    ensures p[lo..hi][..m - lo + 1] == p[lo..m + 1] && p[lo..hi][m - lo..] == p[m..hi]
  {
  }

  lemma EndsOnly<P>(dist: (P, P, P) -> real, s: seq<P>, limit: real)
    requires |s| == 2 || (|s| > 2 && Gap(dist, s, 0, |s| - 1, Farthest(dist, s, 0, |s| - 1)) <= limit)
    ensures Simplified(dist, s, limit) == [s[0], s[|s| - 1]]
  {
  }

  lemma SegmentEnds<P>(dist: (P, P, P) -> real, p: seq<P>, limit: real, a: nat, b: nat)
    requires a < b < |p| && (b == a + 1 || Gap(dist, p, a, b, Farthest(dist, p, a, b)) <= limit)
    ensures Simplified(dist, p[a..b + 1], limit) == [p[a], p[b]]
  {
    var s := p[a..b + 1];
    if b > a + 1 {
      FarthestOfSlice(dist, p, a, b);
    }
    EndsOnly(dist, s, limit);
  }

  lemma KeptSplit<P>(dist: (P, P, P) -> real, p: seq<P>, limit: real, a: nat, m: nat, b: nat)
    requires a + 1 < b < |p| && m == Farthest(dist, p, a, b) && Gap(dist, p, a, b, m) > limit
    ensures var left, right := {a, m} + Kept(dist, p, limit, a, m), {m, b} + Kept(dist, p, limit, m, b);
            Pick(p, right, m, b + 1) != [] &&
            Pick(p, {a, b} + Kept(dist, p, limit, a, b), a, b + 1)
            == Pick(p, left, a, m + 1) + Pick(p, right, m, b + 1)[1..]
  {
    var left, right := {a, m} + Kept(dist, p, limit, a, m), {m, b} + Kept(dist, p, limit, m, b);
    var all := {a, b} + Kept(dist, p, limit, a, b);
    assert all == left + right;
    PickJoin(p, all, left, right, a, m, b + 1);
  }

  lemma {:induction false} SegmentIsKept<P>(dist: (P, P, P) -> real, p: seq<P>, limit: real, a: nat, b: nat)
    requires a < b < |p|
    ensures Pick(p, {a, b} + Kept(dist, p, limit, a, b), a, b + 1) == Simplified(dist, p[a..b + 1], limit)
    decreases b - a
  {
    if b == a + 1 || Gap(dist, p, a, b, Farthest(dist, p, a, b)) <= limit {
      assert {a, b} + Kept(dist, p, limit, a, b) == {a, b};
      PickEnds(p, a, b);
      SegmentEnds(dist, p, limit, a, b);
    } else {
      var m := Farthest(dist, p, a, b);
      SegmentSplit(dist, p, limit, a, m, b);
      SegmentIsKept(dist, p, limit, a, m);
      SegmentIsKept(dist, p, limit, m, b);
      KeptSplit(dist, p, limit, a, m, b);
    }
  }

  /** The output is the kept indices read off in order: a subsequence with both end points. */
  lemma OutputIsKept<P>(dist: (P, P, P) -> real, p: seq<P>, limit: real)
    requires |p| >= 2
    ensures Simplified(dist, p, limit) == Pick(p, KeptIndices(dist, p, limit), 0, |p|)
    ensures 0 in KeptIndices(dist, p, limit) && |p| - 1 in KeptIndices(dist, p, limit)
  {
    SegmentIsKept(dist, p, limit, 0, |p| - 1);
    assert p[0..|p|] == p;
  }

  // ----- error bound

  lemma {:induction false} DroppedInSegment<P>(dist: (P, P, P) -> real, p: seq<P>, limit: real, a: nat, b: nat, i: nat)
      returns (lo: nat, hi: nat)
    requires a < i < b < |p| && i !in Kept(dist, p, limit, a, b)
    ensures a <= lo < i < hi <= b
    ensures {lo, hi} <= {a, b} + Kept(dist, p, limit, a, b)
    ensures forall j :: lo < j < hi ==> j !in Kept(dist, p, limit, a, b)
    ensures Gap(dist, p, lo, hi, i) <= limit
    decreases b - a
  {
    var m := Farthest(dist, p, a, b);
    if Gap(dist, p, a, b, m) <= limit {
      lo, hi := a, b;
    } else if i < m {
      lo, hi := DroppedInSegment(dist, p, limit, a, m, i);
    } else {
      lo, hi := DroppedInSegment(dist, p, limit, m, b, i);
    }
  }

  /** Every dropped point is within the tolerance of the chord between its two neighbouring kept points. */
  lemma ErrorBound<P>(dist: (P, P, P) -> real, p: seq<P>, limit: real, i: nat)
    requires i < |p| && |p| >= 2 && i !in KeptIndices(dist, p, limit)
    ensures exists lo: nat, hi: nat ::
              && lo < i < hi < |p| && lo in KeptIndices(dist, p, limit) && hi in KeptIndices(dist, p, limit)
              && (forall j :: lo < j < hi ==> j !in KeptIndices(dist, p, limit))
              && Gap(dist, p, lo, hi, i) <= limit
  {
    var lo, hi := DroppedInSegment(dist, p, limit, 0, |p| - 1, i);
    assert lo in KeptIndices(dist, p, limit) && hi in KeptIndices(dist, p, limit);
  }

  // ----- idempotence

  /** The inner points of `r` are inner points of `s`. */
  ghost predicate InnerOf<P>(r: seq<P>, s: seq<P>)
    requires |s| >= 2
  {
    forall k :: 0 < k < |r| - 1 ==> r[k] in s[1..|s| - 1]
  }

  lemma InnerOfJoin<P>(left: seq<P>, right: seq<P>, s: seq<P>, m: nat)
    requires 0 < m < |s| - 1 && |left| >= 2 && |right| >= 2
    requires left[|left| - 1] == s[m] == right[0]
    requires InnerOf(left, s[..m + 1]) && InnerOf(right, s[m..])
    ensures InnerOf(left + right[1..], s)
  {
    var r, inner := left + right[1..], s[1..|s| - 1];
    assert inner[m - 1] == s[m];
    assert forall x :: x in s[..m + 1][1..m] ==> x in inner by {
      assert s[..m + 1][1..m] == inner[..m - 1];
    }
    assert forall x :: x in s[m..][1..|s| - m - 1] ==> x in inner by {
      assert s[m..][1..|s| - m - 1] == inner[m..];
    }
    forall k | 0 < k < |r| - 1
      ensures r[k] in inner
    {
      assert k < |left| - 1 ==> r[k] == left[k];
      assert k >= |left| ==> r[k] == right[k - |left| + 1];
    }
  }

  lemma {:induction false} OutputInner<P>(dist: (P, P, P) -> real, s: seq<P>, limit: real)
    requires |s| >= 2
    ensures InnerOf(Simplified(dist, s, limit), s)
    decreases |s|
  {
    if |s| >= 3 {
      var m := Farthest(dist, s, 0, |s| - 1);
      if Gap(dist, s, 0, |s| - 1, m) > limit {
        OutputInner(dist, s[..m + 1], limit);
        OutputInner(dist, s[m..], limit);
        InnerOfJoin(Simplified(dist, s[..m + 1], limit), Simplified(dist, s[m..], limit), s, m);
      }
    }
  }

  /** A kept first farthest point is still the first farthest among the kept points. */
  lemma FarthestOfJoin<P>(dist: (P, P, P) -> real, s: seq<P>, m: nat, left: seq<P>, right: seq<P>)
    requires |s| >= 3 && IsFarthest(dist, s, 0, |s| - 1, m) && |left| >= 2 && |right| >= 2
    requires left[0] == s[0] && left[|left| - 1] == s[m] == right[0] && right[|right| - 1] == s[|s| - 1]
    requires InnerOf(left, s[..m + 1]) && InnerOf(right, s[m..])
    ensures var r := left + right[1..];
            IsFarthest(dist, r, 0, |r| - 1, |left| - 1)
  {
    var r, c := left + right[1..], |left| - 1;
    var last := |r| - 1;
    forall k: nat | 0 < k < last
      ensures Gap(dist, r, 0, last, k) <= Gap(dist, r, 0, last, c)
      ensures k < c ==> Gap(dist, r, 0, last, k) < Gap(dist, r, 0, last, c)
    {
      if k < c {
        assert left[k] in s[..m + 1][1..m];
        var i: nat :| 0 < i < m && s[i] == left[k];
        assert Gap(dist, s, 0, |s| - 1, i) < Gap(dist, s, 0, |s| - 1, m);
      } else if k > c {
        assert right[k - c] in s[m..][1..|s| - m - 1];
        var i: nat :| m < i < |s| - 1 && s[i] == right[k - c];
        assert Gap(dist, s, 0, |s| - 1, i) <= Gap(dist, s, 0, |s| - 1, m);
      }
    }
  }

  lemma IdempotentSplit<P>(dist: (P, P, P) -> real, s: seq<P>, limit: real, m: nat)
    requires |s| >= 3 && IsFarthest(dist, s, 0, |s| - 1, m) && Gap(dist, s, 0, |s| - 1, m) > limit
    ensures var left, right := Simplified(dist, s[..m + 1], limit), Simplified(dist, s[m..], limit);
            Simplified(dist, left + right[1..], limit)
            == Simplified(dist, left, limit) + Simplified(dist, right, limit)[1..]
  {
    var left, right := Simplified(dist, s[..m + 1], limit), Simplified(dist, s[m..], limit);
    var r := left + right[1..];
    OutputInner(dist, s[..m + 1], limit);
    OutputInner(dist, s[m..], limit);
    FarthestOfJoin(dist, s, m, left, right);
    JoinedAtPoint(left, right);
    SimplifiedSplit(dist, r, limit, |left| - 1, left, right);
  }

  lemma JoinedAtPoint<P>(left: seq<P>, right: seq<P>)
    requires left != [] && right != [] && left[|left| - 1] == right[0]
    ensures (left + right[1..])[..|left|] == left && (left + right[1..])[|left| - 1..] == right
  {
  }

  /** Simplifying twice with one tolerance is simplifying once. */
  lemma {:induction false} Idempotent<P>(dist: (P, P, P) -> real, s: seq<P>, limit: real)
    ensures var once := Simplified(dist, s, limit); Simplified(dist, once, limit) == once
    decreases |s|
  {
    if |s| >= 3 {
      var m := Farthest(dist, s, 0, |s| - 1);
      if Gap(dist, s, 0, |s| - 1, m) > limit {
        IdempotentSplit(dist, s, limit, m);
        SimplifiedSplit(dist, s, limit, m, s[..m + 1], s[m..]);
        Idempotent(dist, s[..m + 1], limit);
        Idempotent(dist, s[m..], limit);
      } else {
        EndsOnly(dist, s, limit);
        EndsOnly(dist, [s[0], s[|s| - 1]], limit);
      }
    }
  }
}
