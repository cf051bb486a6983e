/**
 Line simplification of scripts/aa847_country_polygons.py.

 The source keeps a boolean per point and an explicit stack of index segments. `Simplify` keeps that
 loop and is proved equal to the recursive `DouglasPeucker.Simplified`. Distances are
 compared as exact squared reals, so no square root is taken: squaring keeps the order of
 non-negative distances.
 */
module Polygons {
  import opened DouglasPeucker

  datatype Point = Point(x: real, y: real)

  /** The squared distance of `p` from the line through `a` and `b`; from `a` when the ends coincide,
      as they do for a closed ring. */
  function Dist2(a: Point, b: Point, p: Point): (d: real)
    ensures d >= 0.0
  {
    var dx, dy := b.x - a.x, b.y - a.y;
    var n2 := dx * dx + dy * dy;
    if n2 != 0.0 then
      var c := dy * p.x - dx * p.y + b.x * a.y - b.y * a.x;
      SquareOverSquare(c, n2, dx, dy);
      c * c / n2
    else
      (p.x - a.x) * (p.x - a.x) + (p.y - a.y) * (p.y - a.y)
  }

  lemma SquareOverSquare(c: real, n2: real, dx: real, dy: real)
    requires n2 == dx * dx + dy * dy && n2 != 0.0
    ensures c * c / n2 >= 0.0
  {
    assert c * c >= 0.0 && dx * dx >= 0.0 && dy * dy >= 0.0;
  }

  /** The source's `best > tol` as `best * best > Limit(tol)`: a negative tolerance keeps every point. */
  function Limit(tol: real): real {
    if tol < 0.0 then -1.0 else tol * tol
  }

  /** `_dp`: the iterative form keeps exactly the points of the recursive one, and terminates. */
  method Simplify(points: seq<Point>, tol: real) returns (out: seq<Point>)
    ensures out == Simplified(Dist2, points, Limit(tol))
  {
    if |points| < 3 {
      return points;
    }
    var keep := MarkKept(Dist2, points, Limit(tol));
    out := [];
    for i := 0 to |points|
      invariant out == Pick(points, KeptIndices(Dist2, points, Limit(tol)), 0, i)
    {
      if keep[i] {
        out := out + [points[i]];
      }
    }
    OutputIsKept(Dist2, points, Limit(tol));
  }

  // ----- rings, for any rounding, distance and limit

  function Rounded<P>(round: P -> P, s: seq<P>): (r: seq<P>)
    ensures |r| == |s| && forall i :: 0 <= i < |s| ==> r[i] == round(s[i])
  {
    if s == [] then [] else [round(s[0])] + Rounded(round, s[1..])
  }

  /** `simplify_ring`; the source fails on an empty ring. */
  function SimplifyRing<P(==)>(round: P -> P, dist: (P, P, P) -> real, limit: real, ring: seq<P>): (r: seq<P>)
    requires ring != []
    ensures r != [] && r[0] == r[|r| - 1] == round(ring[0])
  {
    var out := Simplified(dist, Rounded(round, ring), limit);
    if out[0] != out[|out| - 1] then out + [out[0]] else out
  }

  ghost predicate RoundsOnce<P(!new)>(round: P -> P) {
    forall x :: round(round(x)) == round(x)
  }

  lemma OutputPointFrom<P>(dist: (P, P, P) -> real, s: seq<P>, limit: real, k: nat)
    requires k < |Simplified(dist, s, limit)|
    ensures Simplified(dist, s, limit)[k] in s
  {
    if |s| >= 2 && 0 < k < |Simplified(dist, s, limit)| - 1 {
      OutputInner(dist, s, limit);
    }
  }

  lemma RingStaysRounded<P(!new)>(round: P -> P, dist: (P, P, P) -> real, limit: real, ring: seq<P>)
    requires ring != [] && RoundsOnce(round)
    ensures Rounded(round, SimplifyRing(round, dist, limit, ring)) == SimplifyRing(round, dist, limit, ring)
  {
    var s, r := Rounded(round, ring), SimplifyRing(round, dist, limit, ring);
    forall k | 0 <= k < |r|
      ensures round(r[k]) == r[k]
    {
      if k < |Simplified(dist, s, limit)| {
        OutputPointFrom(dist, s, limit, k);
      }
      var i :| 0 <= i < |s| && s[i] == r[k];
      assert round(round(ring[i])) == round(ring[i]);
    }
  }

  /** A ring that is closed once rounded is simplified for good by one pass. */
  lemma RingIdempotent<P(!new)>(round: P -> P, dist: (P, P, P) -> real, limit: real, ring: seq<P>)
    requires ring != [] && RoundsOnce(round) && round(ring[0]) == round(ring[|ring| - 1])
    ensures var once := SimplifyRing(round, dist, limit, ring);
            SimplifyRing(round, dist, limit, once) == once
  {
    RingStaysRounded(round, dist, limit, ring);
    Idempotent(dist, Rounded(round, ring), limit);
  }

  /** An open ring is closed by the first pass, so the second pass is final for every ring. */
  lemma SecondPassIsFinal<P(!new)>(round: P -> P, dist: (P, P, P) -> real, limit: real, ring: seq<P>)
    requires ring != [] && RoundsOnce(round)
    ensures var twice := SimplifyRing(round, dist, limit, SimplifyRing(round, dist, limit, ring));
            SimplifyRing(round, dist, limit, twice) == twice
  {
    var once := SimplifyRing(round, dist, limit, ring);
    RingIdempotent(round, dist, limit, once);
  }

  /** One pass is not enough for every open ring: two points within the tolerance become [a, b, a] and
      then [a, a]. */
  lemma OpenRingNeedsTwo<P>(round: P -> P, dist: (P, P, P) -> real, limit: real, a: P, b: P)
    requires round(a) == a != b == round(b) && dist(a, a, b) <= limit
    ensures SimplifyRing(round, dist, limit, [a, b]) == [a, b, a]
    ensures SimplifyRing(round, dist, limit, [a, b, a]) == [a, a]
  {
    var closed := [a, b, a];
    assert Rounded(round, [a, b]) == [a, b] && Rounded(round, closed) == closed;
    assert Gap(dist, closed, 0, 2, 1) == dist(a, a, b);
    EndsOnly(dist, closed, limit);
  }

  // ----- the script's rounding

  function RoundHalfEven(y: real): int {
    var f := y.Floor;
    var frac := y - f as real;
    if frac < 0.5 || (frac == 0.5 && f % 2 == 0) then f else f + 1
  }

  function Round4(x: real): real {
    RoundHalfEven(x * 10000.0) as real / 10000.0
  }

  function RoundPoint(p: Point): Point {
    Point(Round4(p.x), Round4(p.y))
  }

  lemma Round4Idempotent(x: real)
    ensures Round4(Round4(x)) == Round4(x)
  {
    var k := RoundHalfEven(x * 10000.0);
    assert Round4(x) * 10000.0 == k as real;
    assert (k as real).Floor == k;
  }

  /** The rounding of the script changes a rounded point no more, so the three theorems hold for its rings. */
  lemma RoundPointOnce()
    ensures RoundsOnce(RoundPoint)
  {
    forall p: Point ensures RoundPoint(RoundPoint(p)) == RoundPoint(p) {
      Round4Idempotent(p.x);
      Round4Idempotent(p.y);
    }
  }

  /** `simplify_ring` of the script, and what one more pass does to its result. */
  lemma ScriptRings(ring: seq<Point>, tol: real)
    requires ring != []
    ensures var once := SimplifyRing(RoundPoint, Dist2, Limit(tol), ring);
            var twice := SimplifyRing(RoundPoint, Dist2, Limit(tol), once);
            && SimplifyRing(RoundPoint, Dist2, Limit(tol), twice) == twice
            && (RoundPoint(ring[0]) == RoundPoint(ring[|ring| - 1]) ==> twice == once)
  {
    RoundPointOnce();
    SecondPassIsFinal(RoundPoint, Dist2, Limit(tol), ring);
    if RoundPoint(ring[0]) == RoundPoint(ring[|ring| - 1]) {
      RingIdempotent(RoundPoint, Dist2, Limit(tol), ring);
    }
  }
}
