/**
 * The separating-plane membership test: a query point is reported inside the convex hull
 * of a point set unless some line through two of the points (2D), or some plane through
 * three of them (3D), has the query strictly on one side and no point of the set strictly
 * on that same side.
 */
module Membership {
  import opened Geometry

  /** The line through points i and j separates the query from the set: the query is
      strictly off the line, and every other point is on the line or on the other side. */
  predicate IsSeparating2(pts: seq<int>, query: seq<int>, i: nat, j: nat)
    requires |query| == 2 && i < NumPoints(pts, 2) && j < NumPoints(pts, 2)
  {
    var pa, pb := Point(pts, 2, i), Point(pts, 2, j);
    var oriQuery := Orient2d(pa, pb, query);
    oriQuery != 0 &&
    forall l :: 0 <= l < NumPoints(pts, 2) && l != i && l != j ==>
      Orient2d(pa, pb, Point(pts, 2, l)) * oriQuery <= 0
  }

  /** The plane through points i, j and k separates the query from the set. */
  predicate IsSeparating3(pts: seq<int>, query: seq<int>, i: nat, j: nat, k: nat)
    requires |query| == 3 && i < NumPoints(pts, 3) && j < NumPoints(pts, 3) && k < NumPoints(pts, 3)
  {
    var pa, pb, pc := Point(pts, 3, i), Point(pts, 3, j), Point(pts, 3, k);
    var oriQuery := Orient3d(pa, pb, pc, query);
    oriQuery != 0 &&
    forall l :: 0 <= l < NumPoints(pts, 3) && l != i && l != j && l != k ==>
      Orient3d(pa, pb, pc, Point(pts, 3, l)) * oriQuery <= 0
  }

  /** Some pair i < j spans a separating line. */
  predicate Separated2(pts: seq<int>, query: seq<int>)
    requires |query| == 2
  {
    exists i, j :: 0 <= i < j < NumPoints(pts, 2) && IsSeparating2(pts, query, i, j)
  }

  /** Some triple i < j < k spans a separating plane. */
  predicate Separated3(pts: seq<int>, query: seq<int>)
    requires |query| == 3
  {
    exists i, j, k :: 0 <= i < j < k < NumPoints(pts, 3) && IsSeparating3(pts, query, i, j, k)
  }

  /** details::is_separating_plane, 2D overload: computes the query's orientation against
      the line (i, j), gives up when it is zero, and otherwise scans the other points,
      stopping at the first one strictly on the query's side. */
  method IsSeparatingPlane2(pts: seq<int>, query: seq<int>, i: nat, j: nat) returns (sep: bool)
    requires |query| == 2 && i < NumPoints(pts, 2) && j < NumPoints(pts, 2)
    ensures Orient2d(Point(pts, 2, i), Point(pts, 2, j), query) == 0 ==> !sep
    ensures sep <==> IsSeparating2(pts, query, i, j)
  {
    var pa, pb := Point(pts, 2, i), Point(pts, 2, j);
    var oriQuery := Orient2d(pa, pb, query);
    if oriQuery == 0 {
      return false;
    }
    var numPts := |pts| / 2;
    for l := 0 to numPts
      invariant forall m :: 0 <= m < l && m != i && m != j ==>
        Orient2d(pa, pb, Point(pts, 2, m)) * oriQuery <= 0
    {
      if l == i || l == j {
        continue;
      }
      var ori := Orient2d(pa, pb, Point(pts, 2, l));
      if ori * oriQuery > 0 {
        return false;
      }
    }
    return true;
  }

  /** details::is_separating_plane, 3D overload: the same scan against the plane (i, j, k). */
  method IsSeparatingPlane3(pts: seq<int>, query: seq<int>, i: nat, j: nat, k: nat) returns (sep: bool)
    requires |query| == 3 && i < NumPoints(pts, 3) && j < NumPoints(pts, 3) && k < NumPoints(pts, 3)
    ensures Orient3d(Point(pts, 3, i), Point(pts, 3, j), Point(pts, 3, k), query) == 0 ==> !sep
    ensures sep <==> IsSeparating3(pts, query, i, j, k)
  {
    var pa, pb, pc := Point(pts, 3, i), Point(pts, 3, j), Point(pts, 3, k);
    var oriQuery := Orient3d(pa, pb, pc, query);
    if oriQuery == 0 {
      return false;
    }
    var numPts := |pts| / 3;
    for l := 0 to numPts
      invariant forall m :: 0 <= m < l && m != i && m != j && m != k ==>
        Orient3d(pa, pb, pc, Point(pts, 3, m)) * oriQuery <= 0
    {
      if l == i || l == j || l == k {
        continue;
      }
      var ori := Orient3d(pa, pb, pc, Point(pts, 3, l));
      if ori * oriQuery > 0 {
        return false;
      }
    }
    return true;
  }

  /** contains<DIM>: enumerates every triple i < j < k (DIM = 3) or pair i < j (DIM = 2)
      and answers false at the first separating candidate; any other DIM enumerates
      nothing and answers true. */
  method Contains(dim: nat, pts: seq<int>, query: seq<int>) returns (inside: bool)
    requires dim > 0 && |query| == dim
    ensures dim == 3 ==> (inside <==> !Separated3(pts, query))
    ensures dim == 2 ==> (inside <==> !Separated2(pts, query))
    ensures dim != 2 && dim != 3 ==> inside
    ensures dim == 3 && NumPoints(pts, 3) < 3 ==> inside
    ensures dim == 2 && NumPoints(pts, 2) < 2 ==> inside
  {
    if dim == 3 {
      inside := ContainsTriples(pts, query);
    } else if dim == 2 {
      inside := ContainsPairs(pts, query);
    } else {
      inside := true;
    }
  }

  /** The DIM = 3 branch of contains: the triple loop over i < j < k. */
  method ContainsTriples(pts: seq<int>, query: seq<int>) returns (inside: bool)
    requires |query| == 3
    ensures inside <==> !Separated3(pts, query)
  {
    var numPts := |pts| / 3;
    for i := 0 to numPts
      invariant forall a, b, c :: 0 <= a < i && a < b < c < numPts ==> !IsSeparating3(pts, query, a, b, c)
    {
      for j := i + 1 to numPts
        invariant forall a, b, c :: 0 <= a < i && a < b < c < numPts ==> !IsSeparating3(pts, query, a, b, c)
        invariant forall b, c :: i < b < j && b < c < numPts ==> !IsSeparating3(pts, query, i, b, c)
      {
        for k := j + 1 to numPts
          invariant forall a, b, c :: 0 <= a < i && a < b < c < numPts ==> !IsSeparating3(pts, query, a, b, c)
          invariant forall b, c :: i < b < j && b < c < numPts ==> !IsSeparating3(pts, query, i, b, c)
          invariant forall c :: j < c < k ==> !IsSeparating3(pts, query, i, j, c)
        {
          var sep := IsSeparatingPlane3(pts, query, i, j, k);
          if sep {
            return false;
          }
        }
      }
    }
    return true;
  }

  /** The DIM = 2 branch of contains: the pair loop over i < j. */
  method ContainsPairs(pts: seq<int>, query: seq<int>) returns (inside: bool)
    requires |query| == 2
    ensures inside <==> !Separated2(pts, query)
  {
    var numPts := |pts| / 2;
    for i := 0 to numPts
      invariant forall a, b :: 0 <= a < i && a < b < numPts ==> !IsSeparating2(pts, query, a, b)
    {
      for j := i + 1 to numPts
        invariant forall a, b :: 0 <= a < i && a < b < numPts ==> !IsSeparating2(pts, query, a, b)
        invariant forall b :: i < b < j ==> !IsSeparating2(pts, query, i, b)
      {
        var sep := IsSeparatingPlane2(pts, query, i, j);
        if sep {
          return false;
        }
      }
    }
    return true;
  }

  /** Every point of the set is reported inside (2D): a line through the point itself gives
      orientation zero, and any other line meets the point again in the scan, on the
      query's own side. */
  lemma MemberIsContained2(pts: seq<int>, m: nat)
    requires m < NumPoints(pts, 2)
    ensures !Separated2(pts, Point(pts, 2, m))
  {
    var q := Point(pts, 2, m);
    forall i, j | 0 <= i < j < NumPoints(pts, 2)
      ensures !IsSeparating2(pts, q, i, j)
    {
      var pa, pb := Point(pts, 2, i), Point(pts, 2, j);
      var oriQuery := Orient2d(pa, pb, q);
      if m != i && m != j && oriQuery != 0 {
        assert Orient2d(pa, pb, Point(pts, 2, m)) * oriQuery > 0;
      }
    }
  }

  /** Every point of the set is reported inside (3D). */
  lemma MemberIsContained3(pts: seq<int>, m: nat)
    requires m < NumPoints(pts, 3)
    ensures !Separated3(pts, Point(pts, 3, m))
  {
    var q := Point(pts, 3, m);
    forall i, j, k | 0 <= i < j < k < NumPoints(pts, 3)
      ensures !IsSeparating3(pts, q, i, j, k)
    {
      var pa, pb, pc := Point(pts, 3, i), Point(pts, 3, j), Point(pts, 3, k);
      var oriQuery := Orient3d(pa, pb, pc, q);
      if m != i && m != j && m != k && oriQuery != 0 {
        assert Orient3d(pa, pb, pc, Point(pts, 3, m)) * oriQuery > 0;
      }
    }
  }

  /** A query far outside the triangle (0,0), (10,0), (0,10) is separated: the line through
      (10,0) and (0,10) has the query strictly on one side and the third point on the other. */
  lemma FarQuerySeparated()
    ensures Separated2([0, 0, 10, 0, 0, 10], [20, 20])
  {
    var pts := [0, 0, 10, 0, 0, 10];
    assert NumPoints(pts, 2) == 3;
    assert Point(pts, 2, 0) == [0, 0] && Point(pts, 2, 1) == [10, 0] && Point(pts, 2, 2) == [0, 10];
    assert Orient2d([10, 0], [0, 10], [20, 20]) == -1;
    assert Orient2d([10, 0], [0, 10], [0, 0]) == 1;
    assert IsSeparating2(pts, [20, 20], 1, 2);
  }
}
