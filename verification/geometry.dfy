/**
 * The orientation oracle and the flat point layout shared by both membership tests.
 *
 * Coordinates are exact integers, so the sign of each determinant is exact: this stands in
 * for the adaptive-precision orient2d / orient3d predicates, whose only observable output
 * the membership tests use is the sign (they multiply signs and compare them with zero).
 */
module Geometry {

  /** Sign of an integer: -1, 0 or +1. */
  function Sign(x: int): (s: int)
    ensures -1 <= s <= 1
    ensures s > 0 <==> x > 0
    ensures s < 0 <==> x < 0
  {
    if x > 0 then 1 else if x < 0 then -1 else 0
  }

  /** Number of whole points of dimension `dim` in a flat coordinate buffer; trailing
      coordinates that do not fill a point are ignored, as the integer division does. */
  function NumPoints(pts: seq<int>, dim: nat): nat
    requires dim > 0
  {
    |pts| / dim
  }

  lemma StrideFits(len: nat, dim: nat, i: nat)
    requires dim > 0 && i < len / dim
    ensures dim * i + dim <= len
  {
    var q := len / dim;
    assert i + 1 <= q;
    assert dim * (i + 1) <= dim * q;
    assert dim * q <= len;
  }

  /** Point `i` of a flat buffer: its coordinate `c` is stored at `dim * i + c`. */
  function Point(pts: seq<int>, dim: nat, i: nat): (p: seq<int>)
    requires dim > 0 && i < NumPoints(pts, dim)
    ensures |p| == dim
    ensures forall c :: 0 <= c < dim ==> dim * i + c < |pts| && p[c] == pts[dim * i + c]
  {
    StrideFits(|pts|, dim, i);
    pts[dim * i .. dim * i + dim]
  }

  /** The orient2d predicate: the sign of the signed area of triangle (a, b, c), positive
      when the three points turn counter-clockwise, zero when they are collinear. */
  function Orient2d(a: seq<int>, b: seq<int>, c: seq<int>): (s: int)
    requires |a| == 2 && |b| == 2 && |c| == 2
    ensures -1 <= s <= 1
    ensures c == a || c == b ==> s == 0
  {
    Sign((a[0] - c[0]) * (b[1] - c[1]) - (a[1] - c[1]) * (b[0] - c[0]))
  }

  /** The orient3d predicate: the sign of the signed volume of tetrahedron (a, b, c, d),
      zero exactly when the four points are coplanar. */
  function Orient3d(a: seq<int>, b: seq<int>, c: seq<int>, d: seq<int>): (s: int)
    requires |a| == 3 && |b| == 3 && |c| == 3 && |d| == 3
    ensures -1 <= s <= 1
    ensures d == a || d == b || d == c ==> s == 0
  {
    var adx, ady, adz := a[0] - d[0], a[1] - d[1], a[2] - d[2];
    var bdx, bdy, bdz := b[0] - d[0], b[1] - d[1], b[2] - d[2];
    var cdx, cdy, cdz := c[0] - d[0], c[1] - d[1], c[2] - d[2];
    Sign(adx * (bdy * cdz - bdz * cdy)
       + bdx * (cdy * adz - cdz * ady)
       + cdx * (ady * bdz - adz * bdy))
  }

  /** The 2x2 cross product p x q of two vectors in the plane. */
  function Cross(p: seq<int>, q: seq<int>): int
    requires |p| == 2 && |q| == 2
  {
    p[0] * q[1] - p[1] * q[0]
  }

  /** det2: the sign of the cross product of two points taken as vectors from the origin,
      which is orient2d of the two points and the origin. */
  function Det2(pa: seq<int>, pb: seq<int>): (s: int)
    requires |pa| == 2 && |pb| == 2
    ensures s == Orient2d(pa, pb, [0, 0])
    ensures pa == pb ==> s == 0
  {
    Sign(Cross(pa, pb))
  }

  /** Swapping the two points flips the sign of det2. */
  lemma Det2Antisymmetric(pa: seq<int>, pb: seq<int>)
    requires |pa| == 2 && |pb| == 2
    ensures Det2(pa, pb) == -Det2(pb, pa)
  {
  }
}
