# Convex hull membership, modelled in Dafny

This project models the brute-force convex-hull membership test of
`include/convex_hull_membership/contains.h`:

- `details::is_separating_plane` (2D and 3D overloads) decides whether the line through
  points `i, j` or the plane through points `i, j, k` separates the query from the point set.
  If the query lies on the candidate it answers false at once. Otherwise it scans every other
  point and answers false at the first point strictly on the query's side.
- `contains<DIM>` enumerates every pair `i < j` (2D) or triple `i < j < k` (3D). It answers
  false at the first separating candidate and true otherwise.
- `contains_origin<2, N>` first fills a packed triangular table with the `det2` sign of every
  pair `i < j`, at index `(N - 1 + N - i) * i / 2 + j - i - 1`. It then answers true as soon
  as some triple shows one of two sign patterns.

Points are a flat, read-only `seq<int>`: coordinate `c` of point `i` sits at `DIM * i + c`.
The number of points is `|pts| / DIM`, truncated as in the source. The orientation oracle
(`orient2d`, `orient3d`) is the sign of its determinant, computed exactly on integers.
`det2` is the sign of the 2x2 cross product, and `Geometry.Det2` proves it equals `orient2d`
of the two points and the origin.

Modules: `Geometry` (geometry.dfy) holds the oracle, `det2` and the point layout.
`Membership` (membership.dfy) holds `is_separating_plane` and `contains`.
`PackedPairs` (packed_pairs.dfy) holds the packed pair index.
`OriginTest` (origin_test.dfy) holds `contains_origin`.

Three behaviours of the code are worth stating:

- `contains_origin` calls the unfiltered `det2` (contains.h:142). `det2_filtered` is never
  called.
- The patterns at contains.h:154-155 test all three signs. A zero sign alone never ends the
  search.
- `contains` with a DIM other than 2 or 3 enumerates nothing and answers true.

## Model

| member | source | states |
|---|---|---|
| `Geometry.Point` | include/convex_hull_membership/contains.h:20-23 | point `i` has `dim` coordinates, and coordinate `c` is the buffer entry at `dim * i + c` |
| `Geometry.Orient2d` | include/convex_hull_membership/contains.h:53 | orient2d is a sign in {-1, 0, 1}; it is 0 when the third point equals one of the two line points |
| `Geometry.Orient3d` | include/convex_hull_membership/contains.h:24 | orient3d is a sign in {-1, 0, 1}; it is 0 when the fourth point equals one of the three plane points |
| `Geometry.Det2` | include/convex_hull_membership/contains.h:94-99 | det2 is orient2d of the two points and the origin; it is 0 for equal points |
| `Geometry.Det2Antisymmetric` | include/convex_hull_membership/contains.h:94-99 | swapping the two points negates det2 |
| `Membership.IsSeparatingPlane2` | include/convex_hull_membership/contains.h:45-72 | returns false when the query is on line (i, j); otherwise true iff every other point l has orientation times the query's orientation <= 0 |
| `Membership.IsSeparatingPlane3` | include/convex_hull_membership/contains.h:15-43 | returns false when the query is on plane (i, j, k); otherwise true iff every other point l has orientation times the query's orientation <= 0 |
| `Membership.Contains` | include/convex_hull_membership/contains.h:103-127 | DIM 3: true iff no triple i<j<k separates; DIM 2: true iff no pair i<j separates; any other DIM, or fewer than DIM points: true |
| `Membership.ContainsTriples` | include/convex_hull_membership/contains.h:109-117 | the DIM = 3 loop returns true iff no triple i<j<k of the set spans a separating plane |
| `Membership.ContainsPairs` | include/convex_hull_membership/contains.h:118-125 | the DIM = 2 loop returns true iff no pair i<j of the set spans a separating line |
| `Membership.MemberIsContained2` | tests/test_convex_hull_membership.cpp:25-28 | in 2D, no pair separates a point of the set from the set, so contains(P, p) is true for every p in P |
| `Membership.FarQuerySeparated` | tests/test_convex_hull_membership.cpp:22-23 | the query (20,20) is separated from (0,0), (10,0), (0,10) by the line through the last two points, so contains answers false |
| `Membership.MemberIsContained3` | tests/test_convex_hull_membership.cpp:25-28 | in 3D, no triple separates a point of the set from the set, so contains(P, p) is true for every p in P |
| `PackedPairs.RowsBeforeClosedForm` | include/convex_hull_membership/contains.h:140 | `(N - 1 + N - i) * i` is exactly twice the number of pairs in rows before i, so the division by 2 is exact |
| `PackedPairs.RowsBeforeTotal` | include/convex_hull_membership/contains.h:134-146 | all rows together hold N (N - 1) / 2 pairs: the table size, and the final count |
| `PackedPairs.PairIndex` | include/convex_hull_membership/contains.h:134-146 | the lexicographic position of pair (i, j), counted as the code's `count` counts, is below the number of pairs |
| `PackedPairs.PackedIndexFormula` | include/convex_hull_membership/contains.h:140-141 | `(N - 1 + N - i) * i / 2 + j - i - 1` divides exactly and equals the running count of pairs before (i, j), which is what `assert(idx == count)` checks |
| `PackedPairs.PairIndexInRange` | include/convex_hull_membership/contains.h:134-142 | every packed index is a valid slot of the N (N - 1) / 2 table |
| `PackedPairs.PairIndexOrder` | include/convex_hull_membership/contains.h:150-153 | packed indices compare exactly as pairs compare lexicographically; equal indices mean equal pairs (injective) |
| `PackedPairs.PairIndexOnto` | include/convex_hull_membership/contains.h:134-146 | every slot below N (N - 1) / 2 is the packed index of some pair i < j < N (onto) |
| `OriginTest.FillPairTable` | include/convex_hull_membership/contains.h:134-146 | the table has N (N - 1) / 2 entries; for every i < j, slot (N-1+N-i)*i/2 + j-i-1 holds det2(p_i, p_j); each index equals the running count, which ends at N (N - 1) / 2 |
| `OriginTest.SearchTriples` | include/convex_hull_membership/contains.h:148-159 | true iff some triple i<j<k has table signs (ij<=0, jk<=0, ik>=0) or (ij>=0, jk>=0, ik<=0), read at the packed indices |
| `OriginTest.TableAgrees` | include/convex_hull_membership/contains.h:150-155 | a table holding det2 of every pair decides each triple exactly as the det2 signs themselves do |
| `OriginTest.ContainsOrigin` | include/convex_hull_membership/contains.h:129-160 | true iff some triple i<j<k has (det2(i,j)<=0, det2(j,k)<=0, det2(i,k)>=0) or the mirror pattern |
| `OriginTest.PositiveTripleCertifiesIffCollinear` | include/convex_hull_membership/contains.h:154-155 | with all coordinates positive, a triple passes the sign test iff its three det2 are all zero (the points lie on one line through the origin) |
| `OriginTest.CollinearRayCertified` | tests/test_convex_hull_membership.cpp:36-41 | the positive points (1,1), (2,2), (3,3) are reported to contain the origin; contains(P, origin) agrees |
| `OriginTest.EnclosedImpliesCertified` | include/convex_hull_membership/contains.h:154-155 | the corrected triple test accepts only triples that the code's test accepts |
| `OriginTest.PositiveCoordinatesExcludeOrigin` | tests/test_convex_hull_membership.cpp:36-41 | under the corrected triple test, a set whose coordinates are all positive never contains the origin |
| `OriginTest.OriginPointEnclosed` | tests/test_convex_hull_membership.cpp:43-45 | with N >= 3, a point of the set at the origin makes both the code's and the corrected test report the origin inside |
| `OriginTest.NegatedSumEnclosed` | tests/test_convex_hull_membership.cpp:47-49 | with N >= 3 and p0 = -(p1 + p2), triple (0, 1, 2) has signs (d, d, -d), so both tests report the origin inside |
| `OriginTest.SegmentThroughOriginDisagrees` | include/convex_hull_membership/contains.h:148-159 | for (-1,0), (1,0), contains_origin is false (no triple exists) while contains(P, origin) and the corrected two-point test report inside; for the single point (0,0), contains_origin is false and the corrected test reports inside |
| `OriginTest.SmallSetNeverCertified` | include/convex_hull_membership/contains.h:148-159 | with fewer than three points contains_origin is false, whatever the points are |
| `OriginTest.SmallSetEnclosesExactly` | include/convex_hull_membership/contains.h:129-160 | the corrected two-point test (det2 zero and dot product <= 0) holds iff some non-negative, not-both-zero weights combine the two points into the origin |
| `OriginTest.TriangleAroundOriginCertified` | include/convex_hull_membership/contains.h:154-155 | (5,5), (-5,5), (0,-5) surround the origin; their det2 signs (1, 1, -1) match the second pattern, and the corrected test agrees |
| `OriginTest.PositiveTriangleNotCertified` | tests/test_convex_hull_membership.cpp:36-41 | the positive points (1,1), (2,1), (1,2) are reported not to contain the origin |

## Findings

| source | as written | input that shows it | evidently intended | confidence | as-written member | corrected member |
|---|---|---|---|---|---|---|
| include/convex_hull_membership/contains.h:154-155 | a triple whose three det2 signs are all 0 satisfies both patterns, so the origin is reported inside | P = (1,1), (2,2), (3,3): all coordinates positive, all three points on one ray from the origin | false, as tests/test_convex_hull_membership.cpp:36-41 expects for positive coordinates | medium, not executed; random real coordinates almost never hit it | `OriginTest.CollinearRayCertified` | `OriginTest.TripleEnclosesOrigin`, proved by `OriginTest.PositiveCoordinatesExcludeOrigin` |
| include/convex_hull_membership/contains.h:148-159 | with N < 3 there is no triple, so the answer is always false | P = (-1,0), (1,0): the origin is the midpoint of the segment; P = (0,0): the origin is the only point | true, the answer `contains(P, origin)` gives on both inputs | medium, not executed; the tests use N = 35 only | `OriginTest.SegmentThroughOriginDisagrees` | `OriginTest.SmallSetEnclosesOrigin`, proved by `OriginTest.SmallSetEnclosesExactly` |

The corrected triple test `OriginTest.TripleEnclosesOrigin` keeps the sign patterns. In the
all-zero case it also requires two of the three points not to lie on a common open ray from
the origin, meaning some pair has dot product <= 0. The tested configurations
(`OriginPointEnclosed`, `NegatedSumEnclosed`) are proved for the corrected test, and
`EnclosedImpliesCertified` carries them over to the code. `OriginTest.ContainsOrigin` itself
still models the code as written.

`contains` shares the all-zero degeneracy. On (1,1), (2,2), (3,3) it also reports the origin
inside (`CollinearRayCertified`). Every line through two of the points passes through the
origin, so the query's orientation is 0 and no pair separates it. More generally, `contains`
never separates a query that is collinear with every pair of points. The same happens with
fewer than DIM points: no candidate exists, so `contains` answers true
(`Membership.Contains`).

For N < 3 the corrected test `OriginTest.SmallSetEnclosesOrigin` reports one point inside
when it is the origin. It reports two points inside when their det2 is zero and their dot
product is <= 0. `SmallSetEnclosesExactly` proves that this is exactly "the origin lies on the
segment between them". The code's answer for N < 3 is always false
(`SmallSetNeverCertified`).

## Left out

- The internals of `orient2d`, `orient3d` and `exactinit()` (adaptive-precision
  floating-point predicates) are not part of this model. They are replaced by exact integer
  determinant signs, and the one-time initialisation has no counterpart.
- `details::det2_filtered` (contains.h:74-92) is not modelled. It is a floating-point
  error-bound filter that neither entry point calls.
- IEEE `double` coordinates and products are not modelled. Coordinates are unbounded
  integers, so every sign is exact.
- `size_t` arithmetic in the packed index is unbounded here. Overflow for huge N is not
  modelled.
- `static_assert`s, type traits and `std::span` pointer arithmetic are replaced by the
  flat-index function `Geometry.Point` and by preconditions. Only `contains_origin` with
  DIM = 2 is modelled, as its `static_assert` demands.
- Contains: requires `|query| == dim` for every DIM. The source asserts this only inside
  `is_separating_plane`, so it never checks the query's size when that function is not
  called: for a DIM other than 2 or 3, for DIM 2 with fewer than 2 points, and for DIM 3 with
  fewer than 3 points (contains.h:110-125). The model excludes those inputs as well.
- Geometric soundness and completeness against the true convex hull are not proved
  (the separating-hyperplane argument). The same goes for general agreement between
  `contains_origin` and `contains(P, origin)`. Because of this the random-data tests are not
  modelled for random data: the zero query (tests/test_convex_hull_membership.cpp:18-20), the
  far-away query (lines 22-23), and the positive-coordinate origin test (lines 36-41). Only
  fixed instances are proved (`FarQuerySeparated`, `PositiveTriangleNotCertified`).
- The Catch2 test harness, random generation and benchmarks
  (tests/test_convex_hull_membership.cpp:60-118) are not modelled.
