/**
  The GeoJSON feature collection that the KML converter hands to the viewer, and the
  per-line length the viewer computes from it.

  A position is the first two components of a GeoJSON coordinate array (longitude,
  latitude) plus whatever follows them (altitude and beyond), which the length
  computation never reads.

  Coordinates are modelled as a FLAT sequence of positions, which is the shape of a
  `LineString` (section 3.1.4 of RFC 7946). A `MultiLineString` (section 3.1.5 of
  RFC 7946) nests its positions one level deeper, one array per part; the viewer
  nevertheless walks it as if it were flat, so that each "position" it destructures
  is in fact a whole part and the distance comes out as NaN (a one-part
  `MultiLineString` contributes 0, since index 0 is never destructured). This model
  covers only the flat case.

  `Math.sqrt` is not defined here: it is a parameter `sqrt`, and the facts about it
  that a proof needs are stated by `NonNegativeRoot` and `IsSquareRoot`.
*/
module GeoJson {
  import opened Wrappers

  datatype Position = Position(lon: real, lat: real, rest: seq<real>)

  /** A geometry: its type label (`"Point"`, `"LineString"`, ...) and its positions. */
  datatype Geometry = Geometry(kind: string, coordinates: seq<Position>)

  /** A feature; its geometry may be `null`. Its properties are never read and are not modelled. */
  datatype Feature = Feature(geometry: Option<Geometry>)

  datatype FeatureCollection = FeatureCollection(features: seq<Feature>)

  /** `x ** 2` */
  function Square(x: real): real
  {
    x * x
  }

  /** What the platform's square root promises: a non-negative result for a non-negative argument. */
  ghost predicate NonNegativeRoot(sqrt: real -> real)
  {
    forall x :: 0.0 <= x ==> 0.0 <= sqrt(x)
  }

  /** The platform's square root is exact (reals stand for doubles). */
  ghost predicate IsSquareRoot(sqrt: real -> real)
  {
    forall x :: 0.0 <= x ==> 0.0 <= sqrt(x) && Square(sqrt(x)) == x
  }

  lemma PositiveProduct(a: real, b: real)
    requires 0.0 < a && 0.0 < b
    ensures 0.0 < a * b
  {
  }

  lemma SquareGrows(a: real, b: real)
    requires 0.0 <= a < b
    ensures Square(a) < Square(b)
  {
    PositiveProduct(b - a, b + a);
    assert b * b - a * a == (b - a) * (b + a);
  }

  /** An exact square root is determined by its square. */
  lemma RootOf(sqrt: real -> real, x: real, y: real)
    requires IsSquareRoot(sqrt)
    requires 0.0 <= y && Square(y) == x
    ensures sqrt(x) == y
  {
    var r := sqrt(x);
    assert 0.0 <= r && Square(r) == Square(y);
    if r < y {
      SquareGrows(r, y);
    } else if r > y {
      SquareGrows(y, r);
    }
  }

  /** `haystack.includes(needle)` */
  function Contains(haystack: string, needle: string): bool
    decreases |haystack|
  {
    if |haystack| < |needle| then false
    else needle <= haystack || Contains(haystack[1..], needle)
  }

  /** `includes` holds exactly when `needle` occurs in `haystack` at some offset. */
  lemma {:induction false} ContainsIffOccurs(haystack: string, needle: string)
    ensures Contains(haystack, needle) <==> exists i :: 0 <= i <= |haystack| - |needle| && needle <= haystack[i..]
    decreases |haystack|
  {
    if |haystack| >= |needle| {
      if needle <= haystack {
        assert needle <= haystack[0..];
      } else {
        ContainsIffOccurs(haystack[1..], needle);
        assert forall i :: 0 < i <= |haystack| ==> haystack[1..][i - 1..] == haystack[i..];
        if exists i :: 0 <= i <= |haystack| - |needle| && needle <= haystack[i..] {
          var i :| 0 <= i <= |haystack| - |needle| && needle <= haystack[i..];
          assert i != 0;
          assert needle <= haystack[1..][i - 1..];
        }
      }
    }
  }

  /** The type test of the aggregation: the label contains `"LineString"` anywhere. */
  predicate IsLineKind(kind: string)
  {
    Contains(kind, "LineString")
  }

  /** The test is a substring test, not an equality: `"MultiLineString"` passes it too. */
  lemma LineKinds()
    ensures IsLineKind("LineString") && IsLineKind("MultiLineString")
  {
    // Dafny evaluates `Contains` on these literals unaided.
  }

  /** Labels shorter than `"LineString"`, or of its length but different, fail the test. */
  lemma NonLineKinds()
    ensures !IsLineKind("Point") && !IsLineKind("Polygon") && !IsLineKind("MultiPoint")
  {
    assert "MultiPoint"[0] != "LineString"[0];
    assert !IsLineKind("MultiPoint"[1..]);
  }

  /** The planar distance between two positions, from their first two components only. */
  function SegmentLength(sqrt: real -> real, p: Position, q: Position): (d: real)
    ensures NonNegativeRoot(sqrt) ==> 0.0 <= d
  {
    sqrt(Square(q.lon - p.lon) + Square(q.lat - p.lat))
  }

  /** The callback given to `reduce`: the segment ending at `index`, added to `total`. */
  function ReduceStep(sqrt: real -> real, arr: seq<Position>, total: real, index: nat): real
    requires index < |arr|
  {
    if index == 0 then total
    else total + SegmentLength(sqrt, arr[index - 1], arr[index])
  }

  /** `reduce` from the initial value 0 over the first `n` positions. */
  function FoldPrefix(sqrt: real -> real, arr: seq<Position>, n: nat): (total: real)
    requires n <= |arr|
    ensures n <= 1 ==> total == 0.0
    ensures NonNegativeRoot(sqrt) ==> 0.0 <= total
  {
    if n == 0 then 0.0
    else ReduceStep(sqrt, arr, FoldPrefix(sqrt, arr, n - 1), n - 1)
  }

  /** The length of one line: the `reduce` over all its positions. */
  function LineLength(sqrt: real -> real, coordinates: seq<Position>): (length: real)
    ensures |coordinates| <= 1 ==> length == 0.0
    ensures NonNegativeRoot(sqrt) ==> 0.0 <= length
  {
    FoldPrefix(sqrt, coordinates, |coordinates|)
  }

  /** Reference definition: the sum of the distances between consecutive positions. */
  function SegmentSum(sqrt: real -> real, ps: seq<Position>): real
  {
    if |ps| < 2 then 0.0
    else SegmentLength(sqrt, ps[0], ps[1]) + SegmentSum(sqrt, ps[1..])
  }

  lemma {:induction false} SegmentSumSnoc(sqrt: real -> real, ps: seq<Position>, q: Position)
    requires ps != []
    ensures SegmentSum(sqrt, ps + [q]) == SegmentSum(sqrt, ps) + SegmentLength(sqrt, ps[|ps| - 1], q)
    decreases |ps|
  {
    if |ps| == 1 {
      assert (ps + [q])[1..] == [q];
    } else {
      assert (ps + [q])[1..] == ps[1..] + [q];
      SegmentSumSnoc(sqrt, ps[1..], q);
    }
  }

  lemma {:induction false} FoldPrefixIsSegmentSum(sqrt: real -> real, arr: seq<Position>, n: nat)
    requires n <= |arr|
    ensures FoldPrefix(sqrt, arr, n) == SegmentSum(sqrt, arr[..n])
  {
    if n >= 2 {
      FoldPrefixIsSegmentSum(sqrt, arr, n - 1);
      assert arr[..n] == arr[..n - 1] + [arr[n - 1]];
      SegmentSumSnoc(sqrt, arr[..n - 1], arr[n - 1]);
    }
  }

  /** The fold adds up exactly the segments between consecutive positions. */
  lemma LineLengthIsSegmentSum(sqrt: real -> real, coordinates: seq<Position>)
    ensures LineLength(sqrt, coordinates) == SegmentSum(sqrt, coordinates)
  {
    FoldPrefixIsSegmentSum(sqrt, coordinates, |coordinates|);
    assert coordinates[..|coordinates|] == coordinates;
  }

  /** Two paths with the same (longitude, latitude) pairs, whatever their other components. */
  predicate SamePlanarPath(a: seq<Position>, b: seq<Position>)
  {
    |a| == |b| && forall i :: 0 <= i < |a| ==> a[i].lon == b[i].lon && a[i].lat == b[i].lat
  }

  lemma {:induction false} FoldPrefixPlanar(sqrt: real -> real, a: seq<Position>, b: seq<Position>, n: nat)
    requires SamePlanarPath(a, b) && n <= |a|
    ensures FoldPrefix(sqrt, a, n) == FoldPrefix(sqrt, b, n)
  {
    if n > 1 {
      FoldPrefixPlanar(sqrt, a, b, n - 1);
      assert a[n - 2].lon == b[n - 2].lon && a[n - 2].lat == b[n - 2].lat;
      assert a[n - 1].lon == b[n - 1].lon && a[n - 1].lat == b[n - 1].lat;
    }
  }

  /** Only the first two components of each position enter the length. */
  lemma LineLengthIgnoresRest(sqrt: real -> real, a: seq<Position>, b: seq<Position>)
    requires SamePlanarPath(a, b)
    ensures LineLength(sqrt, a) == LineLength(sqrt, b)
  {
    FoldPrefixPlanar(sqrt, a, b, |a|);
  }

  /** Under an exact square root, a two-position line is as long as its one segment. */
  lemma TwoPointLength(sqrt: real -> real, p: Position, q: Position, length: real)
    requires IsSquareRoot(sqrt)
    requires 0.0 <= length && Square(q.lon - p.lon) + Square(q.lat - p.lat) == Square(length)
    ensures LineLength(sqrt, [p, q]) == length
  {
    RootOf(sqrt, Square(length), length);
  }
}
