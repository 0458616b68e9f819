/**
  The feature aggregator: one pass over the features of a collection that builds a
  count per geometry type and, for the types whose label contains `"LineString"`, a
  total line length per type.

  `ProcessFeatures` is the loop itself, over two maps it updates in place. It is
  proved against `Summary` and `Details`, which say what each map holds in terms of
  the features alone; the lemmas below then state what those two maps promise.
*/
module Aggregation {
  import opened Wrappers
  import opened GeoJson

  /** The two tables the aggregation produces: type -> count and type -> total length. */
  datatype Tables = Tables(counts: map<string, nat>, lengths: map<string, real>)

  /** Reading `geometry.type` of a feature whose geometry is `null` throws. */
  datatype AggregateError = MissingGeometry(index: nat)

  /** The feature has a geometry and that geometry's label is `kind`. */
  predicate HasKind(f: Feature, kind: string)
  {
    f.geometry.Some? && f.geometry.value.kind == kind
  }

  /** Every feature has a geometry: the case in which the aggregation runs to the end. */
  predicate AllGeometric(features: seq<Feature>)
  {
    forall i :: 0 <= i < |features| ==> features[i].geometry.Some?
  }

  /** The number of features whose geometry has label `kind`. */
  function Occurrences(features: seq<Feature>, kind: string): (n: nat)
    ensures n <= |features|
  {
    if features == [] then 0
    else
      var last := features[|features| - 1];
      Occurrences(features[..|features| - 1], kind) + (if HasKind(last, kind) then 1 else 0)
  }

  /** The labels of the geometries present. */
  function Kinds(features: seq<Feature>): set<string>
  {
    if features == [] then {}
    else
      var last := features[|features| - 1];
      Kinds(features[..|features| - 1]) + (if last.geometry.Some? then {last.geometry.value.kind} else {})
  }

  /** The sum of the line lengths of the features whose geometry has label `kind`. */
  function KindLength(sqrt: real -> real, features: seq<Feature>, kind: string): (total: real)
    ensures NonNegativeRoot(sqrt) ==> 0.0 <= total
  {
    if features == [] then 0.0
    else
      var last := features[|features| - 1];
      KindLength(sqrt, features[..|features| - 1], kind)
        + (if HasKind(last, kind) then LineLength(sqrt, last.geometry.value.coordinates) else 0.0)
  }

  /** What the count table must hold: each label present, with its number of features. */
  function Summary(features: seq<Feature>): map<string, nat>
  {
    map kind | kind in Kinds(features) :: Occurrences(features, kind)
  }

  /** What the length table must hold: each line label present, with its total length. */
  function Details(sqrt: real -> real, features: seq<Feature>): map<string, real>
  {
    map kind | kind in Kinds(features) && IsLineKind(kind) :: KindLength(sqrt, features, kind)
  }

  /** `counts[type] = (counts[type] || 0) + 1`: the entry for `kind`, created at 0 if absent, goes up by one. */
  function Bump(counts: map<string, nat>, kind: string): (r: map<string, nat>)
    ensures r.Keys == counts.Keys + {kind}
    ensures r[kind] == (if kind in counts then counts[kind] else 0) + 1
    ensures forall k :: k in counts && k != kind ==> r[k] == counts[k]
  {
    counts[kind := (if kind in counts then counts[kind] else 0) + 1]
  }

  /** `lengths[type] = (lengths[type] || 0) + length`: `length` is added to the entry for `kind`, created at 0 if absent. */
  function Accumulate(lengths: map<string, real>, kind: string, length: real): (r: map<string, real>)
    ensures r.Keys == lengths.Keys + {kind}
    ensures r[kind] == (if kind in lengths then lengths[kind] else 0.0) + length
    ensures forall k :: k in lengths && k != kind ==> r[k] == lengths[k]
  {
    lengths[kind := (if kind in lengths then lengths[kind] else 0.0) + length]
  }

  /**
    The aggregation loop. It stops at the first feature without a geometry, as the
    source does when `feature.geometry.type` throws; the partial tables are then lost.
  */
  method ProcessFeatures(sqrt: real -> real, data: FeatureCollection) returns (r: Result<Tables, AggregateError>)
    ensures r.Success? <==> AllGeometric(data.features)
    ensures r.Success? ==> r.value.counts == Summary(data.features)
    ensures r.Success? ==> r.value.lengths == Details(sqrt, data.features)
    ensures r.Success? ==> r.value.lengths.Keys == set kind | kind in r.value.counts && IsLineKind(kind)
    ensures r.Failure? ==>
      var i := r.error.index;
      i < |data.features| && data.features[i].geometry.None? && AllGeometric(data.features[..i])
    ensures r.Success? && NonNegativeRoot(sqrt) ==> forall kind :: kind in r.value.lengths ==> 0.0 <= r.value.lengths[kind]
    ensures data.features == [] ==> r == Success(Tables(map[], map[]))
  {
    var features := data.features;
    var counts: map<string, nat> := map[];
    var lengths: map<string, real> := map[];
    var i := 0;
    while i < |features|
      invariant 0 <= i <= |features|
      invariant forall j :: 0 <= j < i ==> features[j].geometry.Some?
      invariant counts == Summary(features[..i])
      invariant lengths == Details(sqrt, features[..i])
    {
      var feature := features[i];
      if feature.geometry.None? {
        assert AllGeometric(features[..i]);
        return Failure(MissingGeometry(i));
      }
      var kind := feature.geometry.value.kind;
      counts := Bump(counts, kind);
      if IsLineKind(kind) {
        var length := LineLength(sqrt, feature.geometry.value.coordinates);
        lengths := Accumulate(lengths, kind, length);
      }
      PrefixStep(sqrt, features, i);
      i := i + 1;
    }
    assert features[..i] == features;
    DetailsKeys(sqrt, features);
    if features == [] {
      NoFeatures(sqrt);
    }
    if NonNegativeRoot(sqrt) {
      DetailsNonNegative(sqrt, features);
    }
    r := Success(Tables(counts, lengths));
  }

  /** The tables after one more feature of `features`, in the form the loop body builds them. */
  lemma PrefixStep(sqrt: real -> real, features: seq<Feature>, i: nat)
    requires i < |features| && features[i].geometry.Some?
    ensures var kind := features[i].geometry.value.kind;
      Summary(features[..i + 1]) == Bump(Summary(features[..i]), kind) &&
      Details(sqrt, features[..i + 1]) ==
        if IsLineKind(kind)
        then Accumulate(Details(sqrt, features[..i]), kind, LineLength(sqrt, features[i].geometry.value.coordinates))
        else Details(sqrt, features[..i])
  {
    assert features[..i + 1] == features[..i] + [features[i]];
    SummaryStep(features[..i], features[i]);
    DetailsStep(sqrt, features[..i], features[i]);
  }

  /** No features, no table entries. */
  lemma NoFeatures(sqrt: real -> real)
    ensures Summary([]) == map[] && Details(sqrt, []) == map[]
  {
  }

  /** The length labels are the count labels that pass the type test. */
  lemma DetailsKeys(sqrt: real -> real, features: seq<Feature>)
    ensures Details(sqrt, features).Keys == set kind | kind in Summary(features) && IsLineKind(kind)
  {
  }

  lemma DetailsNonNegative(sqrt: real -> real, features: seq<Feature>)
    requires NonNegativeRoot(sqrt)
    ensures forall kind :: kind in Details(sqrt, features) ==> 0.0 <= Details(sqrt, features)[kind]
  {
  }

  lemma {:induction false} OccursIffKind(features: seq<Feature>, kind: string)
    ensures 0 < Occurrences(features, kind) <==> kind in Kinds(features)
  {
    if features != [] {
      OccursIffKind(features[..|features| - 1], kind);
    }
  }

  lemma {:induction false} KindLengthAbsent(sqrt: real -> real, features: seq<Feature>, kind: string)
    requires kind !in Kinds(features)
    ensures KindLength(sqrt, features, kind) == 0.0
  {
    if features != [] {
      KindLengthAbsent(sqrt, features[..|features| - 1], kind);
    }
  }

  /** One more feature bumps the count of its own label and of no other. */
  lemma SummaryStep(features: seq<Feature>, f: Feature)
    ensures Summary(features + [f]) ==
      if f.geometry.Some? then Bump(Summary(features), f.geometry.value.kind) else Summary(features)
  {
    var fs := features + [f];
    assert fs[..|fs| - 1] == features;
    if f.geometry.Some? {
      OccursIffKind(features, f.geometry.value.kind);
    }
  }

  /** One more line feature adds its length to the total of its own label and of no other. */
  lemma DetailsStep(sqrt: real -> real, features: seq<Feature>, f: Feature)
    ensures Details(sqrt, features + [f]) ==
      if f.geometry.Some? && IsLineKind(f.geometry.value.kind)
      then Accumulate(Details(sqrt, features), f.geometry.value.kind, LineLength(sqrt, f.geometry.value.coordinates))
      else Details(sqrt, features)
  {
    var fs := features + [f];
    assert fs[..|fs| - 1] == features;
    if f.geometry.Some? && f.geometry.value.kind !in Kinds(features) {
      KindLengthAbsent(sqrt, features, f.geometry.value.kind);
    }
  }

  /** The label set of the count table is exactly the set of labels of the features' geometries. */
  lemma {:induction false} KindsAreLabels(features: seq<Feature>, kind: string)
    ensures kind in Kinds(features) <==> exists i :: 0 <= i < |features| && HasKind(features[i], kind)
  {
    if features != [] {
      var init := features[..|features| - 1];
      KindsAreLabels(init, kind);
      if kind in Kinds(init) {
        var i :| 0 <= i < |init| && HasKind(init[i], kind);
        assert features[i] == init[i];
      }
      if exists i :: 0 <= i < |features| && HasKind(features[i], kind) {
        var i :| 0 <= i < |features| && HasKind(features[i], kind);
        if i < |init| {
          assert HasKind(init[i], kind);
        }
      }
    }
  }

  /** The sum of all the values of a count table. */
  ghost function SumValues(counts: map<string, nat>): nat
    decreases |counts|
  {
    if counts == map[] then 0
    else
      var k :| k in counts;
      counts[k] + SumValues(counts - {k})
  }

  lemma {:induction false} SumValuesRemove(counts: map<string, nat>, k: string)
    requires k in counts
    ensures SumValues(counts) == counts[k] + SumValues(counts - {k})
    decreases |counts|
  {
    var j :| j in counts && SumValues(counts) == counts[j] + SumValues(counts - {j});
    if j != k {
      SumValuesRemove(counts - {j}, k);
      SumValuesRemove(counts - {k}, j);
      assert counts - {j} - {k} == counts - {k} - {j};
    }
  }

  lemma SumValuesBump(counts: map<string, nat>, kind: string)
    ensures SumValues(Bump(counts, kind)) == SumValues(counts) + 1
  {
    var bumped := Bump(counts, kind);
    SumValuesRemove(bumped, kind);
    if kind in counts {
      SumValuesRemove(counts, kind);
      assert bumped - {kind} == counts - {kind};
    } else {
      assert bumped - {kind} == counts;
    }
  }

  /** The counts add up to the number of features processed. */
  lemma {:induction false} SummaryTotal(features: seq<Feature>)
    requires AllGeometric(features)
    ensures SumValues(Summary(features)) == |features|
  {
    if features != [] {
      var init, last := features[..|features| - 1], features[|features| - 1];
      assert features == init + [last];
      SummaryTotal(init);
      SummaryStep(init, last);
      SumValuesBump(Summary(init), last.geometry.value.kind);
    }
  }

  /** Counts over two runs of features add up: the count of a label does not depend on where the features fall. */
  lemma {:induction false} OccurrencesAppend(a: seq<Feature>, b: seq<Feature>, kind: string)
    ensures Occurrences(a + b, kind) == Occurrences(a, kind) + Occurrences(b, kind)
    decreases |b|
  {
    if b != [] {
      var b' := b[..|b| - 1];
      assert (a + b)[..|a + b| - 1] == a + b';
      OccurrencesAppend(a, b', kind);
    } else {
      assert a + b == a;
    }
  }

  /** Lengths of features with the same label accumulate into one total, whatever their position. */
  lemma {:induction false} KindLengthAppend(sqrt: real -> real, a: seq<Feature>, b: seq<Feature>, kind: string)
    ensures KindLength(sqrt, a + b, kind) == KindLength(sqrt, a, kind) + KindLength(sqrt, b, kind)
    decreases |b|
  {
    if b != [] {
      var b' := b[..|b| - 1];
      assert (a + b)[..|a + b| - 1] == a + b';
      KindLengthAppend(sqrt, a, b', kind);
    } else {
      assert a + b == a;
    }
  }

  /** A feature whose geometry has label `kind` and the given positions. */
  function Labelled(kind: string, coordinates: seq<Position>): Feature
  {
    Feature(Some(Geometry(kind, coordinates)))
  }

  lemma SummaryOne(f: Feature)
    requires f.geometry.Some?
    ensures Summary([f]) == map[f.geometry.value.kind := 1]
  {
    SummaryStep([], f);
    assert [] + [f] == [f];
  }

  lemma DetailsOne(sqrt: real -> real, f: Feature)
    requires f.geometry.Some?
    ensures Details(sqrt, [f]) ==
      if IsLineKind(f.geometry.value.kind)
      then map[f.geometry.value.kind := LineLength(sqrt, f.geometry.value.coordinates)]
      else map[]
  {
    DetailsStep(sqrt, [], f);
    assert [] + [f] == [f];
    assert Details(sqrt, []) == map[];
  }

  /** A point and a line: one entry of 1 for each label. */
  lemma PointAndLineCounts(point: Feature, line: Feature)
    requires point == Labelled("Point", [Position(1.0, 1.0, [])])
    requires line == Labelled("LineString", [Position(0.0, 0.0, []), Position(3.0, 4.0, [])])
    ensures Summary([point, line]) == map["Point" := 1, "LineString" := 1]
  {
    assert [point] + [line] == [point, line];
    SummaryOne(point);
    SummaryStep([point], line);
  }

  /** A point and a line from (0, 0) to (3, 4): the only length entry is the line's, 5. */
  lemma PointAndLineLengths(sqrt: real -> real, point: Feature, line: Feature)
    requires IsSquareRoot(sqrt)
    requires point == Labelled("Point", [Position(1.0, 1.0, [])])
    requires line == Labelled("LineString", [Position(0.0, 0.0, []), Position(3.0, 4.0, [])])
    ensures Details(sqrt, [point, line]) == map["LineString" := 5.0]
  {
    assert Details(sqrt, [point]) == map[] by {
      NonLineKinds();
      DetailsOne(sqrt, point);
    }
    assert LineLength(sqrt, line.geometry.value.coordinates) == 5.0 by {
      TwoPointLength(sqrt, Position(0.0, 0.0, []), Position(3.0, 4.0, []), 5.0);
    }
    LineKinds();
    assert [point] + [line] == [point, line];
    DetailsStep(sqrt, [point], line);
  }

  /** Two line features under the same label: one entry, counting both. */
  lemma TwoLinesCounts(first: Feature, second: Feature)
    requires first == Labelled("LineString", [Position(0.0, 0.0, []), Position(1.0, 0.0, [])])
    requires second == Labelled("LineString", [Position(0.0, 0.0, []), Position(0.0, 2.0, [])])
    ensures Summary([first, second]) == map["LineString" := 2]
  {
    assert [first] + [second] == [first, second];
    SummaryOne(first);
    SummaryStep([first], second);
  }

  /** Two lines of lengths 1 and 2 under the same label accumulate into one entry of 3. */
  lemma TwoLinesAccumulate(sqrt: real -> real, first: Feature, second: Feature)
    requires IsSquareRoot(sqrt)
    requires first == Labelled("LineString", [Position(0.0, 0.0, []), Position(1.0, 0.0, [])])
    requires second == Labelled("LineString", [Position(0.0, 0.0, []), Position(0.0, 2.0, [])])
    ensures Details(sqrt, [first, second]) == map["LineString" := 3.0]
  {
    LineKinds();
    TwoPointLength(sqrt, Position(0.0, 0.0, []), Position(1.0, 0.0, []), 1.0);
    TwoPointLength(sqrt, Position(0.0, 0.0, []), Position(0.0, 2.0, []), 2.0);
    DetailsOne(sqrt, first);
    assert [first] + [second] == [first, second];
    DetailsStep(sqrt, [first], second);
  }
}
