# KML viewer: feature aggregation and view state

A model of the logic that the KML viewer (`src/App.jsx`) writes itself. The viewer
reads a KML file, has a library convert it into a GeoJSON feature collection, draws
that collection on a map and shows two tables computed from it: the number of
features per geometry type (`counts`, shown as "Summary") and, for the types whose
label contains `"LineString"`, the total planar length of their lines (`lengths`,
shown as "Detailed View").

- `wrappers.dfy`: `Option` (JavaScript's `null`) and `Result` (an operation that throws part-way).
- `geojson.dfy` (module `GeoJson`): positions, geometries, features and collections; the
  `includes("LineString")` type test (`Contains`, `IsLineKind`); the segment distance
  `Math.sqrt((lon2 - lon1) ** 2 + (lat2 - lat1) ** 2)` (`SegmentLength`); and the
  `reduce` that folds the segments of one line into its length (`ReduceStep`,
  `FoldPrefix`, `LineLength`), proved equal to the plain sum of consecutive distances
  (`SegmentSum`).
- `aggregation.dfy` (module `Aggregation`): `processKMLData`'s loop as the method
  `ProcessFeatures`, which updates two maps in place and is proved against `Summary`
  and `Details`, the tables defined from the features alone; then the properties of
  those tables: the counts add up to the number of features, the labels are exactly
  those present, the length labels are exactly the present labels that pass the type
  test, lengths are non-negative and accumulate per label, and two worked scenarios.
- `viewer.dfy` (module `Viewer`): the five `useState` fields as the class `KmlViewer`,
  its transitions `Load` (the reader's `onload` after conversion), `ToggleSummary` and
  `ToggleDetails`, and the render guards `MapShown` (the map and the button row share
  it), `SummaryShown` and `DetailsShown`, which `Render` reports. The invariant `Valid` (both tables stored together, only after a collection, and flags set only once a collection exists) holds from construction and is kept by every transition, so a table is never rendered without the map.

`Math.sqrt` is a parameter `sqrt: real -> real` (a constant of the viewer object).
Facts about it enter only as hypotheses: `NonNegativeRoot(sqrt)` for the
non-negativity of lengths, `IsSquareRoot(sqrt)` for the numeric scenarios.

A load does not replace the collection and both tables atomically. In the code,
`setGeojson(converted)` runs before `processKMLData(converted)`. When the aggregation
throws part-way (a feature whose `geometry` is `null`), the collection is already
replaced while `setSummary`/`setDetails` are never reached. `geojson` then holds the new
collection (the map stays rendered) and the tables still show the previous file's (`KmlViewer.Load`,
`FailedAggregationKeepsTables`). The partial maps built before the throw are
discarded, so a table never mixes two files.

## Model

| member | source | states |
|---|---|---|
| `GeoJson.ContainsIffOccurs` | src/App.jsx:39 | `includes` holds iff the needle occurs in the label at some offset |
| `GeoJson.LineKinds` | src/App.jsx:39 | both `"LineString"` and `"MultiLineString"` pass the type test |
| `GeoJson.NonLineKinds` | src/App.jsx:39 | `"Point"`, `"Polygon"` and `"MultiPoint"` fail the type test |
| `GeoJson.SegmentLength` | src/App.jsx:43-45 | a segment's distance is non-negative whenever the square root is |
| `GeoJson.FoldPrefix` | src/App.jsx:40-48 | the `reduce` over the first n positions is 0 for n of 0 or 1 and never negative |
| `GeoJson.LineLength` | src/App.jsx:40-48 | a line of 0 or 1 positions has length 0; every line length is non-negative |
| `GeoJson.LineLengthIsSegmentSum` | src/App.jsx:40-48 | the fold equals the sum of the distances between consecutive positions |
| `GeoJson.LineLengthIgnoresRest` | src/App.jsx:43-44 | two lines with the same longitude/latitude pairs have the same length, whatever their altitudes |
| `GeoJson.TwoPointLength` | src/App.jsx:45 | with an exact square root, a two-position line is as long as the Euclidean distance between its ends |
| `Aggregation.ProcessFeatures` | src/App.jsx:31-51 | succeeds iff every feature has a geometry; on success the counts are `Summary` and the lengths `Details` of the features, the length labels are exactly the count labels that pass the type test, and every length is non-negative; otherwise it reports the first feature without geometry; no features give two empty maps |
| `Aggregation.Occurrences` | src/App.jsx:36-37 | a label's count never exceeds the number of features |
| `Aggregation.KindLength` | src/App.jsx:49 | the accumulated length of a label is non-negative |
| `Aggregation.OccursIffKind` | src/App.jsx:36-37 | a label has a positive count iff some geometry carries it |
| `Aggregation.KindsAreLabels` | src/App.jsx:36-37 | the count labels are exactly the labels of the features' geometries |
| `Aggregation.SummaryStep` | src/App.jsx:36-37 | one more feature increments its own label's count (creating it at 1) and no other |
| `Aggregation.DetailsStep` | src/App.jsx:39-49 | one more line feature adds its length to its own label's total (creating it) and no other; other features change nothing |
| `Aggregation.Bump` | src/App.jsx:37 | the entry for the label, created at 0 if absent, goes up by one; the key set gains the label and every other entry is unchanged |
| `Aggregation.Accumulate` | src/App.jsx:49 | the line's length is added to the entry for the label, created at 0 if absent; the key set gains the label and every other entry is unchanged |
| `Aggregation.SumValuesBump` | src/App.jsx:37 | each increment raises the sum of all counts by exactly one |
| `Aggregation.SummaryTotal` | src/App.jsx:35-37 | the counts add up to the number of features processed |
| `Aggregation.OccurrencesAppend` | src/App.jsx:35-37 | counts over two runs of features add up |
| `Aggregation.KindLengthAppend` | src/App.jsx:35-49 | lengths of features with the same label accumulate into one total, over two runs of features |
| `Aggregation.PointAndLineCounts` | src/App.jsx:35-37 | a point and a line give one entry of 1 per label |
| `Aggregation.PointAndLineLengths` | src/App.jsx:39-49 | a point and a line from (0,0) to (3,4) give the single length entry `LineString: 5` |
| `Aggregation.TwoLinesCounts` | src/App.jsx:35-37 | two lines with the same label give one count entry of 2 |
| `Aggregation.TwoLinesAccumulate` | src/App.jsx:39-49 | lines of length 1 and 2 under one label give one length entry of 3 |
| `Viewer.KmlViewer.constructor` | src/App.jsx:9-13 | nothing loaded, no tables, both flags false |
| `Viewer.KmlViewer.Load` | src/App.jsx:24-54 | the collection is replaced and the map shown; the tables are replaced by this collection's alone when aggregation succeeds and kept otherwise; the flags are untouched |
| `Viewer.KmlViewer.Render` | src/App.jsx:72-122 | in every reachable state, a table is never rendered without the map and the buttons, and a rendered table has both maps present; the map and buttons show iff a collection is loaded, each table iff its flag is set and its map is present |
| `Viewer.KmlViewer.ToggleSummary` | src/App.jsx:87 | flips the summary flag and nothing else; the summary table is shown iff the flag is set and the counts are present |
| `Viewer.KmlViewer.ToggleDetails` | src/App.jsx:93 | flips the details flag and nothing else; the details table is shown iff the flag is set and the lengths are present |
| `Viewer.ReloadKeepsFlags` | src/App.jsx:24-93 | load, show both tables, load another file: both tables stay shown and hold the second file's tables only |
| `Viewer.FailedAggregationKeepsTables` | src/App.jsx:24-54 | after a good file, a file with a geometry-less feature replaces the map's collection but leaves the first file's tables |

## Left out

- File intake (`useDropzone`, `FileReader`, the empty drop, the asynchronous `onload` and the race between two reads): I/O and event-loop concurrency. `Load` starts where the converted collection is available.
- XML parsing (`DOMParser`) and the KML-to-GeoJSON conversion: foreign library calls; `Load` takes their output as its argument, and a throw inside them (which leaves the state untouched) is not modelled.
- Map rendering, tile fetching, JSX markup, CSS classes, button labels, the row order of `Object.entries`, and whether the map overlay is redrawn when the `data` it was given changes: UI and network. The guards that decide what is rendered are modelled.
- `MultiLineString` coordinates, which nest one level deeper than a `LineString`'s (section 3.1.5 versus section 3.1.4 of RFC 7946): positions are modelled as one flat sequence. The source destructures each nested part as if it were a position and gets NaN from the second part on (a one-part `MultiLineString` contributes 0); that JavaScript coercion is not modelled.
- GeoJson.SegmentLength: doubles are modelled as reals and `Math.sqrt` as a parameter, so IEEE-754 rounding, NaN and `toFixed(2)` formatting are not captured. The length's non-negativity holds only when the supplied square root is non-negative, and the numeric scenarios assume an exact root.
- Aggregation.ProcessFeatures: geometries are assumed to carry an array of positions with at least two numbers each. The source throws a TypeError on a line-labelled geometry without a `coordinates` array (src/App.jsx:40) or on a position that is not an array (src/App.jsx:43-44), and yields NaN for a one-component position; none of this is modelled, because the converter never produces such shapes.
- Aggregation.ProcessFeatures: the `||` in `(lengths[type] || 0)` resetting a NaN running total to 0 (NaN is falsy) is not modelled, because reals have no NaN. A label colliding with a name inherited by plain JavaScript objects (such as `constructor`) is not modelled either, because the converter never produces one.
- Feature properties: the aggregation never reads them.
