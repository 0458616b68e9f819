/**
  The viewer's state: the converted collection, the two tables computed from it and the
  two visibility flags, each a `useState` field, with the transitions that set them
  and the guards that decide what is rendered.
*/
module Viewer {
  import opened Wrappers
  import opened GeoJson
  import opened Aggregation

  class KmlViewer {
    /** `Math.sqrt`, as the platform provides it. */
    const sqrt: real -> real
    var geojson: Option<FeatureCollection>
    var summary: Option<map<string, nat>>
    var details: Option<map<string, real>>
    var showSummary: bool
    var showDetails: bool

    /**
      What the transitions maintain: the two tables are stored together, only after a
      collection has been stored, and a flag can only have been set through a button
      that exists once a collection is stored; nothing ever resets `geojson`.
    */
    ghost predicate Valid()
      reads this
    {
      && (summary.Some? <==> details.Some?)
      && (summary.Some? ==> geojson.Some?)
      && (showSummary || showDetails ==> geojson.Some?)
    }

    /** Nothing loaded, both tables hidden. */
    constructor (sqrt: real -> real)
      ensures Valid()
      ensures this.sqrt == sqrt
      ensures geojson == None && summary == None && details == None
      ensures !showSummary && !showDetails
    {
      this.sqrt := sqrt;
      geojson, summary, details := None, None, None;
      showSummary, showDetails := false, false;
    }

    /** The map, and the row of toggle buttons under the same guard, are rendered. */
    predicate MapShown()
      reads this
    {
      geojson.Some?
    }

    /** The count table is rendered. */
    predicate SummaryShown()
      reads this
    {
      showSummary && summary.Some?
    }

    /** The length table is rendered. */
    predicate DetailsShown()
      reads this
    {
      showDetails && details.Some?
    }

    /**
      A file has been read and converted: the collection is stored first, then the
      tables are computed from it alone and stored. If the aggregation throws (a
      feature without geometry), the collection is already replaced but the tables
      keep their previous values.
    */
    method Load(converted: FeatureCollection)
      requires Valid()
      modifies this
      ensures Valid()
      ensures geojson == Some(converted) && MapShown()
      ensures showSummary == old(showSummary) && showDetails == old(showDetails)
      ensures AllGeometric(converted.features) ==>
        summary == Some(Summary(converted.features)) && details == Some(Details(sqrt, converted.features))
      ensures AllGeometric(converted.features) ==>
        (SummaryShown() <==> showSummary) && (DetailsShown() <==> showDetails)
      ensures !AllGeometric(converted.features) ==> summary == old(summary) && details == old(details)
    {
      geojson := Some(converted);
      var processed := ProcessFeatures(sqrt, converted);
      if processed.Success? {
        summary := Some(processed.value.counts);
        details := Some(processed.value.lengths);
      }
    }

    /** What the page renders besides the title and the drop zone: the map, the count table, the length table. */
    method Render() returns (showsMap: bool, showsSummaryTable: bool, showsDetailsTable: bool)
      requires Valid()
      ensures showsSummaryTable || showsDetailsTable ==> showsMap
      ensures showsSummaryTable || showsDetailsTable ==> summary.Some? && details.Some?
      ensures showsMap == MapShown() && (showsMap <==> geojson.Some?)
      ensures showsSummaryTable == SummaryShown() && (showsSummaryTable <==> showSummary && summary.Some?)
      ensures showsDetailsTable == DetailsShown() && (showsDetailsTable <==> showDetails && details.Some?)
    {
      showsMap := geojson.Some?;
      showsSummaryTable := showSummary && summary.Some?;
      showsDetailsTable := showDetails && details.Some?;
    }

    /** The "Show Summary" / "Hide Summary" button, rendered only once a collection is loaded. */
    method ToggleSummary()
      requires Valid() && MapShown()
      modifies this`showSummary
      ensures Valid()
      ensures showSummary == !old(showSummary)
      ensures SummaryShown() <==> showSummary && summary.Some?
      ensures DetailsShown() == old(DetailsShown()) && MapShown() == old(MapShown())
    {
      showSummary := !showSummary;
    }

    /** The "Show Details" / "Hide Details" button, rendered only once a collection is loaded. */
    method ToggleDetails()
      requires Valid() && MapShown()
      modifies this`showDetails
      ensures Valid()
      ensures showDetails == !old(showDetails)
      ensures DetailsShown() <==> showDetails && details.Some?
      ensures SummaryShown() == old(SummaryShown()) && MapShown() == old(MapShown())
    {
      showDetails := !showDetails;
    }
  }

  /**
    Load a file, show both tables, load a second file: both tables stay shown and hold
    the second file's tables only.
  */
  method ReloadKeepsFlags(sqrt: real -> real, first: FeatureCollection, second: FeatureCollection)
    returns (viewer: KmlViewer)
    requires AllGeometric(second.features)
    ensures viewer.geojson == Some(second)
    ensures viewer.summary == Some(Summary(second.features))
    ensures viewer.details == Some(Details(sqrt, second.features))
    ensures viewer.MapShown() && viewer.SummaryShown() && viewer.DetailsShown()
  {
    viewer := new KmlViewer(sqrt);
    viewer.Load(first);
    viewer.ToggleSummary();
    viewer.ToggleDetails();
    viewer.Load(second);
  }

  /**
    Load a good file, then one with a feature without geometry: `geojson` then holds
    the second collection (the map stays rendered) while the tables still hold the
    first file's.
  */
  method FailedAggregationKeepsTables(sqrt: real -> real, first: FeatureCollection, second: FeatureCollection)
    returns (viewer: KmlViewer)
    requires AllGeometric(first.features) && !AllGeometric(second.features)
    ensures viewer.geojson == Some(second)
    ensures viewer.summary == Some(Summary(first.features))
    ensures viewer.details == Some(Details(sqrt, first.features))
  {
    viewer := new KmlViewer(sqrt);
    viewer.Load(first);
    viewer.Load(second);
  }
}
