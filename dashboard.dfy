/**
 * The entry script: it normalises the loaded records in place, builds the
 * cartogram, the bar chart and the line chart over them, and routes every
 * cause selection through the dispatcher to the bar chart and then to the
 * cartogram.
 */
module Dashboard {
  import opened Wrappers
  import opened Strings
  import opened Grouping
  import opened Records
  import opened Normalize
  import opened Selection
  import opened BarChart
  import opened Cartogram
  import opened LineChartView

  /** The record-derived state of the bar chart and the cartogram, which selecting causes leaves alone. */
  datatype ViewContent = ViewContent(
    barData: seq<Record>, barGroups: seq<Group<string, Record>>, barKeys: seq<string>, barMax: Option<nat>,
    cartogramData: CartogramData, packs: seq<RegionPack>, features: seq<Feature>)

  /** The three views the script keeps in its globals. */
  class Views {
    const barChart: Barchart
    const dorlingCartogram: DorlingCartogram
    const lineChart: LineChart

    /** The line chart's brush feeds these very bar chart and cartogram objects. */
    predicate Wired()
      reads this, lineChart
    {
      lineChart.barChart == barChart && lineChart.dorlingGram == dorlingCartogram
    }

    /**
     * What the two linked views hold apart from the selection: the bar
     * chart's records, groups and domains, and the cartogram's records,
     * packs and boundary features.
     */
    function Content(): ViewContent
      reads this, barChart, dorlingCartogram
    {
      ViewContent(barChart.data, barChart.groupedData, barChart.xDomain, barChart.yDomainMax,
                  dorlingCartogram.data, dorlingCartogram.values, dorlingCartogram.geoData)
    }

    constructor (bars: Barchart, cartogram: DorlingCartogram, line: LineChart)
      requires line.barChart == bars && line.dorlingGram == cartogram
      ensures barChart == bars && dorlingCartogram == cartogram && lineChart == line
      ensures Wired()
    {
      barChart := bars;
      dorlingCartogram := cartogram;
      lineChart := line;
    }

    /**
     * The `onCauseSelected` listener: the same set object goes to the bar
     * chart and then to the cartogram, so both views enter the state the set
     * delivers, and after a non-empty selection both views' click handlers
     * and the cartogram's hover filter hold that one set. The views' data,
     * domains and packs are left alone.
     */
    method OnCauseSelected(causes: CauseSet)
      modifies barChart, dorlingCartogram
      ensures causes.items == old(causes.items)
      ensures barChart.Valid()
      ensures barChart.State() == Deliver(causes.items) && dorlingCartogram.State() == Deliver(causes.items)
      ensures barChart.data == old(barChart.data) && barChart.groupedData == old(barChart.groupedData)
      ensures barChart.xDomain == old(barChart.xDomain) && barChart.yDomainMax == old(barChart.yDomainMax)
      ensures dorlingCartogram.data == old(dorlingCartogram.data) && dorlingCartogram.values == old(dorlingCartogram.values)
      ensures dorlingCartogram.geoData == old(dorlingCartogram.geoData)
      ensures Content() == old(Content())
      ensures barChart.highlight == HighlightFor(causes.items)
      ensures dorlingCartogram.highlight == HighlightFor(causes.items)
      ensures causes.items == {} ==>
                barChart.onClick == BarSelectOnly && dorlingCartogram.onClick == CircleSelectOnly &&
                dorlingCartogram.hoverFilter == None
      ensures causes.items != {} ==>
                barChart.onClick == BarToggle(causes) && dorlingCartogram.onClick == CircleRemove(causes) &&
                dorlingCartogram.hoverFilter == Some(causes)
    {
      barChart.OnCauseSelected(causes);
      dorlingCartogram.OnCauseSelected(causes);
    }

    /**
     * A click on the bar of cause `c`, followed by the dispatch of the set it
     * sends: both views take the state the selection machine gives for a bar
     * click. In a selection, the shared set itself gains or loses `c`.
     */
    method ClickBar(c: string)
      requires barChart.Valid()
      modifies barChart, dorlingCartogram, if barChart.onClick.BarToggle? then {barChart.onClick.causes} else {}
      ensures barChart.Valid()
      ensures Content() == old(Content())
      ensures barChart.State() == AfterBarClick(old(barChart.State()), c)
      ensures dorlingCartogram.State() == barChart.State()
      ensures dorlingCartogram.hoverFilter == if barChart.onClick.BarToggle? then Some(barChart.onClick.causes) else None
      ensures barChart.highlight == HighlightFor(BarClick(old(barChart.State()), c))
      ensures dorlingCartogram.highlight == barChart.highlight
      ensures old(barChart.onClick).BarToggle? ==>
                var shared := old(barChart.onClick).causes;
                shared.items == Toggle(old(shared.items), c) &&
                (shared.items != {} ==> barChart.onClick == BarToggle(shared) && dorlingCartogram.onClick == CircleRemove(shared))
    {
      var sent := barChart.ClickBar(c);
      OnCauseSelected(sent);
    }

    /**
     * A click in the bar chart's drawing or its holder, followed by the
     * dispatch of the empty set when one is sent: both views are cleared into
     * the no-selection state. A click on a bar, or on the HTML holder itself
     * (`None`, where the handler throws), leaves both views as they were.
     */
    method ClickBarChartBackground(target: Option<string>)
      modifies barChart, dorlingCartogram
      ensures Content() == old(Content())
      ensures target.Some? && !Includes(target.value, "bar") ==>
                barChart.highlight == Cleared && dorlingCartogram.highlight == Cleared &&
                barChart.State() == NoSelection && dorlingCartogram.State() == NoSelection &&
                dorlingCartogram.hoverFilter == None
      ensures target.None? || Includes(target.value, "bar") ==>
                barChart.highlight == old(barChart.highlight) && barChart.onClick == old(barChart.onClick) &&
                dorlingCartogram.highlight == old(dorlingCartogram.highlight) &&
                dorlingCartogram.onClick == old(dorlingCartogram.onClick) &&
                dorlingCartogram.hoverFilter == old(dorlingCartogram.hoverFilter)
    {
      var sent := barChart.ClickBackground(target);
      if sent.Some? {
        OnCauseSelected(sent.value);
      }
    }

    /**
     * A click on a circle of event type `c`, followed by the dispatch of the
     * set it sends, if it sends one: the cartogram takes the state the
     * selection machine gives for a circle click, and the bar chart follows
     * whenever a set is dispatched. In a selection, a type outside the set is
     * inert and a type inside it leaves the shared set.
     */
    method ClickCircle(c: string)
      requires barChart.Valid()
      modifies barChart, dorlingCartogram,
        if dorlingCartogram.onClick.CircleRemove? then {dorlingCartogram.onClick.causes} else {}
      ensures barChart.Valid()
      ensures Content() == old(Content())
      ensures dorlingCartogram.State() == AfterCircleClick(old(dorlingCartogram.State()), c)
      ensures CircleClick(old(dorlingCartogram.State()), c).Some? ==>
                barChart.State() == dorlingCartogram.State() &&
                dorlingCartogram.hoverFilter ==
                  (if dorlingCartogram.onClick.CircleRemove? then Some(dorlingCartogram.onClick.causes) else None) &&
                barChart.highlight == HighlightFor(CircleClick(old(dorlingCartogram.State()), c).value) &&
                dorlingCartogram.highlight == barChart.highlight
      ensures CircleClick(old(dorlingCartogram.State()), c).None? ==>
                barChart.State() == old(barChart.State()) &&
                barChart.highlight == old(barChart.highlight) &&
                dorlingCartogram.highlight == old(dorlingCartogram.highlight) &&
                dorlingCartogram.hoverFilter == old(dorlingCartogram.hoverFilter)
      ensures old(dorlingCartogram.onClick).CircleRemove? ==>
                var shared := old(dorlingCartogram.onClick).causes;
                shared.items == old(shared.items) - {c}
    {
      var sent := dorlingCartogram.ClickCircle(c);
      if sent.Some? {
        OnCauseSelected(sent.value);
      }
    }

    /**
     * Brushing a window and then clearing the brush gives the bar chart and
     * the cartogram back exactly the records they were built from.
     */
    method BrushThenClear(window: (int, int), parse: string -> Option<int>)
      requires Wired()
      modifies lineChart`brushData, barChart, dorlingCartogram
      ensures Wired() && lineChart.data == old(lineChart.data)
      ensures lineChart.brushData == FilterDate(window.0, window.1, lineChart.data, parse)
      ensures barChart.data == lineChart.data
      ensures barChart.groupedData == BarGroups(lineChart.data)
      ensures dorlingCartogram.data == ByRegion(RegionGroups(lineChart.data))
      ensures dorlingCartogram.geoData == old(dorlingCartogram.geoData)
      ensures barChart.Valid() && barChart.State() == Rendered
      ensures dorlingCartogram.onClick == old(dorlingCartogram.onClick)
    {
      var _ := lineChart.Brushed(Some(window), parse);
      var _ := lineChart.Brushed(None, parse);
    }
  }

  /**
   * The load callback once both files have arrived: the two normalisation
   * passes over the record array, then the views built over it. A region
   * without a boundary feature throws in the cartogram's update, which ends
   * the callback before the bar chart and the line chart exist.
   */
  method Load(data: array<Record>, features: seq<Feature>, elapsed: (string, string) -> int)
    returns (cartogram: DorlingCartogram, views: Option<Views>, cartogramOutcome: UpdateOutcome)
    modifies data
    ensures data[..] == NormalizeAll(old(data[..]), elapsed)
    ensures fresh(cartogram)
    ensures cartogram.data == ByRegion(RegionGroups(data[..])) && cartogram.geoData == features
    ensures cartogramOutcome != NotAnArray
    ensures cartogramOutcome == Updated <==> !MissingBefore(cartogram.data.groups, features, |cartogram.data.groups|)
    ensures views.None? <==> cartogramOutcome.NoFeature?
    ensures views.Some? ==>
              fresh(views.value) && fresh(views.value.barChart) && fresh(views.value.lineChart) &&
              views.value.dorlingCartogram == cartogram && views.value.Wired() &&
              views.value.barChart.data == data[..] && views.value.barChart.groupedData == BarGroups(data[..]) &&
              views.value.lineChart.data == data[..] && views.value.lineChart.timeArray == TimeArray(data[..])
  {
    NormalizeData(data, elapsed);
    cartogram, views, cartogramOutcome := BuildViews(data[..], features);
  }

  /**
   * The cartogram, then, if its update succeeds, the bar chart and the line
   * chart, each built over the same records and updated in turn. Every view
   * starts in the rendered selection state.
   */
  method BuildViews(records: seq<Record>, features: seq<Feature>)
    returns (cartogram: DorlingCartogram, views: Option<Views>, cartogramOutcome: UpdateOutcome)
    ensures fresh(cartogram)
    ensures cartogram.data == ByRegion(RegionGroups(records)) && cartogram.geoData == features
    ensures cartogram.State() == Rendered
    ensures cartogramOutcome != NotAnArray
    ensures cartogramOutcome == Updated <==> !MissingBefore(cartogram.data.groups, features, |cartogram.data.groups|)
    ensures views.None? <==> cartogramOutcome.NoFeature?
    ensures views.Some? ==>
              fresh(views.value) && fresh(views.value.barChart) && fresh(views.value.lineChart) &&
              views.value.dorlingCartogram == cartogram && views.value.Wired() &&
              views.value.barChart.data == records && views.value.barChart.groupedData == BarGroups(records) &&
              views.value.barChart.Valid() && views.value.barChart.State() == Rendered &&
              views.value.lineChart.data == records && views.value.lineChart.timeArray == TimeArray(records)
  {
    cartogram, cartogramOutcome := BuildCartogram(records, features);
    if cartogramOutcome.NoFeature? {
      return cartogram, None, cartogramOutcome;
    }
    var bars := BuildBarChart(records);
    var line := new LineChart(records, bars, cartogram);
    line.UpdateVis();
    var built := new Views(bars, cartogram, line);
    views := Some(built);
  }

  /** The cartogram over `records`, updated once; it groups the drawable ones by region. */
  method BuildCartogram(records: seq<Record>, features: seq<Feature>)
    returns (cartogram: DorlingCartogram, outcome: UpdateOutcome)
    ensures fresh(cartogram)
    ensures cartogram.data == ByRegion(RegionGroups(records)) && cartogram.geoData == features
    ensures outcome != NotAnArray
    ensures outcome == Updated <==> !MissingBefore(cartogram.data.groups, features, |cartogram.data.groups|)
    ensures cartogram.onClick == CircleUnbound
  {
    cartogram := new DorlingCartogram(records, features);
    outcome := cartogram.UpdateVis();
    RegionGroupsOfFiltered(records);
  }

  /** The bar chart over `records`, updated once. */
  method BuildBarChart(records: seq<Record>) returns (bars: Barchart)
    ensures fresh(bars)
    ensures bars.data == records && bars.groupedData == BarGroups(records)
    ensures bars.onClick == BarInitial && bars.Valid()
  {
    bars := new Barchart(records);
    bars.UpdateVis();
  }
}
