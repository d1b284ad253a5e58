/**
 * The Dorling cartogram: the records with a known duration and a region,
 * grouped by NERC region, one cluster per region anchored at the centre of
 * that region's boundary feature, one circle per record inside it, with a
 * per-record tooltip and the cause-selection handlers.
 */
module Cartogram {
  import opened Wrappers
  import opened Grouping
  import opened Records
  import opened Selection

  /** `d.Duration !== 'Unknown' && d['NERC Region'] !== ''`: the record can be drawn. */
  predicate OnMap(r: Record) {
    r.duration != UnknownDuration && r.region != ""
  }

  /**
   * The filter of the constructor and of `updateVis`: the drawable records,
   * in their order; filtering again changes nothing.
   */
  function MapRecords(data: seq<Record>): (rows: seq<Record>)
    ensures forall r :: r in rows <==> r in data && r.duration != UnknownDuration && r.region != ""
    ensures Filter(rows, OnMap) == rows
  {
    FilterIdempotent(data, OnMap);
    Filter(data, OnMap)
  }

  /**
   * `d3.group(rows, d => d['NERC Region'])` after the filter: one group per
   * region that occurs, in order of first occurrence.
   */
  function RegionGroups(rows: seq<Record>): (gs: seq<Group<string, Record>>)
    ensures DistinctKeys(gs)
    ensures TotalSize(gs) == |MapRecords(rows)|
    ensures forall i :: 0 <= i < |gs| ==> gs[i].members == Filter(MapRecords(rows), InRegion(gs[i].key))
    ensures forall i :: 0 <= i < |gs| ==> gs[i].key != "" && gs[i].members != []
  {
    var kept := MapRecords(rows);
    var gs := GroupBy(kept, Region);
    forall i | 0 <= i < |gs| ensures gs[i].members == Filter(kept, InRegion(gs[i].key)) {
      WithKeyIsFilter(kept, gs[i].key);
    }
    forall i | 0 <= i < |gs| ensures gs[i].key != "" {
      assert gs[i].members[0] in kept;
    }
    gs
  }

  /**
   * Grouping the already filtered records gives the same groups: the filter
   * of the constructor followed by the filter of `updateVis` is one filter.
   */
  lemma RegionGroupsOfFiltered(rows: seq<Record>)
    ensures RegionGroups(MapRecords(rows)) == RegionGroups(rows)
  {
    assert MapRecords(MapRecords(rows)) == MapRecords(rows);
  }

  /** The test a record passes to join the group of region `k`. */
  function InRegion(k: string): Record -> bool {
    r => Region(r) == k
  }

  /** Picking one region's records is a filter, so it keeps their order. */
  lemma {:induction false} WithKeyIsFilter(xs: seq<Record>, k: string)
    ensures WithKey(xs, Region, k) == Filter(xs, InRegion(k))
  {
    if xs != [] {
      WithKeyIsFilter(xs[..|xs| - 1], k);
    }
  }

  /**
   * Grouping by region partitions the drawable records: every one of them
   * is in exactly one group, the group of its own region.
   */
  lemma RegionGroupsPartition(rows: seq<Record>, r: Record)
    requires r in rows && OnMap(r)
    ensures exists i :: 0 <= i < |RegionGroups(rows)| && RegionGroups(rows)[i].key == r.region
                        && r in RegionGroups(rows)[i].members
    ensures forall i :: 0 <= i < |RegionGroups(rows)| && r in RegionGroups(rows)[i].members ==>
              RegionGroups(rows)[i].key == r.region
  {
    var kept := MapRecords(rows);
    var gs := RegionGroups(rows);
    assert gs == GroupBy(kept, Region);
    assert r in kept;
    ElementHasGroup(kept, Region, r);
    forall i | 0 <= i < |gs| && r in gs[i].members ensures gs[i].key == r.region {
      assert gs[i].members == WithKey(kept, Region, gs[i].key);
    }
  }

  /** A screen position. */
  datatype Point = Point(x: real, y: real)

  /**
   * A region boundary feature: its `NERCregion` property and its centroid,
   * taken here as already projected to the screen.
   */
  datatype Feature = Feature(nercRegion: string, center: Point)

  /**
   * One entry of `regionsPacked`: the region's records in packing order and
   * the point its cluster is pulled towards.
   */
  datatype RegionPack = RegionPack(nodes: seq<Record>, anchor: Point)

  /** `features.find(d => d.properties.NERCregion === k)`. */
  function FindFeature(features: seq<Feature>, k: string): (f: Option<Feature>)
    ensures f.None? <==> forall i :: 0 <= i < |features| ==> features[i].nercRegion != k
    ensures f.Some? ==> exists i :: 0 <= i < |features| && features[i] == f.value && f.value.nercRegion == k
                          && forall j :: 0 <= j < i ==> features[j].nercRegion != k
  {
    if features == [] then None
    else if features[0].nercRegion == k then Some(features[0])
    else
      var rest := FindFeature(features[1..], k);
      assert forall j :: 1 <= j < |features| ==> features[j] == features[1..][j - 1];
      rest
  }

  /** Some region of `gs` before index `n` has no boundary feature. */
  predicate MissingBefore(gs: seq<Group<string, Record>>, features: seq<Feature>, n: nat)
    requires n <= |gs|
  {
    exists i :: 0 <= i < n && FindFeature(features, gs[i].key).None?
  }

  /** The pack built for a region that has a feature. */
  function PackFor(g: Group<string, Record>, f: Feature): RegionPack {
    RegionPack(g.members, f.center)
  }

  /**
   * `_createRegionPacks`: one entry per region, holding its records and the
   * centre of the first feature of that region. The lookup throws on a region
   * with no feature, which here is an error naming the first such region.
   */
  method CreateRegionPacks(gs: seq<Group<string, Record>>, features: seq<Feature>)
    returns (packed: Result<map<string, RegionPack>, string>)
    requires DistinctKeys(gs)
    ensures packed.Err? <==> MissingBefore(gs, features, |gs|)
    ensures packed.Err? ==> exists i :: 0 <= i < |gs| && packed.error == gs[i].key
                             && FindFeature(features, gs[i].key).None? && !MissingBefore(gs, features, i)
    ensures packed.Ok? ==> packed.value.Keys == KeySet(gs)
    ensures packed.Ok? ==> forall i :: 0 <= i < |gs| ==> PackedFor(packed.value, gs[i], features)
  {
    var regionsPacked: map<string, RegionPack> := map[];
    var n := 0;
    while n < |gs|
      invariant 0 <= n <= |gs|
      invariant !MissingBefore(gs, features, n)
      invariant regionsPacked.Keys == KeySet(gs[..n])
      invariant forall i :: 0 <= i < n ==> PackedFor(regionsPacked, gs[i], features)
    {
      var g := gs[n];
      var found := FindFeature(features, g.key);
      if found.None? {
        assert MissingBefore(gs, features, |gs|);
        return Err(g.key);
      }
      ghost var before := regionsPacked;
      regionsPacked := regionsPacked[g.key := PackFor(g, found.value)];
      forall i | 0 <= i < n ensures PackedFor(regionsPacked, gs[i], features) {
        assert gs[i].key != g.key;
        assert PackedFor(before, gs[i], features);
      }
      KeySetSnoc(gs, n);
      n := n + 1;
    }
    assert gs[..n] == gs;
    return Ok(regionsPacked);
  }

  /** The entry for the region of group `i` is that group's pack. */
  predicate PackedFor(packed: map<string, RegionPack>, g: Group<string, Record>, features: seq<Feature>) {
    g.key in packed && IsPackOf(packed[g.key], g, features)
  }

  /** `p` holds the records of `g` and the centre of the first feature of its region. */
  predicate IsPackOf(p: RegionPack, g: Group<string, Record>, features: seq<Feature>) {
    FindFeature(features, g.key).Some? && p == PackFor(g, FindFeature(features, g.key).value)
  }

  /** `[...regionsPacked.values()]`: the packs in the order their regions were inserted. */
  function PacksInOrder(packs: map<string, RegionPack>, gs: seq<Group<string, Record>>, features: seq<Feature>)
    : (inOrder: seq<RegionPack>)
    requires forall i :: 0 <= i < |gs| ==> PackedFor(packs, gs[i], features)
    ensures |inOrder| == |gs|
    ensures forall i :: 0 <= i < |gs| ==> IsPackOf(inOrder[i], gs[i], features)
  {
    if gs == [] then []
    else
      assert PackedFor(packs, gs[|gs| - 1], features);
      var init := gs[..|gs| - 1];
      assert forall i :: 0 <= i < |init| ==> init[i] == gs[i];
      PacksInOrder(packs, init, features) + [packs[gs[|gs| - 1].key]]
  }

  lemma KeySetSnoc(gs: seq<Group<string, Record>>, n: nat)
    requires n < |gs|
    ensures KeySet(gs[..n + 1]) == KeySet(gs[..n]) + {gs[n].key}
  {
    var a, b := gs[..n], gs[..n + 1];
    assert b == a + [gs[n]];
    forall k | k in KeySet(b) ensures k in KeySet(a) + {gs[n].key} {
      var i :| 0 <= i < |b| && b[i].key == k;
      if i < n { assert b[i] == a[i]; }
    }
    forall k | k in KeySet(a) ensures k in KeySet(b) {
      var i :| 0 <= i < |a| && a[i].key == k;
      assert b[i] == a[i];
    }
    assert gs[n].key == b[n].key;
  }

  /**
   * The grouping and packing steps of the cartogram's `updateVis` over the
   * records `rows`: the packs in the grouping's order, or the first region
   * that has no boundary feature.
   */
  method PackRegions(rows: seq<Record>, features: seq<Feature>)
    returns (gs: seq<Group<string, Record>>, outcome: UpdateOutcome, packs: seq<RegionPack>)
    ensures gs == RegionGroups(rows)
    ensures outcome != NotAnArray
    ensures outcome == Updated <==> !MissingBefore(gs, features, |gs|)
    ensures outcome == Updated ==> |packs| == |gs| && forall i :: 0 <= i < |gs| ==> IsPackOf(packs[i], gs[i], features)
  {
    gs := RegionGroups(rows);
    var packed := CreateRegionPacks(gs, features);
    if packed.Err? {
      return gs, NoFeature(packed.error), [];
    }
    packs := PacksInOrder(packed.value, gs, features);
    outcome := Updated;
  }

  /** A blank demand loss or customer count reads `Unknown`; anything else is shown as is. */
  function ShowOrUnknown(s: string): (shown: string)
    ensures shown != ""
    ensures s != "" ==> shown == s
  {
    if s == "" then "Unknown" else s
  }

  /** The five lines of an event circle's tooltip, in their fixed order. */
  function TooltipItems(r: Record): (items: seq<string>)
    ensures |items| == 5
  {
    [ "Begin: " + r.dateBegin + " " + r.timeBegin,
      "End: " + r.dateRestoration + " " + r.timeRestoration,
      "Event Type: " + r.eventType,
      "Demand Loss (MW): " + ShowOrUnknown(r.demandLoss),
      "Number of Customers Affected: " + ShowOrUnknown(r.customers) ]
  }

  /** `_getTooltipList`: the items as list elements, joined with nothing between. */
  function TooltipList(items: seq<string>): string {
    if items == [] then ""
    else TooltipList(items[..|items| - 1]) + "<li class=\"tooltip-listItem\">" + items[|items| - 1] + "</li>"
  }

  /**
   * The first three tooltip lines: the begin date and time, the restoration
   * date and time, each pair separated by a space, and the event type, each
   * after its label.
   */
  lemma TooltipHeaderLines(r: Record)
    ensures TooltipItems(r)[0][..7] == "Begin: " && TooltipItems(r)[0][7..] == r.dateBegin + " " + r.timeBegin
    ensures TooltipItems(r)[1][..5] == "End: " && TooltipItems(r)[1][5..] == r.dateRestoration + " " + r.timeRestoration
    ensures TooltipItems(r)[2][..12] == "Event Type: " && TooltipItems(r)[2][12..] == r.eventType
  {
  }

  /**
   * Each tooltip line starts with its label and never ends blank: a blank
   * count reads `Unknown`, a present one is shown verbatim after the label.
   */
  lemma TooltipLines(r: Record)
    ensures TooltipItems(r)[3][..18] == "Demand Loss (MW): "
    ensures TooltipItems(r)[4][..30] == "Number of Customers Affected: "
    ensures |TooltipItems(r)[3]| > 18 && |TooltipItems(r)[4]| > 30
    ensures r.demandLoss == "" ==> TooltipItems(r)[3][18..] == "Unknown"
    ensures r.demandLoss != "" ==> TooltipItems(r)[3][18..] == r.demandLoss
    ensures r.customers != "" ==> TooltipItems(r)[4][30..] == r.customers
    ensures r.customers == "" ==> TooltipItems(r)[4][30..] == "Unknown"
  {
  }

  /** What `data` holds: the record array, or after `updateVis` the region map. */
  datatype CartogramData = Rows(rows: seq<Record>) | ByRegion(groups: seq<Group<string, Record>>)

  /** How a call to `updateVis` ends. */
  datatype UpdateOutcome =
    | Updated              // grouped, packed and rendered
    | NotAnArray           // `data` is a Map, which has no `filter`: TypeError
    | NoFeature(region: string) // a region without a boundary feature: TypeError

  /** The cartogram view and the state its event handlers depend on. */
  class DorlingCartogram {
    var data: CartogramData
    var geoData: seq<Feature>
    var values: seq<RegionPack>
    var onClick: CircleHandler
    var hoverFilter: Option<CauseSet>
    var highlight: Highlight

    /** The selection state the circles' click handler encodes. */
    function State(): SelectionState
      reads this, if onClick.CircleRemove? then {onClick.causes} else {}
    {
      match onClick
      case CircleUnbound => Rendered
      case CircleSelectOnly => NoSelection
      case CircleRemove(causes) => Selecting(causes.items)
    }

    constructor (records: seq<Record>, features: seq<Feature>)
      ensures data == Rows(MapRecords(records)) && geoData == features && values == []
      ensures onClick == CircleUnbound && hoverFilter == None && highlight == Cleared
    {
      data := Rows(MapRecords(records));
      geoData := features;
      values := [];
      onClick := CircleUnbound;
      hoverFilter := None;
      highlight := Cleared;
    }

    /**
     * `updateVis`: filter the records, replace `data` by their grouping by
     * region, build one pack per region in the grouping's order and render,
     * which binds the hover handlers that respond on every circle. The force
     * layout that then moves the packs is not part of this model.
     */
    method UpdateVis() returns (outcome: UpdateOutcome)
      modifies this`data, this`values, this`hoverFilter
      ensures old(data).ByRegion? ==> outcome == NotAnArray && data == old(data)
                                      && values == old(values) && hoverFilter == old(hoverFilter)
      ensures old(data).Rows? ==> data == ByRegion(RegionGroups(old(data).rows))
      ensures old(data).Rows? ==> outcome != NotAnArray
      ensures old(data).Rows? ==> (outcome == Updated <==> !MissingBefore(data.groups, geoData, |data.groups|))
      ensures outcome.NoFeature? ==> values == old(values) && hoverFilter == old(hoverFilter)
                                     && MissingBefore(data.groups, geoData, |data.groups|)
      ensures outcome == Updated ==> old(data).Rows? && hoverFilter == None
      ensures outcome == Updated ==> |values| == |data.groups|
      ensures outcome == Updated ==> forall i :: 0 <= i < |values| ==> IsPackOf(values[i], data.groups[i], geoData)
    {
      if data.ByRegion? {
        return NotAnArray;
      }
      var gs, result, packs := PackRegions(data.rows, geoData);
      if result == Updated {
        data, values, hoverFilter := ByRegion(gs), packs, None;
      } else {
        data := ByRegion(gs);
      }
      outcome := result;
    }

    /** `onCauseSelected`: mark the circles and rebind their handlers. */
    method OnCauseSelected(causes: CauseSet)
      modifies this
      ensures data == old(data) && geoData == old(geoData) && values == old(values)
      ensures highlight == HighlightFor(causes.items)
      ensures State() == Deliver(causes.items)
      ensures causes.items == {} ==> onClick == CircleSelectOnly && hoverFilter == None
      ensures causes.items != {} ==> onClick == CircleRemove(causes) && hoverFilter == Some(causes)
    {
      if causes.items == {} {
        highlight := Cleared;
        onClick := CircleSelectOnly;
        hoverFilter := None;
      } else {
        highlight := Marked(causes.items);
        onClick := CircleRemove(causes);
        hoverFilter := Some(causes);
      }
    }

    /**
     * A click on a circle of event type `c`: the set it hands to the
     * dispatcher, if any. The removing handler only ever deletes from the set
     * it was bound with, and sends that same object.
     */
    method ClickCircle(c: string) returns (sent: Option<CauseSet>)
      modifies if onClick.CircleRemove? then {onClick.causes} else {}
      ensures onClick.CircleUnbound? ==> sent.None?
      ensures onClick.CircleSelectOnly? ==> sent.Some? && fresh(sent.value) && sent.value.items == {c}
      ensures onClick.CircleRemove? ==>
                (sent.None? <==> c !in old(onClick.causes.items)) &&
                (sent.Some? ==> sent.value == onClick.causes) &&
                onClick.causes.items == old(onClick.causes.items) - {c}
      ensures sent.None? <==> CircleClick(old(State()), c).None?
      ensures sent.Some? ==> Some(sent.value.items) == CircleClick(old(State()), c)
    {
      match onClick
      case CircleUnbound =>
        sent := None;
      case CircleSelectOnly =>
        var picked := new CauseSet({c});
        sent := Some(picked);
      case CircleRemove(causes) =>
        if c !in causes.items {
          sent := None;
        } else {
          causes.items := causes.items - {c};
          sent := Some(causes);
        }
    }

    /**
     * Whether mouseover, mousemove and mouseleave on a circle of event type
     * `c` do anything: always, unless a non-empty selection is bound, in which
     * case only for types still in that set.
     */
    method Hover(c: string) returns (responds: bool)
      ensures responds <==> hoverFilter.None? || c in hoverFilter.value.items
    {
      match hoverFilter
      case None => responds := true;
      case Some(causes) => responds := c in causes.items;
    }
  }
}
