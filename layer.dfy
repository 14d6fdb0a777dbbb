/** The two map layers: `BikeNetwork`, rebuilt wholesale whenever the simulation time
    moves, and `Static`, built once by one of its classification constructors. Both
    own a panel and two cached batches and pick a batch by one zoom comparison. */
module Layers {
  import opened Options
  import opened Counter
  import opened MapModel
  import opened BikeNetworkCounts
  import opened StaticLayers

  datatype Resolution = Unzoomed | Zoomed

  datatype Gradient = GoodToBadGreen | GoodToBadRed

  /** What a cached batch was built from; its geometry is opaque. */
  datatype BatchSource =
    | RankedNetwork(roads: seq<(Counter<RoadID>, Gradient)>,
                    intersections: seq<(Counter<IntersectionID>, Gradient)>)
    | DiscreteColors(colorer: ColorDiscrete)

  datatype Batch = Batch(resolution: Resolution, source: BatchSource)

  /** Panel text beyond the title. */
  datatype Extra =
    | Nothing
    | EditCounts(laneTypesChanged: nat, lanesReversed: nat, speedLimitsChanged: nat,
                 intersectionsChanged: nat)

  /** The layer's panel, by what it shows. */
  datatype Panel =
    | BikeNetworkPanel(numLanes: nat)
    | StaticPanel(title: string, extra: Extra, legend: seq<(string, Color)>)

  /** What the panel reports back to the host (closing the layer). */
  datatype LayerOutcome = Close

  datatype DrawCall = DrawPanel(panel: Panel) | Redraw(batch: Batch)

  /** The counters handed to the network colourer: on-lane counts on the green
      gradient, off-lane counts on the red one. */
  function RankedSource(c: BikeCounters): (r: BatchSource)
    ensures r.RankedNetwork?
    ensures |r.roads| == 2 && r.roads[0].1 == GoodToBadGreen && r.roads[1].1 == GoodToBadRed
    ensures |r.intersections| == 2 &&
            r.intersections[0].1 == GoodToBadGreen && r.intersections[1].1 == GoodToBadRed
    ensures forall j :: 0 <= j < |r.roads| ==>
              r.roads[j].0 == if r.roads[j].1 == GoodToBadGreen then c.onBikeLanes else c.offBikeLanes
    ensures forall j :: 0 <= j < |r.intersections| ==>
              r.intersections[j].0 ==
              if r.intersections[j].1 == GoodToBadGreen then c.intersectionsOn else c.intersectionsOff
  {
    RankedNetwork([(c.onBikeLanes, GoodToBadGreen), (c.offBikeLanes, GoodToBadRed)],
                  [(c.intersectionsOn, GoodToBadGreen), (c.intersectionsOff, GoodToBadRed)])
  }

  /** What the bike-network colourer ranks: in each road ranking a road carries its
      whole Bike total when the ranking's gradient is green exactly if the road has a
      bike lane, and 0 otherwise; an intersection likewise, green exactly if a
      connected road has a positive "on bike lanes" total. */
  lemma RankedTotals(m: Map, sim: Sim, road: RoadID, i: IntersectionID)
    ensures var c := BikeCountersOf(m, sim);
            var src := RankedSource(c);
            var onLane := road in m.roads && m.roads[road].HasBikeLane();
            var touches := TouchesCountedRoad(m, c.onBikeLanes, i);
            && (forall j :: 0 <= j < |src.roads| ==>
                  Get(src.roads[j].0, road) ==
                  if (src.roads[j].1 == GoodToBadGreen) == onLane then BikeSum(sim.roadThruput, road) else 0)
            && (forall j :: 0 <= j < |src.intersections| ==>
                  Get(src.intersections[j].0, i) ==
                  if (src.intersections[j].1 == GoodToBadGreen) == touches
                  then BikeSum(sim.intersectionThruput, i) else 0)
  {
    RoadThroughputPartition(m, sim, road);
    IntersectionBinning(m, sim, i);
  }

  /** Draws the panel, then the unzoomed batch below the detail threshold and the
      zoomed one at or above it. */
  function DrawLayer(panel: Panel, unzoomed: Batch, zoomed: Batch, camZoom: real,
                     minZoomForDetail: real): (calls: seq<DrawCall>)
    ensures |calls| == 2 && calls[0] == DrawPanel(panel)
    ensures camZoom < minZoomForDetail ==> calls[1] == Redraw(unzoomed)
    ensures minZoomForDetail <= camZoom ==> calls[1] == Redraw(zoomed)
  {
    [DrawPanel(panel), Redraw(if camZoom < minZoomForDetail then unzoomed else zoomed)]
  }

  /** Zooming in never goes back to the unzoomed batch: the choice is a single
      threshold. */
  lemma DrawThreshold(panel: Panel, unzoomed: Batch, zoomed: Batch, z1: real, z2: real, threshold: real)
    requires z1 <= z2
    requires DrawLayer(panel, unzoomed, zoomed, z1, threshold)[1] == Redraw(zoomed)
    requires unzoomed != zoomed
    ensures DrawLayer(panel, unzoomed, zoomed, z2, threshold)[1] == Redraw(zoomed)
  {
  }

  class BikeNetwork {
    var panel: Panel
    var time: Time
    var unzoomed: Batch
    var zoomed: Batch

    /** The layer holds what `new` builds from `m` and `sim`. */
    ghost predicate BuiltFrom(m: Map, sim: Sim)
      reads this
    {
      var c := BikeCountersOf(m, sim);
      && panel == BikeNetworkPanel(c.numLanes)
      && time == sim.time
      && unzoomed == Batch(Unzoomed, RankedSource(c))
      && zoomed == Batch(Zoomed, RankedSource(c))
    }

    constructor (m: Map, sim: Sim)
      requires ThruputResolvable(m, sim)
      ensures BuiltFrom(m, sim)
    {
      var c := ComputeBikeCounters(m, sim);
      panel := BikeNetworkPanel(c.numLanes);
      time := sim.time;
      unzoomed := Batch(Unzoomed, RankedSource(c));
      zoomed := Batch(Zoomed, RankedSource(c));
    }

    function Name(): (name: Option<string>)
      ensures name == Some("bike network")
    {
      Some("bike network")
    }

    /** Rebuilds the whole layer iff the simulation time differs from the build time,
        then passes on what the panel reported. */
    method Event(m: Map, sim: Sim, panelOutcome: Option<LayerOutcome>) returns (outcome: Option<LayerOutcome>)
      requires sim.time != time ==> ThruputResolvable(m, sim)
      modifies this
      ensures old(time) != sim.time ==> BuiltFrom(m, sim)
      ensures old(time) == sim.time ==> unchanged(this)
      ensures time == sim.time
      ensures outcome == panelOutcome
    {
      if sim.time != time {
        var rebuilt := new BikeNetwork(m, sim);
        panel, time, unzoomed, zoomed := rebuilt.panel, rebuilt.time, rebuilt.unzoomed, rebuilt.zoomed;
      }
      outcome := panelOutcome;
    }

    /** Two events at the same simulation time act as one: the second never rebuilds. */
    method EventTwice(m: Map, sim: Sim, first: Option<LayerOutcome>, second: Option<LayerOutcome>)
      returns (outcome: Option<LayerOutcome>)
      requires sim.time != time ==> ThruputResolvable(m, sim)
      modifies this
      ensures old(time) != sim.time ==> BuiltFrom(m, sim)
      ensures old(time) == sim.time ==> unchanged(this)
      ensures time == sim.time
      ensures outcome == second
    {
      var _ := Event(m, sim, first);
      label between:
      outcome := Event(m, sim, second);
      assert unchanged@between(this);
    }

    function Draw(camZoom: real, minZoomForDetail: real): (calls: seq<DrawCall>)
      reads this
      ensures calls == DrawLayer(panel, unzoomed, zoomed, camZoom, minZoomForDetail)
    {
      DrawLayer(panel, unzoomed, zoomed, camZoom, minZoomForDetail)
    }

    /** The minimap always shows the unzoomed batch. */
    function DrawMinimap(): (calls: seq<DrawCall>)
      reads this
      ensures calls == [Redraw(unzoomed)]
    {
      [Redraw(unzoomed)]
    }
  }

  class Static {
    var panel: Panel
    var unzoomed: Batch
    var zoomed: Batch
    var name: string

    /** Builds both batches and the legend from the finished colourer. */
    constructor (colorer: ColorDiscrete, name: string, title: string, extra: Extra)
      ensures this.name == name
      ensures unzoomed == Batch(Unzoomed, DiscreteColors(colorer))
      ensures zoomed == Batch(Zoomed, DiscreteColors(colorer))
      ensures panel == StaticPanel(title, extra, colorer.categories)
    {
      unzoomed := Batch(Unzoomed, DiscreteColors(colorer));
      zoomed := Batch(Zoomed, DiscreteColors(colorer));
      panel := StaticPanel(title, extra, colorer.categories);
      this.name := name;
    }

    static method BusNetwork(m: Map) returns (layer: Static)
      ensures fresh(layer) && layer.name == "bus network"
      ensures layer.unzoomed == Batch(Unzoomed, DiscreteColors(BusNetworkColorer(m)))
      ensures layer.zoomed == Batch(Zoomed, DiscreteColors(BusNetworkColorer(m)))
      ensures layer.panel == StaticPanel("Bus network", Nothing, BusCategories)
    {
      var colorer := BuildBusNetworkColorer(m);
      layer := new Static(colorer, "bus network", "Bus network", Nothing);
    }

    static method Edits(m: Map) returns (layer: Static)
      ensures fresh(layer) && layer.name == "map edits"
      ensures layer.unzoomed == Batch(Unzoomed, DiscreteColors(EditsColorer(m.edits)))
      ensures layer.zoomed == Batch(Zoomed, DiscreteColors(EditsColorer(m.edits)))
      ensures var e := m.edits;
              layer.panel ==
              StaticPanel("Map edits (" + e.editsName + ")",
                          EditCounts(DistinctCount(e.originalLts), DistinctCount(e.reversedLanes),
                                     DistinctCount(e.changedSpeedLimits),
                                     DistinctCount(e.originalIntersections)),
                          EditsCategories)
    {
      var e := m.edits;
      var colorer := BuildEditsColorer(e);
      layer := new Static(colorer, "map edits", "Map edits (" + e.editsName + ")",
                          EditCounts(DistinctCount(e.originalLts), DistinctCount(e.reversedLanes),
                                     DistinctCount(e.changedSpeedLimits),
                                     DistinctCount(e.originalIntersections)));
    }

    static method Amenities(m: Map, amenityType: string -> Option<string>) returns (layer: Static)
      ensures fresh(layer) && layer.name == "amenities"
      ensures layer.unzoomed == Batch(Unzoomed, DiscreteColors(AmenitiesColorer(m, amenityType)))
      ensures layer.zoomed == Batch(Zoomed, DiscreteColors(AmenitiesColorer(m, amenityType)))
      ensures layer.panel == StaticPanel("Amenities", Nothing, AmenityCategories)
    {
      var colorer := BuildAmenitiesColorer(m, amenityType);
      layer := new Static(colorer, "amenities", "Amenities", Nothing);
    }

    function Name(): (n: Option<string>)
      reads this
      ensures n == Some(name)
    {
      Some(name)
    }

    /** Only the panel sees the event; the batches are never touched. */
    method Event(panelOutcome: Option<LayerOutcome>) returns (outcome: Option<LayerOutcome>)
      ensures outcome == panelOutcome
    {
      outcome := panelOutcome;
    }

    function Draw(camZoom: real, minZoomForDetail: real): (calls: seq<DrawCall>)
      reads this
      ensures calls == DrawLayer(panel, unzoomed, zoomed, camZoom, minZoomForDetail)
    {
      DrawLayer(panel, unzoomed, zoomed, camZoom, minZoomForDetail)
    }

    /** The minimap always shows the unzoomed batch. */
    function DrawMinimap(): (calls: seq<DrawCall>)
      reads this
      ensures calls == [Redraw(unzoomed)]
    {
      [Redraw(unzoomed)]
    }
  }
}
