/** The classification passes behind the static layers: each walks the map and tags
    lanes, bus stops, intersections, roads or buildings with a named category of a
    discrete colouring. */
module StaticLayers {
  import opened Options
  import opened MapModel

  /** Colours named by the layers: fixed colours, a hex literal, or a colour-scheme entry. */
  datatype Color =
    | Black | Red | Blue | Purple | Green | Cyan | Yellow | Pink | Orange | White
    | Hex(code: string)
    | BusLayerColor
    | EditsLayerColor

  /** One `add_*` call on the discrete colourer: an object and its category. */
  datatype Tag =
    | LaneTag(lane: LaneID, category: string)
    | BusStopTag(stop: BusStopID, category: string)
    | IntersectionTag(intersection: IntersectionID, category: string)
    | RoadTag(road: RoadID, category: string)
    | BuildingTag(building: BuildingID, category: string)

  /** The discrete colourer: its declared categories and the tags added so far, in order. */
  datatype ColorDiscrete = ColorDiscrete(categories: seq<(string, Color)>, tags: seq<Tag>)
  {
    function Add(t: Tag): (c: ColorDiscrete)
      ensures c.categories == categories && c.tags == tags + [t]
    {
      this.(tags := tags + [t])
    }
  }

  predicate Declared(categories: seq<(string, Color)>, category: string)
  {
    exists j :: 0 <= j < |categories| && categories[j].0 == category
  }

  /** Every tag names a declared category, so a strict colourer has nothing to reject. */
  predicate AllTagsDeclared(c: ColorDiscrete)
  {
    forall t :: t in c.tags ==> Declared(c.categories, t.category)
  }

  // ---------------------------------------------------------------------------
  // Bus network

  const BusLanesCategory := "bus lanes"
  const BusStopsCategory := "bus stops"
  const BusCategories: seq<(string, Color)> :=
    [(BusLanesCategory, BusLayerColor), (BusStopsCategory, BusLayerColor)]

  /** A "bus lanes" tag for each bus lane, in lane order. */
  function BusLaneTags(lanes: seq<Lane>): seq<Tag>
    decreases |lanes|
  {
    if lanes == [] then []
    else
      var l := lanes[|lanes| - 1];
      BusLaneTags(lanes[..|lanes| - 1]) + (if l.IsBus() then [LaneTag(l.id, BusLanesCategory)] else [])
  }

  /** A "bus stops" tag for each bus stop, in order. */
  function BusStopTags(stops: seq<BusStopID>): seq<Tag>
  {
    seq(|stops|, j requires 0 <= j < |stops| => BusStopTag(stops[j], BusStopsCategory))
  }

  function BusNetworkColorer(m: Map): ColorDiscrete
  {
    ColorDiscrete(BusCategories, BusLaneTags(m.lanes) + BusStopTags(m.busStops))
  }

  /** The bus-lane tags are exactly one per bus lane: a lane is tagged iff it is a bus lane. */
  lemma {:induction false} BusLaneTagsExact(lanes: seq<Lane>)
    ensures |BusLaneTags(lanes)| == |set j: nat | j < |lanes| && lanes[j].IsBus()|
    ensures forall t :: t in BusLaneTags(lanes) <==>
              exists l :: l in lanes && l.IsBus() && t == LaneTag(l.id, BusLanesCategory)
    decreases |lanes|
  {
    if lanes != [] {
      var init, l := lanes[..|lanes| - 1], lanes[|lanes| - 1];
      BusLaneTagsExact(init);
      assert lanes == init + [l];
      var n := |lanes| - 1;
      assert (set j: nat | j < |lanes| && lanes[j].IsBus()) ==
             (set j: nat | j < |init| && init[j].IsBus()) + (if l.IsBus() then {n} else {});
    }
  }

  /** The bus-network colourer tags every bus lane and every bus stop, nothing else,
      and only with its two declared categories. */
  lemma BusNetworkTagsExact(m: Map)
    ensures var tags := BusNetworkColorer(m).tags;
            forall t :: t in tags <==>
              (exists l :: l in m.lanes && l.IsBus() && t == LaneTag(l.id, BusLanesCategory)) ||
              (exists s :: s in m.busStops && t == BusStopTag(s, BusStopsCategory))
    ensures AllTagsDeclared(BusNetworkColorer(m))
  {
    var c := BusNetworkColorer(m);
    BusLaneTagsExact(m.lanes);
    forall t | t in c.tags ensures Declared(c.categories, t.category) {
      assert c.categories[0].0 == BusLanesCategory && c.categories[1].0 == BusStopsCategory;
    }
    forall s | s in m.busStops ensures BusStopTag(s, BusStopsCategory) in BusStopTags(m.busStops) {
      var j :| 0 <= j < |m.busStops| && m.busStops[j] == s;
      assert BusStopTags(m.busStops)[j] == BusStopTag(s, BusStopsCategory);
    }
  }

  /** The two loops of `bus_network`. */
  method BuildBusNetworkColorer(m: Map) returns (colorer: ColorDiscrete)
    ensures colorer == BusNetworkColorer(m)
  {
    colorer := ColorDiscrete(BusCategories, []);
    for i := 0 to |m.lanes|
      invariant colorer == ColorDiscrete(BusCategories, BusLaneTags(m.lanes[..i]))
    {
      assert m.lanes[..i + 1][..i] == m.lanes[..i];
      var l := m.lanes[i];
      if l.IsBus() {
        colorer := colorer.Add(LaneTag(l.id, BusLanesCategory));
      }
    }
    assert m.lanes[..|m.lanes|] == m.lanes;
    for i := 0 to |m.busStops|
      invariant colorer ==
                ColorDiscrete(BusCategories, BusLaneTags(m.lanes) + BusStopTags(m.busStops[..i]))
    {
      colorer := colorer.Add(BusStopTag(m.busStops[i], BusStopsCategory));
    }
    assert m.busStops[..|m.busStops|] == m.busStops;
  }

  // ---------------------------------------------------------------------------
  // Map edits

  const EditsCategory := "modified lane/intersection"
  const EditsCategories: seq<(string, Color)> := [(EditsCategory, EditsLayerColor)]

  /** Lanes whose type changed, then reversed lanes (a lane in both is listed twice),
      then changed intersections, then roads with a changed speed limit. */
  function EditsColorer(e: MapEdits): ColorDiscrete
  {
    var lanes := e.originalLts + e.reversedLanes;
    ColorDiscrete(
      EditsCategories,
      seq(|lanes|, j requires 0 <= j < |lanes| => LaneTag(lanes[j], EditsCategory)) +
      seq(|e.originalIntersections|, j requires 0 <= j < |e.originalIntersections| =>
            IntersectionTag(e.originalIntersections[j], EditsCategory)) +
      seq(|e.changedSpeedLimits|, j requires 0 <= j < |e.changedSpeedLimits| =>
            RoadTag(e.changedSpeedLimits[j], EditsCategory)))
  }

  /** Every edit tag names a changed or reversed lane, a changed intersection or a road
      with a changed speed limit. */
  lemma EditsTagsNameEdits(e: MapEdits)
    ensures forall t :: t in EditsColorer(e).tags ==>
              || (t.LaneTag? && (t.lane in e.originalLts || t.lane in e.reversedLanes))
              || (t.IntersectionTag? && t.intersection in e.originalIntersections)
              || (t.RoadTag? && t.road in e.changedSpeedLimits)
  {
    var tags := EditsColorer(e).tags;
    var lanes := e.originalLts + e.reversedLanes;
    var nl, ni := |lanes|, |e.originalIntersections|;
    forall t | t in tags
      ensures || (t.LaneTag? && (t.lane in e.originalLts || t.lane in e.reversedLanes))
              || (t.IntersectionTag? && t.intersection in e.originalIntersections)
              || (t.RoadTag? && t.road in e.changedSpeedLimits)
    {
      var j :| 0 <= j < |tags| && tags[j] == t;
      if j < nl {
        assert t.lane == lanes[j];
      } else if j < nl + ni {
        assert t.intersection == e.originalIntersections[j - nl];
      } else {
        assert t.road == e.changedSpeedLimits[j - nl - ni];
      }
    }
  }

  /** One tag per edit entry, each edited object tagged, all in the one declared category. */
  lemma EditsTagsExact(e: MapEdits)
    ensures var tags := EditsColorer(e).tags;
            && |tags| == |e.originalLts| + |e.reversedLanes| + |e.originalIntersections| +
                         |e.changedSpeedLimits|
            && (forall l :: l in e.originalLts || l in e.reversedLanes ==> LaneTag(l, EditsCategory) in tags)
            && (forall i :: i in e.originalIntersections ==> IntersectionTag(i, EditsCategory) in tags)
            && (forall r :: r in e.changedSpeedLimits ==> RoadTag(r, EditsCategory) in tags)
            && (forall t :: t in tags ==> t.category == EditsCategory)
            && (forall t :: t in tags ==>
                  || (t.LaneTag? && (t.lane in e.originalLts || t.lane in e.reversedLanes))
                  || (t.IntersectionTag? && t.intersection in e.originalIntersections)
                  || (t.RoadTag? && t.road in e.changedSpeedLimits))
    ensures AllTagsDeclared(EditsColorer(e))
  {
    var c := EditsColorer(e);
    var lanes := e.originalLts + e.reversedLanes;
    var nl, ni := |lanes|, |e.originalIntersections|;
    forall l | l in e.originalLts || l in e.reversedLanes ensures LaneTag(l, EditsCategory) in c.tags {
      assert l in lanes;
      var j :| 0 <= j < nl && lanes[j] == l;
      assert c.tags[j] == LaneTag(l, EditsCategory);
    }
    forall i | i in e.originalIntersections ensures IntersectionTag(i, EditsCategory) in c.tags {
      var j :| 0 <= j < ni && e.originalIntersections[j] == i;
      assert c.tags[nl + j] == IntersectionTag(i, EditsCategory);
    }
    forall r | r in e.changedSpeedLimits ensures RoadTag(r, EditsCategory) in c.tags {
      var j :| 0 <= j < |e.changedSpeedLimits| && e.changedSpeedLimits[j] == r;
      assert c.tags[nl + ni + j] == RoadTag(r, EditsCategory);
    }
    EditsTagsNameEdits(e);
    forall t | t in c.tags ensures Declared(c.categories, t.category) {
      assert c.categories[0].0 == EditsCategory;
    }
  }

  /** The three loops of `edits`. */
  method BuildEditsColorer(e: MapEdits) returns (colorer: ColorDiscrete)
    ensures colorer == EditsColorer(e)
  {
    colorer := ColorDiscrete(EditsCategories, []);
    var lanes := e.originalLts + e.reversedLanes;
    for j := 0 to |lanes|
      invariant colorer.categories == EditsCategories
      invariant |colorer.tags| == j
      invariant forall k :: 0 <= k < j ==> colorer.tags[k] == LaneTag(lanes[k], EditsCategory)
    {
      colorer := colorer.Add(LaneTag(lanes[j], EditsCategory));
    }
    ghost var laneTags := colorer.tags;
    for j := 0 to |e.originalIntersections|
      invariant colorer.categories == EditsCategories
      invariant |colorer.tags| == |lanes| + j && colorer.tags[..|lanes|] == laneTags
      invariant forall k :: 0 <= k < j ==>
                  colorer.tags[|lanes| + k] == IntersectionTag(e.originalIntersections[k], EditsCategory)
    {
      colorer := colorer.Add(IntersectionTag(e.originalIntersections[j], EditsCategory));
    }
    ghost var n := |lanes| + |e.originalIntersections|;
    ghost var earlierTags := colorer.tags;
    for j := 0 to |e.changedSpeedLimits|
      invariant colorer.categories == EditsCategories
      invariant |colorer.tags| == n + j && colorer.tags[..n] == earlierTags
      invariant forall k :: 0 <= k < j ==>
                  colorer.tags[n + k] == RoadTag(e.changedSpeedLimits[k], EditsCategory)
    {
      colorer := colorer.Add(RoadTag(e.changedSpeedLimits[j], EditsCategory));
    }
    assert colorer.tags == EditsColorer(e).tags;
  }

  // ---------------------------------------------------------------------------
  // Amenities

  const OtherCategory := "other"
  const AmenityCategories: seq<(string, Color)> := [
    ("groceries", Black), ("food", Red), ("bar", Blue), ("medical", Purple),
    ("church / temple", Green), ("education", Cyan), ("bank / post office", Yellow),
    ("media", Pink), ("childcare", Orange), ("shopping", White), (OtherCategory, Hex("#96322F"))]

  /** A tag with the recognised type of each amenity, in order; unrecognised ones are skipped. */
  function RecognisedTags(id: BuildingID, amenities: seq<(string, string)>,
                          amenityType: string -> Option<string>): seq<Tag>
    decreases |amenities|
  {
    if amenities == [] then []
    else
      var a := amenities[|amenities| - 1].1;
      RecognisedTags(id, amenities[..|amenities| - 1], amenityType) +
      (match amenityType(a) case Some(t) => [BuildingTag(id, t)] case None => [])
  }

  /** Some amenity of the list has no recognised type. */
  predicate HasUnrecognised(amenities: seq<(string, string)>, amenityType: string -> Option<string>)
  {
    exists j :: 0 <= j < |amenities| && amenityType(amenities[j].1) == None
  }

  /** The tags one building receives: one per recognised amenity, then "other" once if
      any amenity went unrecognised. */
  function BuildingTags(b: Building, amenityType: string -> Option<string>): seq<Tag>
  {
    RecognisedTags(b.id, b.amenities, amenityType) +
    (if HasUnrecognised(b.amenities, amenityType) then [BuildingTag(b.id, OtherCategory)] else [])
  }

  function AmenityTags(buildings: seq<Building>, amenityType: string -> Option<string>): seq<Tag>
    decreases |buildings|
  {
    if buildings == [] then []
    else
      AmenityTags(buildings[..|buildings| - 1], amenityType) +
      BuildingTags(buildings[|buildings| - 1], amenityType)
  }

  /** The whole pass is the buildings' own tags: a tag comes out iff some building
      receives it. */
  lemma {:induction false} AmenityTagsPerBuilding(buildings: seq<Building>,
                                                  amenityType: string -> Option<string>)
    ensures forall t :: t in AmenityTags(buildings, amenityType) <==>
              exists j :: 0 <= j < |buildings| && t in BuildingTags(buildings[j], amenityType)
    decreases |buildings|
  {
    if buildings != [] {
      var init := buildings[..|buildings| - 1];
      AmenityTagsPerBuilding(init, amenityType);
      forall t | t in AmenityTags(buildings, amenityType)
        ensures exists j :: 0 <= j < |buildings| && t in BuildingTags(buildings[j], amenityType)
      {
        if t !in AmenityTags(init, amenityType) {
          assert t in BuildingTags(buildings[|buildings| - 1], amenityType);
        } else {
          var j :| 0 <= j < |init| && t in BuildingTags(init[j], amenityType);
          assert buildings[j] == init[j];
        }
      }
      forall t, j | 0 <= j < |buildings| && t in BuildingTags(buildings[j], amenityType)
        ensures t in AmenityTags(buildings, amenityType)
      {
        if j < |init| {
          assert init[j] == buildings[j];
        }
      }
    }
  }

  function AmenitiesColorer(m: Map, amenityType: string -> Option<string>): ColorDiscrete
  {
    ColorDiscrete(AmenityCategories, AmenityTags(m.buildings, amenityType))
  }

  /** The recognised tags: each is the building's id with the type of some recognised
      amenity, and every recognised amenity's type appears. */
  lemma {:induction false} RecognisedTagsExact(id: BuildingID, amenities: seq<(string, string)>,
                                              amenityType: string -> Option<string>)
    ensures forall t :: t in RecognisedTags(id, amenities, amenityType) ==> t.BuildingTag? && t.building == id
    ensures forall c: string :: BuildingTag(id, c) in RecognisedTags(id, amenities, amenityType) <==>
              exists j :: 0 <= j < |amenities| && amenityType(amenities[j].1) == Some(c)
    decreases |amenities|
  {
    if amenities != [] {
      var init, last := amenities[..|amenities| - 1], amenities[|amenities| - 1];
      RecognisedTagsExact(id, init, amenityType);
      forall c: string | BuildingTag(id, c) in RecognisedTags(id, amenities, amenityType)
        ensures exists j :: 0 <= j < |amenities| && amenityType(amenities[j].1) == Some(c)
      {
        if BuildingTag(id, c) in RecognisedTags(id, init, amenityType) {
          var j :| 0 <= j < |init| && amenityType(init[j].1) == Some(c);
          assert amenities[j] == init[j];
        } else {
          assert amenityType(amenities[|amenities| - 1].1) == Some(c);
        }
      }
      forall c: string, j | 0 <= j < |amenities| && amenityType(amenities[j].1) == Some(c)
        ensures BuildingTag(id, c) in RecognisedTags(id, amenities, amenityType)
      {
        if j < |init| {
          assert init[j] == amenities[j];
        }
      }
    }
  }

  /** A building is tagged with the type of each recognised amenity and with "other"
      exactly once iff some amenity is unrecognised (provided no amenity's type is
      itself "other"); a building without amenities gets no tag at all. */
  lemma BuildingTagsExact(b: Building, amenityType: string -> Option<string>)
    requires forall a :: amenityType(a) != Some(OtherCategory)
    ensures forall j :: 0 <= j < |b.amenities| && amenityType(b.amenities[j].1).Some? ==>
              BuildingTag(b.id, amenityType(b.amenities[j].1).value) in BuildingTags(b, amenityType)
    ensures multiset(BuildingTags(b, amenityType))[BuildingTag(b.id, OtherCategory)] ==
            if HasUnrecognised(b.amenities, amenityType) then 1 else 0
    ensures forall t :: t in BuildingTags(b, amenityType) ==> t.BuildingTag? && t.building == b.id
    ensures b.amenities == [] ==> BuildingTags(b, amenityType) == []
  {
    RecognisedTagsExact(b.id, b.amenities, amenityType);
    var rec := RecognisedTags(b.id, b.amenities, amenityType);
    assert BuildingTag(b.id, OtherCategory) !in rec;
    assert multiset(rec)[BuildingTag(b.id, OtherCategory)] == 0;
    if b.amenities == [] {
      assert !HasUnrecognised(b.amenities, amenityType);
    }
  }

  /** If every recognised type is a declared category, no amenity tag is undeclared. */
  lemma {:induction false} AmenityTagsDeclared(buildings: seq<Building>, amenityType: string -> Option<string>)
    requires forall a :: amenityType(a).Some? ==> Declared(AmenityCategories, amenityType(a).value)
    ensures AllTagsDeclared(ColorDiscrete(AmenityCategories, AmenityTags(buildings, amenityType)))
    decreases |buildings|
  {
    if buildings != [] {
      var b := buildings[|buildings| - 1];
      AmenityTagsDeclared(buildings[..|buildings| - 1], amenityType);
      RecognisedTagsExact(b.id, b.amenities, amenityType);
      assert AmenityCategories[10].0 == OtherCategory;
    }
  }

  /** One more amenity extends the recognised tags by its type, if it has one, and
      makes the list unrecognised if it has none. */
  lemma AmenityStep(id: BuildingID, amenities: seq<(string, string)>, k: nat,
                    amenityType: string -> Option<string>)
    requires k < |amenities|
    ensures RecognisedTags(id, amenities[..k + 1], amenityType) ==
            RecognisedTags(id, amenities[..k], amenityType) +
            (match amenityType(amenities[k].1) case Some(t) => [BuildingTag(id, t)] case None => [])
    ensures HasUnrecognised(amenities[..k + 1], amenityType) <==>
            HasUnrecognised(amenities[..k], amenityType) || amenityType(amenities[k].1) == None
  {
    assert amenities[..k + 1][..k] == amenities[..k];
    if HasUnrecognised(amenities[..k + 1], amenityType) && amenityType(amenities[k].1) != None {
      var j :| 0 <= j < k + 1 && amenityType(amenities[..k + 1][j].1) == None;
      assert amenities[..k][j] == amenities[..k + 1][j];
    }
    if HasUnrecognised(amenities[..k], amenityType) {
      var j :| 0 <= j < k && amenityType(amenities[..k][j].1) == None;
      assert amenities[..k + 1][j] == amenities[..k][j];
    }
    if amenityType(amenities[k].1) == None {
      assert amenities[..k + 1][k] == amenities[k];
    }
  }

  /** The nested loops of `amenities`. */
  method BuildAmenitiesColorer(m: Map, amenityType: string -> Option<string>) returns (colorer: ColorDiscrete)
    ensures colorer == AmenitiesColorer(m, amenityType)
  {
    colorer := ColorDiscrete(AmenityCategories, []);
    for i := 0 to |m.buildings|
      invariant colorer == ColorDiscrete(AmenityCategories, AmenityTags(m.buildings[..i], amenityType))
    {
      var b := m.buildings[i];
      ghost var before := colorer.tags;
      var other := false;
      for k := 0 to |b.amenities|
        invariant colorer == ColorDiscrete(AmenityCategories,
                                           before + RecognisedTags(b.id, b.amenities[..k], amenityType))
        invariant other == HasUnrecognised(b.amenities[..k], amenityType)
      {
        AmenityStep(b.id, b.amenities, k, amenityType);
        var a := b.amenities[k].1;
        match amenityType(a) {
          case Some(t) =>
            colorer := colorer.Add(BuildingTag(b.id, t));
          case None =>
            other := true;
        }
      }
      assert b.amenities[..|b.amenities|] == b.amenities;
      if other {
        colorer := colorer.Add(BuildingTag(b.id, OtherCategory));
      }
      assert m.buildings[..i + 1][..i] == m.buildings[..i];
    }
    assert m.buildings[..|m.buildings|] == m.buildings;
  }
}
