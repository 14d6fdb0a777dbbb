/** The read-only map and simulation data that the layers are built from. Only the
    attributes the layer builders look at are kept. */
module MapModel {

  datatype LaneID = LaneID(n: nat)
  datatype RoadID = RoadID(n: nat)
  datatype IntersectionID = IntersectionID(n: nat)
  datatype BuildingID = BuildingID(n: nat)
  datatype BusStopID = BusStopID(n: nat)

  datatype LaneType = Driving | Parking | Sidewalk | Biking | Bus | SharedLeftTurn | Construction

  datatype TripMode = Walk | Bike | Transit | Drive

  datatype Lane = Lane(id: LaneID, laneType: LaneType, parent: RoadID,
                       srcI: IntersectionID, dstI: IntersectionID)
  {
    predicate IsBiking() { laneType == Biking }
    predicate IsBus() { laneType == Bus }
  }

  /** A road, seen through `get_lane_types`: the types of its forward and backward lanes. */
  datatype Road = Road(id: RoadID, fwdLaneTypes: seq<LaneType>, backLaneTypes: seq<LaneType>)
  {
    /** Some forward or backward lane of the road is a bike lane. */
    predicate HasBikeLane() { Biking in fwdLaneTypes || Biking in backLaneTypes }
  }

  datatype Intersection = Intersection(id: IntersectionID, roads: seq<RoadID>)

  /** A building with its (name, amenity) pairs, in iteration order. */
  datatype Building = Building(id: BuildingID, amenities: seq<(string, string)>)

  /** The current map edits; each collection is given by its keys in iteration order. */
  datatype MapEdits = MapEdits(
    editsName: string,
    originalLts: seq<LaneID>,
    reversedLanes: seq<LaneID>,
    originalIntersections: seq<IntersectionID>,
    changedSpeedLimits: seq<RoadID>)

  /** The `.len()` of a map or set whose keys are listed by `s`: the number of distinct
      entries, which is `|s|` when no entry repeats. */
  function DistinctCount<T(==)>(s: seq<T>): (n: nat)
    ensures n == |set x | x in s|
    ensures n <= |s|
    ensures (forall i, j :: 0 <= i < j < |s| ==> s[i] != s[j]) ==> n == |s|
    decreases |s|
  {
    if s == [] then 0
    else
      var init, last := s[..|s| - 1], s[|s| - 1];
      assert (set x | x in s) == (set x | x in init) + {last} by {
        assert s == init + [last];
      }
      assert last in init ==> (set x | x in init) + {last} == (set x | x in init);
      DistinctCount(init) + (if last in init then 0 else 1)
  }

  datatype Map = Map(
    lanes: seq<Lane>,
    roads: map<RoadID, Road>,
    intersections: map<IntersectionID, Intersection>,
    buildings: seq<Building>,
    busStops: seq<BusStopID>,
    edits: MapEdits)

  /** Simulation time; it is only ever compared for equality. */
  type Time = real

  /** One entry of a throughput table: (key, mode, time bucket) -> count. */
  datatype Record<K> = Record(key: K, mode: TripMode, bucket: nat, count: nat)

  datatype Sim = Sim(
    time: Time,
    roadThruput: seq<Record<RoadID>>,
    intersectionThruput: seq<Record<IntersectionID>>)

  /** What `get_r` and `get_i` demand: every Bike-mode record names a road or
      intersection of the map (records of other modes are never looked up). */
  predicate ThruputResolvable(m: Map, sim: Sim)
  {
    && (forall j :: 0 <= j < |sim.roadThruput| && sim.roadThruput[j].mode == Bike ==>
          sim.roadThruput[j].key in m.roads)
    && (forall j :: 0 <= j < |sim.intersectionThruput| && sim.intersectionThruput[j].mode == Bike ==>
          sim.intersectionThruput[j].key in m.intersections)
  }

  /** Every lane's type shows up among its parent road's lane types. */
  predicate LanesConsistent(m: Map)
  {
    forall l :: l in m.lanes ==>
      l.parent in m.roads &&
      (l.laneType in m.roads[l.parent].fwdLaneTypes || l.laneType in m.roads[l.parent].backLaneTypes)
  }
}
