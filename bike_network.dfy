/** The counters behind the "bike network" layer: the parent road and the source
    intersection of every bike lane are seeded at 0, Bike-mode road throughput is split
    into "on bike lanes" and "off bike lanes", and intersection throughput is then binned
    using the finished road counter. */
module BikeNetworkCounts {
  import opened Counter
  import opened MapModel

  /** The four counters and the lane count that `BikeNetwork::new` gathers. */
  datatype BikeCounters = BikeCounters(
    numLanes: nat,
    onBikeLanes: Counter<RoadID>,
    offBikeLanes: Counter<RoadID>,
    intersectionsOn: Counter<IntersectionID>,
    intersectionsOff: Counter<IntersectionID>)

  // ---------------------------------------------------------------------------
  // Throughput records

  /** Bike-mode total recorded for `k`, summed over every time bucket. */
  function BikeSum<K(==)>(recs: seq<Record<K>>, k: K): nat
    decreases |recs|
  {
    if recs == [] then 0
    else
      var last := recs[|recs| - 1];
      BikeSum(recs[..|recs| - 1], k) + (if last.mode == Bike && last.key == k then last.count else 0)
  }

  /** Keys named by at least one Bike-mode record. */
  function BikeKeys<K(==)>(recs: seq<Record<K>>): set<K>
  {
    set j | 0 <= j < |recs| && recs[j].mode == Bike :: recs[j].key
  }

  /** The Bike-mode records: a record is kept iff its mode is Bike. */
  function BikeOnly<K(==)>(recs: seq<Record<K>>): (r: seq<Record<K>>)
    ensures forall j :: 0 <= j < |r| ==> r[j].mode == Bike
    ensures forall j :: 0 <= j < |recs| && recs[j].mode == Bike ==> recs[j] in r
    ensures forall j :: 0 <= j < |r| ==> r[j] in recs
    decreases |recs|
  {
    if recs == [] then []
    else
      var last := recs[|recs| - 1];
      BikeOnly(recs[..|recs| - 1]) + (if last.mode == Bike then [last] else [])
  }

  /** One binning pass over a throughput table: a Bike record adds its count to `on`
      when its key is in `onKeys` and to `off` otherwise; other modes are skipped. */
  function Classify<K(==)>(recs: seq<Record<K>>, on: Counter<K>, off: Counter<K>, onKeys: set<K>)
    : (Counter<K>, Counter<K>)
    decreases |recs|
  {
    if recs == [] then (on, off)
    else ClassifyStep(Classify(recs[..|recs| - 1], on, off, onKeys), recs[|recs| - 1], onKeys)
  }

  /** The effect of one record on the pair of counters. */
  function ClassifyStep<K(==)>(counters: (Counter<K>, Counter<K>), rec: Record<K>, onKeys: set<K>)
    : (Counter<K>, Counter<K>)
  {
    if rec.mode != Bike then counters
    else if rec.key in onKeys then (Add(counters.0, rec.key, rec.count), counters.1)
    else (counters.0, Add(counters.1, rec.key, rec.count))
  }

  lemma ClassifyPrefix<K>(recs: seq<Record<K>>, j: nat, on: Counter<K>, off: Counter<K>, onKeys: set<K>)
    requires j < |recs|
    ensures Classify(recs[..j + 1], on, off, onKeys) ==
            ClassifyStep(Classify(recs[..j], on, off, onKeys), recs[j], onKeys)
  {
    assert recs[..j + 1][..j] == recs[..j];
  }

  /** Each key's Bike total lands in exactly one of the two counters. */
  lemma {:induction false} ClassifyTotals<K>(recs: seq<Record<K>>, on: Counter<K>, off: Counter<K>,
                                            onKeys: set<K>, k: K)
    ensures Get(Classify(recs, on, off, onKeys).0, k) ==
            Get(on, k) + (if k in onKeys then BikeSum(recs, k) else 0)
    ensures Get(Classify(recs, on, off, onKeys).1, k) ==
            Get(off, k) + (if k in onKeys then 0 else BikeSum(recs, k))
    decreases |recs|
  {
    if recs != [] {
      ClassifyTotals(recs[..|recs| - 1], on, off, onKeys, k);
    }
  }

  lemma BikeKeysSnoc<K>(recs: seq<Record<K>>)
    requires recs != []
    ensures BikeKeys(recs) ==
            BikeKeys(recs[..|recs| - 1]) +
            (if recs[|recs| - 1].mode == Bike then {recs[|recs| - 1].key} else {})
  {
    var init := recs[..|recs| - 1];
    forall k | k in BikeKeys(recs)
      ensures k in BikeKeys(init) + (if recs[|recs| - 1].mode == Bike then {recs[|recs| - 1].key} else {})
    {
      var j :| 0 <= j < |recs| && recs[j].mode == Bike && recs[j].key == k;
      if j < |init| {
        assert init[j] == recs[j];
      }
    }
    forall k | k in BikeKeys(init) ensures k in BikeKeys(recs) {
      var j :| 0 <= j < |init| && init[j].mode == Bike && init[j].key == k;
      assert recs[j] == init[j];
    }
  }

  /** A key becomes present in `on` iff a Bike record names it and it is in `onKeys`,
      in `off` iff a Bike record names it and it is not; seeded keys stay. */
  lemma {:induction false} ClassifyKeys<K>(recs: seq<Record<K>>, on: Counter<K>, off: Counter<K>,
                                          onKeys: set<K>)
    ensures Classify(recs, on, off, onKeys).0.Keys == on.Keys + (BikeKeys(recs) * onKeys)
    ensures Classify(recs, on, off, onKeys).1.Keys == off.Keys + (BikeKeys(recs) - onKeys)
    decreases |recs|
  {
    if recs != [] {
      ClassifyKeys(recs[..|recs| - 1], on, off, onKeys);
      BikeKeysSnoc(recs);
    } else {
      assert BikeKeys(recs) == {};
    }
  }

  /** Records of any mode other than Bike change neither counter. */
  lemma {:induction false} ClassifyIgnoresOtherModes<K>(recs: seq<Record<K>>, on: Counter<K>,
                                                       off: Counter<K>, onKeys: set<K>)
    ensures Classify(BikeOnly(recs), on, off, onKeys) == Classify(recs, on, off, onKeys)
    decreases |recs|
  {
    if recs != [] {
      var init, last := recs[..|recs| - 1], recs[|recs| - 1];
      ClassifyIgnoresOtherModes(init, on, off, onKeys);
      var b := BikeOnly(recs);
      if last.mode == Bike {
        assert b == BikeOnly(init) + [last];
        assert b[..|b| - 1] == BikeOnly(init);
        assert Classify(b, on, off, onKeys) == ClassifyStep(Classify(BikeOnly(init), on, off, onKeys), last, onKeys);
      } else {
        assert b == BikeOnly(init);
      }
    }
  }

  // ---------------------------------------------------------------------------
  // Seeding

  /** Positions of the biking lanes. */
  function BikingLanes(lanes: seq<Lane>): set<nat>
  {
    set j: nat | j < |lanes| && lanes[j].IsBiking()
  }

  /** Parent roads of the biking lanes. */
  function BikeLaneParents(lanes: seq<Lane>): set<RoadID>
  {
    set l | l in lanes && l.IsBiking() :: l.parent
  }

  /** Source intersections of the biking lanes (the seeding loop repeats `src_i`,
      so destination intersections are not part of it). */
  function BikeLaneSources(lanes: seq<Lane>): set<IntersectionID>
  {
    set l | l in lanes && l.IsBiking() :: l.srcI
  }

  /** A counter holding every key of `keys` at 0. */
  function Seeded<K(==)>(keys: set<K>): (c: Counter<K>)
    ensures c.Keys == keys
    ensures forall k :: k in c ==> c[k] == 0
  {
    map k | k in keys :: 0
  }

  lemma SeededAdd<K>(keys: set<K>, k: K)
    ensures Add(Seeded(keys), k, 0) == Seeded(keys + {k})
  {
    var a, b := Add(Seeded(keys), k, 0), Seeded(keys + {k});
    assert a.Keys == b.Keys;
    forall j | j in a ensures a[j] == b[j] {
      assert Get(a, j) == 0;
    }
  }

  /** One more lane adds to the biking lanes exactly its own index, if it bikes. */
  lemma BikingLanesStep(lanes: seq<Lane>, i: nat)
    requires i < |lanes|
    ensures |BikingLanes(lanes[..i + 1])| == |BikingLanes(lanes[..i])| + (if lanes[i].IsBiking() then 1 else 0)
  {
    assert BikingLanes(lanes[..i + 1]) == BikingLanes(lanes[..i]) + (if lanes[i].IsBiking() then {i} else {});
    assert i !in BikingLanes(lanes[..i]);
  }

  /** One more lane adds its parent road and its source intersection to the seeded
      keys, if it bikes. */
  lemma SeedKeysStep(lanes: seq<Lane>, i: nat)
    requires i < |lanes|
    ensures BikeLaneParents(lanes[..i + 1]) ==
            BikeLaneParents(lanes[..i]) + (if lanes[i].IsBiking() then {lanes[i].parent} else {})
    ensures BikeLaneSources(lanes[..i + 1]) ==
            BikeLaneSources(lanes[..i]) + (if lanes[i].IsBiking() then {lanes[i].srcI} else {})
  {
    assert lanes[..i + 1] == lanes[..i] + [lanes[i]];
  }

  /** One turn of the seeding loop, stated on the prefix it has covered. */
  lemma SeedStep(lanes: seq<Lane>, i: nat)
    requires i < |lanes|
    ensures var l := lanes[i];
            |BikingLanes(lanes[..i + 1])| == |BikingLanes(lanes[..i])| + (if l.IsBiking() then 1 else 0)
    ensures var l := lanes[i];
            Seeded(BikeLaneParents(lanes[..i + 1])) ==
            if l.IsBiking() then Add(Seeded(BikeLaneParents(lanes[..i])), l.parent, 0)
            else Seeded(BikeLaneParents(lanes[..i]))
    ensures var l := lanes[i];
            Seeded(BikeLaneSources(lanes[..i + 1])) ==
            if l.IsBiking() then Add(Add(Seeded(BikeLaneSources(lanes[..i])), l.srcI, 0), l.srcI, 0)
            else Seeded(BikeLaneSources(lanes[..i]))
  {
    var pre, l := lanes[..i], lanes[i];
    BikingLanesStep(lanes, i);
    SeedKeysStep(lanes, i);
    if l.IsBiking() {
      SeededAdd(BikeLaneParents(pre), l.parent);
      SeededAdd(BikeLaneSources(pre), l.srcI);
      SeededAdd(BikeLaneSources(pre) + {l.srcI}, l.srcI);
    }
  }

  // ---------------------------------------------------------------------------
  // The whole pipeline

  /** Roads with a forward or backward bike lane. */
  function BikeLaneRoads(m: Map): set<RoadID>
  {
    set r | r in m.roads && m.roads[r].HasBikeLane()
  }

  /** Some road connected to `i` has a strictly positive total in `on`. */
  predicate TouchesCountedRoad(m: Map, on: Counter<RoadID>, i: IntersectionID)
  {
    i in m.intersections && exists r :: r in m.intersections[i].roads && Get(on, r) > 0
  }

  function CountedRoadIntersections(m: Map, on: Counter<RoadID>): set<IntersectionID>
  {
    set i | i in m.intersections && TouchesCountedRoad(m, on, i)
  }

  /** What `BikeNetwork::new` computes: seed, bin roads, then bin intersections
      against the finished road counter. */
  function BikeCountersOf(m: Map, sim: Sim): BikeCounters
  {
    var (on, off) :=
      Classify(sim.roadThruput, Seeded(BikeLaneParents(m.lanes)), map[], BikeLaneRoads(m));
    var (iOn, iOff) :=
      Classify(sim.intersectionThruput, Seeded(BikeLaneSources(m.lanes)), map[],
               CountedRoadIntersections(m, on));
    BikeCounters(|BikingLanes(m.lanes)|, on, off, iOn, iOff)
  }

  // ---------------------------------------------------------------------------
  // Properties of the pipeline

  /** Which keys each counter holds: seeded keys, plus the keys of Bike records
      binned into that counter. */
  lemma CounterKeys(m: Map, sim: Sim)
    ensures var c := BikeCountersOf(m, sim);
            && c.onBikeLanes.Keys == BikeLaneParents(m.lanes) + (BikeKeys(sim.roadThruput) * BikeLaneRoads(m))
            && c.offBikeLanes.Keys == BikeKeys(sim.roadThruput) - BikeLaneRoads(m)
            && c.intersectionsOn.Keys ==
               BikeLaneSources(m.lanes) +
               (BikeKeys(sim.intersectionThruput) * CountedRoadIntersections(m, c.onBikeLanes))
            && c.intersectionsOff.Keys ==
               BikeKeys(sim.intersectionThruput) - CountedRoadIntersections(m, c.onBikeLanes)
  {
    var c := BikeCountersOf(m, sim);
    ClassifyKeys(sim.roadThruput, Seeded(BikeLaneParents(m.lanes)), map[], BikeLaneRoads(m));
    ClassifyKeys(sim.intersectionThruput, Seeded(BikeLaneSources(m.lanes)), map[],
                 CountedRoadIntersections(m, c.onBikeLanes));
  }

  /** Every bike lane shows up: its parent road is a key of the "on" road counter and
      its source intersection a key of the "on" intersection counter. */
  lemma SeedingKeepsBikeLanesVisible(m: Map, sim: Sim)
    ensures var c := BikeCountersOf(m, sim);
            forall l :: l in m.lanes && l.IsBiking() ==>
              l.parent in c.onBikeLanes && l.srcI in c.intersectionsOn
  {
    CounterKeys(m, sim);
  }

  /** The seeding repeats `src_i`: an intersection that is the source of no bike lane
      and has no Bike throughput is not a key of the "on" intersection counter, even
      when it is the destination of a bike lane. */
  lemma DestinationNotSeeded(m: Map, sim: Sim, i: IntersectionID)
    requires forall l :: l in m.lanes && l.IsBiking() ==> l.srcI != i
    requires i !in BikeKeys(sim.intersectionThruput)
    ensures i !in BikeCountersOf(m, sim).intersectionsOn
    ensures i !in BikeCountersOf(m, sim).intersectionsOff
  {
    CounterKeys(m, sim);
  }

  /** Each road's Bike throughput, summed over time buckets, goes to exactly one
      counter: "on bike lanes" iff the road has a forward or backward bike lane. */
  lemma RoadThroughputPartition(m: Map, sim: Sim, r: RoadID)
    ensures var c := BikeCountersOf(m, sim);
            var onLane := r in m.roads && m.roads[r].HasBikeLane();
            && Get(c.onBikeLanes, r) == (if onLane then BikeSum(sim.roadThruput, r) else 0)
            && Get(c.offBikeLanes, r) == (if onLane then 0 else BikeSum(sim.roadThruput, r))
  {
    ClassifyTotals(sim.roadThruput, Seeded(BikeLaneParents(m.lanes)), map[], BikeLaneRoads(m), r);
  }

  /** The road counters in closed form: "on" holds the bike-lane parents and the
      bike-lane roads with Bike records, each at its Bike total (0 for a seeded road
      without a bike lane); "off" holds the other roads with Bike records. */
  lemma RoadCountersExact(m: Map, sim: Sim)
    ensures var c := BikeCountersOf(m, sim);
            var recs, onRoads := sim.roadThruput, BikeLaneRoads(m);
            && c.onBikeLanes ==
               (map r | r in BikeLaneParents(m.lanes) + (BikeKeys(recs) * onRoads) ::
                  if r in onRoads then BikeSum(recs, r) else 0)
            && c.offBikeLanes == (map r | r in BikeKeys(recs) - onRoads :: BikeSum(recs, r))
  {
    var c := BikeCountersOf(m, sim);
    var recs, onRoads := sim.roadThruput, BikeLaneRoads(m);
    CounterKeys(m, sim);
    forall r | r in c.onBikeLanes
      ensures c.onBikeLanes[r] == if r in onRoads then BikeSum(recs, r) else 0
    {
      RoadThroughputPartition(m, sim, r);
    }
    forall r | r in c.offBikeLanes ensures c.offBikeLanes[r] == BikeSum(recs, r) {
      RoadThroughputPartition(m, sim, r);
    }
  }

  /** An intersection's Bike throughput goes to "on" iff some connected road has a
      strictly positive total in the finished "on bike lanes" counter. */
  lemma IntersectionBinning(m: Map, sim: Sim, i: IntersectionID)
    ensures var c := BikeCountersOf(m, sim);
            var onLane := TouchesCountedRoad(m, c.onBikeLanes, i);
            && Get(c.intersectionsOn, i) == (if onLane then BikeSum(sim.intersectionThruput, i) else 0)
            && Get(c.intersectionsOff, i) == (if onLane then 0 else BikeSum(sim.intersectionThruput, i))
  {
    var c := BikeCountersOf(m, sim);
    ClassifyTotals(sim.intersectionThruput, Seeded(BikeLaneSources(m.lanes)), map[],
                   CountedRoadIntersections(m, c.onBikeLanes), i);
  }

  /** Only Bike-mode records matter: dropping every other record changes no counter. */
  lemma OnlyBikeRecordsMatter(m: Map, sim: Sim)
    ensures BikeCountersOf(m, sim) ==
            BikeCountersOf(m, sim.(roadThruput := BikeOnly(sim.roadThruput),
                                   intersectionThruput := BikeOnly(sim.intersectionThruput)))
  {
    ClassifyIgnoresOtherModes(sim.roadThruput, Seeded(BikeLaneParents(m.lanes)), map[], BikeLaneRoads(m));
    var on := BikeCountersOf(m, sim).onBikeLanes;
    ClassifyIgnoresOtherModes(sim.intersectionThruput, Seeded(BikeLaneSources(m.lanes)), map[],
                              CountedRoadIntersections(m, on));
  }

  /** When every lane's type is among its road's lane types, no road is a key of both
      road counters. */
  lemma OnOffRoadsDisjoint(m: Map, sim: Sim)
    requires LanesConsistent(m)
    ensures BikeCountersOf(m, sim).onBikeLanes.Keys !! BikeCountersOf(m, sim).offBikeLanes.Keys
  {
    CounterKeys(m, sim);
    forall r | r in BikeLaneParents(m.lanes) ensures r in BikeLaneRoads(m) {
      var l :| l in m.lanes && l.IsBiking() && l.parent == r;
    }
  }

  /** A road that was only seeded reads 0, so seeding alone never bins an intersection
      as "on". */
  lemma SeedsAloneDoNotQualify(m: Map, i: IntersectionID)
    ensures !TouchesCountedRoad(m, Seeded(BikeLaneParents(m.lanes)), i)
  {
  }

  // Road A has a bike lane, road B none; intersection I joins them.
  const RoadA := RoadID(0)
  const RoadB := RoadID(1)
  const JunctionI := IntersectionID(0)
  const JunctionJ := IntersectionID(1)

  function OrderingExampleMap(): Map
  {
    Map([Lane(LaneID(0), Biking, RoadA, JunctionJ, JunctionI), Lane(LaneID(1), Driving, RoadB, JunctionI, JunctionJ)],
        map[RoadA := Road(RoadA, [Biking], []), RoadB := Road(RoadB, [Driving], [Driving])],
        map[JunctionI := Intersection(JunctionI, [RoadA, RoadB]), JunctionJ := Intersection(JunctionJ, [RoadA, RoadB])],
        [], [], MapEdits("", [], [], [], []))
  }

  function OrderingExampleSim(): Sim
  {
    Sim(0.0, [Record(RoadA, Bike, 0, 10)], [Record(JunctionI, Bike, 0, 3)])
  }

  /** The intersection pass depends on the finished road pass: with the road
      counter complete, I's throughput is "on"; binning against the road counter
      as it stood before the road pass (seeds only) would put it "off". */
  lemma RoadPassMustComeFirst(m: Map, sim: Sim)
    requires m == OrderingExampleMap() && sim == OrderingExampleSim()
    ensures var c := BikeCountersOf(m, sim);
            Get(c.intersectionsOn, JunctionI) == 3 && Get(c.intersectionsOff, JunctionI) == 0
    ensures var early := Classify(sim.intersectionThruput, Seeded(BikeLaneSources(m.lanes)), map[],
                                  CountedRoadIntersections(m, Seeded(BikeLaneParents(m.lanes))));
            Get(early.0, JunctionI) == 0 && Get(early.1, JunctionI) == 3
  {
    assert BikeSum(sim.intersectionThruput, JunctionI) == 3 by {
      assert sim.intersectionThruput[..0] == [];
    }
    var c := BikeCountersOf(m, sim);
    assert TouchesCountedRoad(m, c.onBikeLanes, JunctionI) by {
      RoadThroughputPartition(m, sim, RoadA);
      assert sim.roadThruput[..0] == [];
      assert BikeSum(sim.roadThruput, RoadA) == 10;
      assert RoadA in m.intersections[JunctionI].roads;
    }
    IntersectionBinning(m, sim, JunctionI);
    var early := CountedRoadIntersections(m, Seeded(BikeLaneParents(m.lanes)));
    assert JunctionI !in early by {
      SeedsAloneDoNotQualify(m, JunctionI);
    }
    ClassifyTotals(sim.intersectionThruput, Seeded(BikeLaneSources(m.lanes)), map[], early, JunctionI);
  }

  /** Three roads with bike-lane flags [true, false, true] and Bike counts [10, 20, 5]
      (plus a Drive record, which is ignored): the "on" counter is exactly
      {road 0: 10, road 2: 5} and the "off" counter exactly {road 1: 20}. */
  lemma EndToEndExample(m: Map, sim: Sim)
    requires m.lanes == [Lane(LaneID(0), Biking, RoadID(0), JunctionI, JunctionJ),
                         Lane(LaneID(1), Driving, RoadID(1), JunctionI, JunctionJ),
                         Lane(LaneID(2), Biking, RoadID(2), JunctionJ, JunctionI)]
    requires m.roads == map[RoadID(0) := Road(RoadID(0), [Biking], []),
                            RoadID(1) := Road(RoadID(1), [Driving], []),
                            RoadID(2) := Road(RoadID(2), [], [Biking])]
    requires sim.roadThruput == [Record(RoadID(0), Bike, 0, 10), Record(RoadID(1), Bike, 0, 20),
                                 Record(RoadID(2), Bike, 0, 5), Record(RoadID(1), Drive, 0, 99)]
    ensures BikeCountersOf(m, sim).onBikeLanes == map[RoadID(0) := 10, RoadID(2) := 5]
    ensures BikeCountersOf(m, sim).offBikeLanes == map[RoadID(1) := 20]
  {
    var r0, r1, r2 := RoadID(0), RoadID(1), RoadID(2);
    var recs := sim.roadThruput;
    assert BikeLaneRoads(m) == {r0, r2};
    assert BikeLaneParents(m.lanes) == {r0, r2} by {
      assert m.lanes[0] in m.lanes && m.lanes[2] in m.lanes;
    }
    assert BikeKeys(recs) == {r0, r1, r2} by {
      assert recs[0].key == r0 && recs[1].key == r1 && recs[2].key == r2;
    }
    EndToEndSums(recs);
    RoadCountersExact(m, sim);
    var c := BikeCountersOf(m, sim);
    EndToEndClosedForm(c.onBikeLanes, c.offBikeLanes, recs, BikeLaneParents(m.lanes), BikeLaneRoads(m));
  }

  lemma EndToEndClosedForm(on: Counter<RoadID>, off: Counter<RoadID>, recs: seq<Record<RoadID>>,
                           parents: set<RoadID>, onRoads: set<RoadID>)
    requires parents == {RoadID(0), RoadID(2)} && onRoads == {RoadID(0), RoadID(2)}
    requires BikeKeys(recs) == {RoadID(0), RoadID(1), RoadID(2)}
    requires BikeSum(recs, RoadID(0)) == 10 && BikeSum(recs, RoadID(1)) == 20
    requires BikeSum(recs, RoadID(2)) == 5
    requires on == (map r | r in parents + (BikeKeys(recs) * onRoads) ::
                      if r in onRoads then BikeSum(recs, r) else 0)
    requires off == (map r | r in BikeKeys(recs) - onRoads :: BikeSum(recs, r))
    ensures on == map[RoadID(0) := 10, RoadID(2) := 5] && off == map[RoadID(1) := 20]
  {
    assert on.Keys == {RoadID(0), RoadID(2)};
    assert off.Keys == {RoadID(1)};
  }

  lemma EndToEndSums(recs: seq<Record<RoadID>>)
    requires recs == [Record(RoadID(0), Bike, 0, 10), Record(RoadID(1), Bike, 0, 20),
                      Record(RoadID(2), Bike, 0, 5), Record(RoadID(1), Drive, 0, 99)]
    ensures BikeSum(recs, RoadID(0)) == 10 && BikeSum(recs, RoadID(1)) == 20
    ensures BikeSum(recs, RoadID(2)) == 5
  {
    var r0, r1, r2 := RoadID(0), RoadID(1), RoadID(2);
    var s1, s2, s3 := recs[..1], recs[..2], recs[..3];
    assert recs[..|recs| - 1] == s3;
    assert s3[..|s3| - 1] == s2;
    assert s2[..|s2| - 1] == s1;
    assert s1[..|s1| - 1] == [];
    assert BikeSum(s1, r0) == 10 && BikeSum(s1, r1) == 0 && BikeSum(s1, r2) == 0;
    assert BikeSum(s2, r0) == 10 && BikeSum(s2, r1) == 20 && BikeSum(s2, r2) == 0;
    assert BikeSum(s3, r0) == 10 && BikeSum(s3, r1) == 20 && BikeSum(s3, r2) == 5;
  }

  /** The three loops of `BikeNetwork::new`, over local counters. */
  method ComputeBikeCounters(m: Map, sim: Sim) returns (c: BikeCounters)
    requires ThruputResolvable(m, sim)
    ensures c == BikeCountersOf(m, sim)
  {
    var numLanes := 0;
    var onBikeLanes: Counter<RoadID> := map[];
    var offBikeLanes: Counter<RoadID> := map[];
    var intersectionsOn: Counter<IntersectionID> := map[];
    var intersectionsOff: Counter<IntersectionID> := map[];

    // Make sure every bike lane shows up, whatever the throughput.
    for i := 0 to |m.lanes|
      invariant numLanes == |BikingLanes(m.lanes[..i])|
      invariant onBikeLanes == Seeded(BikeLaneParents(m.lanes[..i]))
      invariant intersectionsOn == Seeded(BikeLaneSources(m.lanes[..i]))
    {
      SeedStep(m.lanes, i);
      var l := m.lanes[i];
      if l.IsBiking() {
        onBikeLanes := Add(onBikeLanes, l.parent, 0);
        intersectionsOn := Add(intersectionsOn, l.srcI, 0);
        intersectionsOn := Add(intersectionsOn, l.srcI, 0);
        numLanes := numLanes + 1;
      }
    }
    assert m.lanes[..|m.lanes|] == m.lanes;

    // Road throughput, split by whether the road has a bike lane.
    for j := 0 to |sim.roadThruput|
      invariant (onBikeLanes, offBikeLanes) ==
                Classify(sim.roadThruput[..j], Seeded(BikeLaneParents(m.lanes)), map[], BikeLaneRoads(m))
    {
      ClassifyPrefix(sim.roadThruput, j, Seeded(BikeLaneParents(m.lanes)), map[], BikeLaneRoads(m));
      var rec := sim.roadThruput[j];
      if rec.mode == Bike {
        if m.roads[rec.key].HasBikeLane() {
          onBikeLanes := Add(onBikeLanes, rec.key, rec.count);
        } else {
          offBikeLanes := Add(offBikeLanes, rec.key, rec.count);
        }
      }
    }
    assert sim.roadThruput[..|sim.roadThruput|] == sim.roadThruput;

    // Intersection throughput, binned by the finished road counter.
    for j := 0 to |sim.intersectionThruput|
      invariant (intersectionsOn, intersectionsOff) ==
                Classify(sim.intersectionThruput[..j], Seeded(BikeLaneSources(m.lanes)), map[],
                         CountedRoadIntersections(m, onBikeLanes))
    {
      ClassifyPrefix(sim.intersectionThruput, j, Seeded(BikeLaneSources(m.lanes)), map[],
                     CountedRoadIntersections(m, onBikeLanes));
      var rec := sim.intersectionThruput[j];
      if rec.mode == Bike {
        if exists r :: r in m.intersections[rec.key].roads && Get(onBikeLanes, r) > 0 {
          intersectionsOn := Add(intersectionsOn, rec.key, rec.count);
        } else {
          intersectionsOff := Add(intersectionsOff, rec.key, rec.count);
        }
      }
    }
    assert sim.intersectionThruput[..|sim.intersectionThruput|] == sim.intersectionThruput;

    c := BikeCounters(numLanes, onBikeLanes, offBikeLanes, intersectionsOn, intersectionsOff);
  }
}
