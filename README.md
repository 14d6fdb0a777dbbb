# Map layers and building drawables, modelled in Dafny

This project models two pieces of a map-overlay renderer.

**The map layers** (`game/src/layer/map.rs`). The "bike network" layer counts bike
throughput. It first seeds counters, at 0, with the parent road and the source
intersection of every bike lane. It then splits the Bike-mode road throughput into
"on bike lanes" and "off bike lanes" by the road's lane types. Last, it bins the Bike-mode
intersection throughput as "on" when some connected road already has a positive
"on" count. The layer keeps the simulation time it was built at and rebuilds itself
wholesale whenever that time changes. The static layers (bus network, map edits,
amenities) run one tagging pass over the map when they are built and never rebuild.
Every layer draws its panel, then its unzoomed or zoomed batch by a single zoom
comparison, and the minimap always shows the unzoomed batch.

**The building drawable** (`editor/src/render/building.rs`). A drawable copies a
building record's outline and optional front path. Drawing, hit-testing and the
bounding box all use that one stored outline. The tooltip is a header line followed
by the building's OSM tags.

Files:

- `option.dfy`, module `Options`: the `Option` datatype shared by both crates' models.
- `counter.dfy`, module `Counter`: the counter as a `map<K, nat>`. `Add` inserts or
  increments, so adding 0 makes a key present. `Get` reads an absent key as 0.
- `map_model.dfy`, module `MapModel`: lanes, roads, intersections, buildings, bus
  stops, map edits and the throughput records `(key, mode, bucket) -> count`.
- `bike_network.dfy`, module `BikeNetworkCounts`. `BikeCountersOf` is the
  specification of the whole counting pipeline. `ComputeBikeCounters` is its three
  loops, proved equal to it. The lemmas state what the counters mean.
- `static_layers.dfy`, module `StaticLayers`: the tagging passes of `bus_network`,
  `edits` and `amenities`. Each is a loop method proved equal to a specification
  function, with lemmas on that function.
- `layer.dfy`, module `Layers`: the classes `BikeNetwork` and `Static`, with their
  construction, event handling, naming and drawing.
- `building.dfy`, module `RenderBuilding`: `DrawBuilding` and its operations, all
  pure.

The seeding loop adds a bike lane's `src_i` twice (`game/src/layer/map.rs:62-63`) and
never its `dst_i`, so a bike lane's destination intersection is never seeded. The model
does the same, and `DestinationNotSeeded` states the consequence.

## Model

| member | source | states |
|---|---|---|
| `Counter.Get` | game/src/layer/map.rs:90 | an absent key reads as 0; a present key reads its total |
| `Counter.Add` | game/src/layer/map.rs:61-63 | the key becomes present, its total grows by the amount and no other key changes, so adding 0 seeds a key |
| `Counter.AddZeroSeeds` | game/src/layer/map.rs:61-63 | seeding with 0 makes the key present without changing its total, and seeding it twice is the same as once |
| `MapModel.DistinctCount` | game/src/layer/map.rs:274-283 | the `.len()` of a map or set listed by a sequence: the number of distinct entries, at most the sequence's length and equal to it when no entry repeats |
| `BikeNetworkCounts.BikeOnly` | game/src/layer/map.rs:70-71 | the filtered records are all of mode Bike, every Bike record of the input is kept, and nothing else is |
| `BikeNetworkCounts.Seeded` | game/src/layer/map.rs:58-66 | the seeded counter holds exactly the given keys, each at 0 |
| `BikeNetworkCounts.ClassifyTotals` | game/src/layer/map.rs:70-97 | in one binning pass each key's Bike total, summed over time buckets, is added to exactly one counter: "on" iff the key is in the "on" set |
| `BikeNetworkCounts.ClassifyKeys` | game/src/layer/map.rs:70-97 | after one binning pass, a key is present in "on" iff it was seeded or some Bike record names it and it is in the "on" set, and present in "off" iff it was there before or a Bike record names it and it is not in the "on" set |
| `BikeNetworkCounts.ClassifyIgnoresOtherModes` | game/src/layer/map.rs:70-71 | dropping every non-Bike record leaves the result of a binning pass unchanged |
| `BikeNetworkCounts.ComputeBikeCounters` | game/src/layer/map.rs:51-97 | the seeding loop, the road loop and the intersection loop compute exactly `BikeCountersOf`: the lane count, the two road counters and the two intersection counters |
| `BikeNetworkCounts.CounterKeys` | game/src/layer/map.rs:58-97 | the keys of all four counters: "on" roads are the bike-lane parents plus the bike-lane roads with Bike records; "off" roads are the other roads with Bike records; "on" intersections are the bike-lane sources plus the Bike-recorded intersections touching a counted road; "off" intersections are the remaining Bike-recorded intersections |
| `BikeNetworkCounts.SeedingKeepsBikeLanesVisible` | game/src/layer/map.rs:58-66 | the parent road of every biking lane is a key of the "on" road counter, and its source intersection is a key of the "on" intersection counter |
| `BikeNetworkCounts.DestinationNotSeeded` | game/src/layer/map.rs:59-66 | an intersection that is the source of no biking lane and has no Bike throughput is in neither intersection counter, even when it is a biking lane's destination |
| `BikeNetworkCounts.RoadThroughputPartition` | game/src/layer/map.rs:69-79 | a road's Bike total goes wholly to "on bike lanes" iff some forward or backward lane type is Biking, and otherwise wholly to "off bike lanes"; the other counter reads 0 |
| `BikeNetworkCounts.RoadCountersExact` | game/src/layer/map.rs:52-79 | both road counters in closed form: their exact keys, each road at its Bike total (a seeded road with no bike lane at 0) |
| `BikeNetworkCounts.IntersectionBinning` | game/src/layer/map.rs:81-97 | an intersection's Bike total goes to "on" iff some connected road has a strictly positive total in the finished "on bike lanes" counter, and otherwise to "off" |
| `BikeNetworkCounts.OnlyBikeRecordsMatter` | game/src/layer/map.rs:69-97 | removing all non-Bike road and intersection records changes none of the counters |
| `BikeNetworkCounts.OnOffRoadsDisjoint` | game/src/layer/map.rs:58-79 | when every lane's type appears among its parent road's lane types, no road is a key of both road counters |
| `BikeNetworkCounts.SeedsAloneDoNotQualify` | game/src/layer/map.rs:84-91 | a counter that only holds seeds (all 0) makes no intersection count as touching a bike road, because the test is strictly greater than 0 |
| `BikeNetworkCounts.RoadPassMustComeFirst` | game/src/layer/map.rs:69-97 | ordering matters: with road A on a bike lane and road B not, intersection I joining them is binned "on" against the finished road counter, but would be binned "off" against the seeds-only counter that exists before the road pass |
| `BikeNetworkCounts.EndToEndExample` | game/src/layer/map.rs:69-79 | three roads with bike-lane flags [true, false, true] and Bike counts [10, 20, 5], plus an ignored Drive record, give "on" = {road 0: 10, road 2: 5} and "off" = {road 1: 20} exactly |
| `StaticLayers.BusLaneTagsExact` | game/src/layer/map.rs:231-235 | one "bus lanes" tag per bus lane, and a tag is present iff it is a "bus lanes" tag of some bus lane |
| `StaticLayers.BusNetworkTagsExact` | game/src/layer/map.rs:222-238 | the bus-network colourer tags exactly the bus lanes and the bus stops, and only with its two declared categories |
| `StaticLayers.BuildBusNetworkColorer` | game/src/layer/map.rs:224-238 | the two loops build exactly `BusNetworkColorer`: the bus-lane tags in lane order, then the bus-stop tags |
| `StaticLayers.EditsTagsExact` | game/src/layer/map.rs:256-265 | one tag per edit entry; every changed or reversed lane, changed intersection and speed-limit road is tagged, and every tag names such a lane, intersection or road; every tag has the single declared category |
| `StaticLayers.BuildEditsColorer` | game/src/layer/map.rs:251-265 | the three loops build exactly `EditsColorer`: lane tags for changed, then reversed lanes, then intersection tags, then road tags |
| `StaticLayers.RecognisedTagsExact` | game/src/layer/map.rs:309-315 | the per-amenity tags are all for this building, and a category is tagged iff some amenity's recognised type is that category |
| `StaticLayers.BuildingTagsExact` | game/src/layer/map.rs:307-319 | a building is tagged with the type of every recognised amenity; it gets "other" exactly once iff some amenity is unrecognised, otherwise not at all; a building without amenities gets no tag |
| `StaticLayers.AmenityTagsDeclared` | game/src/layer/map.rs:289-319 | if every recognised type is a declared category, every amenity tag names a declared category |
| `StaticLayers.AmenityTagsPerBuilding` | game/src/layer/map.rs:307-319 | a tag comes out of the amenities pass iff some building receives it in its own per-building pass |
| `StaticLayers.BuildAmenitiesColorer` | game/src/layer/map.rs:290-319 | the nested loops build exactly `AmenitiesColorer`: per building, its recognised tags in order, then "other" iff an amenity was unrecognised |
| `Layers.RankedSource` | game/src/layer/map.rs:137-142 | the colourer ranks the "on bike lanes" road counter on the green gradient, then the "off" one on the red; the intersection counters likewise |
| `Layers.RankedTotals` | game/src/layer/map.rs:137-142 | in each road ranking a road carries its whole Bike total iff the ranking is green exactly when the road has a bike lane, and 0 otherwise; an intersection likewise, green exactly when a connected road has a positive "on" total |
| `Layers.DrawLayer` | game/src/layer/map.rs:37-44 | the panel is drawn first, then the unzoomed batch when the camera zoom is below the detail threshold and the zoomed batch otherwise |
| `Layers.DrawThreshold` | game/src/layer/map.rs:39-43 | the batch choice is one threshold: once the zoomed batch is shown at some zoom, it is shown at every larger zoom |
| `Layers.BikeNetwork.constructor` | game/src/layer/map.rs:51-150 | the layer records the simulation time and holds the panel and both batches built from `BikeCountersOf` |
| `Layers.BikeNetwork.Name` | game/src/layer/map.rs:22-24 | the name is always "bike network" |
| `Layers.BikeNetwork.Event` | game/src/layer/map.rs:25-36 | the layer is rebuilt from the current map and simulation iff the simulation time differs from the build time, and is otherwise left unchanged; afterwards the build time equals the simulation time; the panel's outcome is returned |
| `Layers.BikeNetwork.EventTwice` | game/src/layer/map.rs:31-33 | two events at the same simulation time have the effect of one: the second never rebuilds |
| `Layers.BikeNetwork.Draw` | game/src/layer/map.rs:37-44 | drawing is `DrawLayer` over this layer's panel and batches |
| `Layers.BikeNetwork.DrawMinimap` | game/src/layer/map.rs:45-47 | the minimap always redraws the unzoomed batch |
| `Layers.Static.constructor` | game/src/layer/map.rs:186-220 | both batches are built from the finished colourer, the panel carries the title, the extra text and the colourer's legend, and the name is stored |
| `Layers.Static.BusNetwork` | game/src/layer/map.rs:222-248 | a fresh "bus network" layer whose batches come from the bus-network tags |
| `Layers.Static.Edits` | game/src/layer/map.rs:250-287 | a fresh "map edits" layer whose batches come from the edit tags, titled "Map edits (" + edits name + ")", its panel listing the number of distinct changed lane types, reversed lanes, speed-limit changes and changed intersections, in that order |
| `Layers.Static.Amenities` | game/src/layer/map.rs:289-329 | a fresh "amenities" layer whose batches come from the amenity tags |
| `Layers.Static.Name` | game/src/layer/map.rs:161-163 | the name is the one stored at construction |
| `Layers.Static.Event` | game/src/layer/map.rs:164-171 | the event only reaches the panel: the batches are never modified, and the panel's outcome is returned |
| `Layers.Static.Draw` | game/src/layer/map.rs:172-179 | drawing is `DrawLayer` over this layer's panel and batches |
| `Layers.Static.DrawMinimap` | game/src/layer/map.rs:180-182 | the minimap always redraws the unzoomed batch |
| `RenderBuilding.NewDrawBuilding` | editor/src/render/building.rs:21-30 | the id is the record's id; the outline has the record's length, each entry is [x, y] of the corresponding point in the same order; the front path is present iff the record's is, laid out as [start x, start y, end x, end y] |
| `RenderBuilding.RecordRoundTrip` | editor/src/render/building.rs:21-30 | the record's points and front path can be read back unchanged from the drawable |
| `RenderBuilding.Draw` | editor/src/render/building.rs:33-41 | the front path, if any, is drawn first as a round line of the fixed green colour and radius 1, then the stored outline is filled with the given colour |
| `RenderBuilding.ContainsPt` | editor/src/render/building.rs:43-45 | hit-testing is the point-in-polygon test on the outline that `Draw` fills, whatever the fill colour |
| `RenderBuilding.GetBbox` | editor/src/render/building.rs:56-58 | the bounding box is computed from the single outline that `Draw` fills, whatever the fill colour |
| `RenderBuilding.FrontPathIgnoredByHitTest` | editor/src/render/building.rs:43-58 | two drawables that differ only in their front path give the same hit-test answer and the same bounding box |
| `RenderBuilding.HitTestMatchesDrawing` | editor/src/render/building.rs:33-58 | hit-testing and the bounding box use exactly the outline that is filled when drawing, and that outline is the record's points |
| `RenderBuilding.TooltipLines` | editor/src/render/building.rs:47-54 | the tooltip has 1 + (number of tags) lines: the header from the drawable's id and the record's OSM way, then each tag in its original order |
| `RenderBuilding.TooltipRoundTrip` | editor/src/render/building.rs:47-54 | for a drawable built from the map's own record, the header names that record and the lines after it give back exactly its tags |

## Left out

- `editor/src/render/pedestrian.rs` is not part of this model. Its substance is floating-point geometry (the radius, the arrow projection and angle), GPU upload and colour-scheme lookups, behind an external blinker gate.
- The total bike-lane distance (`total_dist`, `describe_rounded`) is floating-point arithmetic and formatting, so it is left out of the counters and the panel.
- Panel and widget construction, svg loading and all graphics-context calls are left out. A panel is recorded by what it shows, and a draw call by what it draws. Of the `format!` texts only the map-edits title, "Map edits (" + edits name + ")", is modelled literally (`Layers.Static.Edits`). The four edit-count lines are kept as their numbers (`EditCounts`), the bike-network panel as its lane count, and the tooltip header as an opaque `Header(id, osm way)` value.
- The ranking in the network colourer, and the discrete colourer's `build` and legend, are not shown in the source. A batch records the counters or the colourer it was built from, and the legend is the declared category list.
- Point-in-polygon and the bounding-box computation are library functions. They are parameters here, so only which outline they receive is modelled.
- `Layer::simple_event` is not shown: its outcome is a parameter, the panel's own UI state is not modelled, and `LayerOutcome` has only `Close`.
- `amenity_type` is not shown, so the amenity classifier is a parameter.
- Camera zoom and simulation time are reals compared with `<` and `!=`; floating-point NaN is not modelled.
- The map's ordered maps and sets (throughput tables, bus stops, edits, amenities) are sequences in their iteration order. Their keys are not required to be distinct: no property of the counters or the tags depends on that, and the edits panel counts distinct entries (`DistinctCount`), as the source's `.len()` of a map or set does.
- ComputeBikeCounters: the lane count and the counters are unbounded `nat`. The source accumulates `usize` (`game/src/layer/map.rs:64`, 74, 76, 92 and 94), which could overflow on absurdly large inputs; that overflow is not modelled.
- A `get_r` or `get_i` lookup of a missing id panics in the source. `ComputeBikeCounters` and `BikeNetwork` construction instead require that every Bike-mode record names an existing road or intersection (`ThruputResolvable`).
- TooltipLines: `map.get_b(self.id)` (`editor/src/render/building.rs:48`) panics on a missing building. The model instead requires that the drawable's id is a building of the map.
- BuildingTagsExact: the "other exactly once" claim assumes the amenity classifier never returns the category "other" itself, because `amenity_type` is not shown.
- AmenityTagsDeclared: holds only if the amenity classifier returns declared categories, because `amenity_type` is not shown.
- The colourer's strict-mode failure on an undeclared category is not modelled. Its code is not part of this model; the passes are instead proved never to produce such a tag (conditionally for amenities).
