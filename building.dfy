/** The editor's drawable for a building: a copy of the building record's outline and
    optional front path, plus the tooltip built from the map's record. Coordinates are
    only copied, never computed on. */
module RenderBuilding {
  import opened Options

  datatype BuildingID = BuildingID(n: nat)

  datatype Pt2D = Pt2D(x: real, y: real)

  /** A building record of the map. */
  datatype Building = Building(
    id: BuildingID,
    points: seq<Pt2D>,
    frontPath: Option<(Pt2D, Pt2D)>,
    osmWayId: int,
    osmTags: seq<string>)

  datatype Map = Map(buildings: map<BuildingID, Building>)

  type Vec2d = (real, real)

  /** A front path as a flat [start x, start y, end x, end y] line. */
  type Line4 = (real, real, real, real)

  type Color = (real, real, real, real)

  datatype DrawBuilding = DrawBuilding(id: BuildingID, polygon: seq<Vec2d>, frontPath: Option<Line4>)

  /** One line of a tooltip: the header naming the building and its OSM way (its exact
      wording is not modelled), or one OSM tag. */
  datatype TooltipLine = Header(building: BuildingID, osmWayId: int) | TagLine(text: string)

  /** A graphics call issued by `Draw`. */
  datatype GfxCall = RoundLine(color: Color, radius: real, line: Line4) | FillPolygon(color: Color, points: seq<Vec2d>)

  const FrontPathColor: Color := (0.0, 0.6, 0.0, 1.0)
  const FrontPathRadius: real := 1.0

  /** Copies the record: the outline point by point, in order, and the front path, if
      any, flattened to four coordinates. */
  function NewDrawBuilding(b: Building): (d: DrawBuilding)
    ensures d.id == b.id
    ensures |d.polygon| == |b.points|
    ensures forall i :: 0 <= i < |b.points| ==> d.polygon[i] == (b.points[i].x, b.points[i].y)
    ensures d.frontPath.Some? <==> b.frontPath.Some?
    ensures b.frontPath.Some? ==>
              var (start, end) := b.frontPath.value;
              d.frontPath.value == (start.x, start.y, end.x, end.y)
  {
    DrawBuilding(
      b.id,
      seq(|b.points|, i requires 0 <= i < |b.points| => (b.points[i].x, b.points[i].y)),
      match b.frontPath
      case None => None
      case Some(pair) => Some((pair.0.x, pair.0.y, pair.1.x, pair.1.y)))
  }

  /** The points a drawable's outline stands for. */
  function OutlinePoints(d: DrawBuilding): seq<Pt2D>
  {
    seq(|d.polygon|, i requires 0 <= i < |d.polygon| => Pt2D(d.polygon[i].0, d.polygon[i].1))
  }

  /** The segment a drawable's front path stands for. */
  function FrontPathPoints(d: DrawBuilding): Option<(Pt2D, Pt2D)>
  {
    match d.frontPath
    case None => None
    case Some(l) => Some((Pt2D(l.0, l.1), Pt2D(l.2, l.3)))
  }

  /** Nothing is lost in the copy: the record's outline and front path can be read back. */
  lemma RecordRoundTrip(b: Building)
    ensures OutlinePoints(NewDrawBuilding(b)) == b.points
    ensures FrontPathPoints(NewDrawBuilding(b)) == b.frontPath
  {
    var d := NewDrawBuilding(b);
    assert forall i :: 0 <= i < |b.points| ==> OutlinePoints(d)[i] == b.points[i];
  }

  /** The front path as a rounded green line, if there is one, then the outline filled
      with `color`. */
  function Draw(d: DrawBuilding, color: Color): (calls: seq<GfxCall>)
    ensures |calls| == if d.frontPath.Some? then 2 else 1
    ensures calls[|calls| - 1] == FillPolygon(color, d.polygon)
    ensures d.frontPath.Some? ==> calls[0] == RoundLine(FrontPathColor, FrontPathRadius, d.frontPath.value)
  {
    (match d.frontPath
     case Some(line) => [RoundLine(FrontPathColor, FrontPathRadius, line)]
     case None => []) +
    [FillPolygon(color, d.polygon)]
  }

  /** Hit-testing: the point-in-polygon test (not modelled) applied to the stored outline. */
  function ContainsPt(d: DrawBuilding, x: real, y: real, pointInPolygon: (real, real, seq<Vec2d>) -> bool)
    : (hit: bool)
    ensures forall color :: hit == pointInPolygon(x, y, Draw(d, color)[|Draw(d, color)| - 1].points)
  {
    pointInPolygon(x, y, d.polygon)
  }

  /** The bounding box (computation not modelled) of the stored outline alone. */
  function GetBbox<R>(d: DrawBuilding, bboxForPolygons: seq<seq<Vec2d>> -> R): (bbox: R)
    ensures forall color :: bbox == bboxForPolygons([Draw(d, color)[|Draw(d, color)| - 1].points])
  {
    bboxForPolygons([d.polygon])
  }

  /** Hit-testing and the bounding box use exactly the outline that is drawn, which is
      the record's outline. */
  lemma HitTestMatchesDrawing<R>(b: Building, color: Color, x: real, y: real,
                                 pointInPolygon: (real, real, seq<Vec2d>) -> bool,
                                 bboxForPolygons: seq<seq<Vec2d>> -> R)
    ensures var d := NewDrawBuilding(b);
            var calls := Draw(d, color);
            && calls[|calls| - 1].FillPolygon?
            && ContainsPt(d, x, y, pointInPolygon) == pointInPolygon(x, y, calls[|calls| - 1].points)
            && GetBbox(d, bboxForPolygons) == bboxForPolygons([calls[|calls| - 1].points])
            && |calls[|calls| - 1].points| == |b.points|
            && forall i :: 0 <= i < |b.points| ==>
                 calls[|calls| - 1].points[i] == (b.points[i].x, b.points[i].y)
  {
  }

  /** Hit-testing and the bounding box ignore the front path: a drawable that differs
      only in its front path answers both the same. */
  lemma FrontPathIgnoredByHitTest<R>(d: DrawBuilding, fp: Option<Line4>, x: real, y: real,
                                     pointInPolygon: (real, real, seq<Vec2d>) -> bool,
                                     bboxForPolygons: seq<seq<Vec2d>> -> R)
    ensures ContainsPt(d.(frontPath := fp), x, y, pointInPolygon) == ContainsPt(d, x, y, pointInPolygon)
    ensures GetBbox(d.(frontPath := fp), bboxForPolygons) == GetBbox(d, bboxForPolygons)
  {
  }

  /** The header line from the drawable's id and the record's OSM way, then every OSM
      tag of the record, in order. */
  function TooltipLines(d: DrawBuilding, m: Map): (lines: seq<TooltipLine>)
    requires d.id in m.buildings
    ensures var b := m.buildings[d.id];
            && |lines| == 1 + |b.osmTags|
            && lines[0] == Header(d.id, b.osmWayId)
            && forall i :: 0 <= i < |b.osmTags| ==> lines[i + 1] == TagLine(b.osmTags[i])
  {
    var b := m.buildings[d.id];
    [Header(d.id, b.osmWayId)] + seq(|b.osmTags|, i requires 0 <= i < |b.osmTags| => TagLine(b.osmTags[i]))
  }

  /** The tag texts that follow the header. */
  function TagsOf(lines: seq<TooltipLine>): seq<string>
    requires |lines| >= 1
  {
    seq(|lines| - 1, i requires 0 <= i < |lines| - 1 =>
      match lines[i + 1] case TagLine(t) => t case Header(_, _) => "")
  }

  /** The tooltip of a drawable built from a map's record names that record and
      carries exactly its tags, in their original order. */
  lemma TooltipRoundTrip(b: Building, m: Map)
    requires b.id in m.buildings && m.buildings[b.id] == b
    ensures var lines := TooltipLines(NewDrawBuilding(b), m);
            lines[0] == Header(b.id, b.osmWayId) && TagsOf(lines) == b.osmTags
  {
    var lines := TooltipLines(NewDrawBuilding(b), m);
    assert forall i :: 0 <= i < |b.osmTags| ==> TagsOf(lines)[i] == b.osmTags[i];
  }
}
