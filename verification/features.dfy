/** GeoJSON features as the conversion produces them, and the track
    segmentation of `parseSHP` (makeCurrentGeoJSON.py:196-206). */
module Features {

  /** The GeoJSON geometry types a shapefile shape can map to. */
  datatype GeoType = Point | MultiPoint | LineString | MultiLineString | Polygon | MultiPolygon

  /** GeoJSON `coordinates`: one position or a nested list of them. The
      conversion never looks inside; it only copies them. */
  datatype Coordinates = Position(values: seq<real>) | Nested(items: seq<Coordinates>)

  datatype Geometry = Geometry(kind: GeoType, coordinates: Coordinates)

  /** A property value of the output dictionary: a string, a boolean, an
      integer or Python's `None`. */
  datatype Value = Text(text: string) | Flag(flag: bool) | Number(number: int) | Null

  /** The property dictionary of one feature, keyed by property name. */
  type Properties = map<string, Value>

  datatype Feature = Feature(geometry: Geometry, properties: Properties)

  /** The two-point line from `a` to `b`, carrying `a`'s properties
      (makeCurrentGeoJSON.py:200-204). */
  function Connect(a: Feature, b: Feature): Feature {
    Feature(Geometry(LineString, Nested([a.geometry.coordinates, b.geometry.coordinates])), a.properties)
  }

  /** One line per pair of consecutive points, in track order. */
  function TrackLines(points: seq<Feature>): (lines: seq<Feature>)
    ensures |lines| == if |points| == 0 then 0 else |points| - 1
    ensures forall i {:trigger lines[i], points[i]} :: 0 <= i < |lines| ==> lines[i] == Connect(points[i], points[i + 1])
  {
    if |points| < 2 then [] else [Connect(points[0], points[1])] + TrackLines(points[1..])
  }

  /** The point component after segmentation: every line, in ascending
      order of its first point, followed by the points unchanged. */
  function Segment(points: seq<Feature>): (r: seq<Feature>)
    ensures |r| == |points| + (if |points| == 0 then 0 else |points| - 1)
    ensures forall i {:trigger points[i]} :: 0 <= i < |points| ==> r[|r| - |points| + i] == points[i]
    ensures forall i {:trigger r[i], points[i]} :: 0 <= i < |r| - |points| ==>
              && r[i].geometry.kind == LineString
              && r[i].geometry.coordinates == Nested([points[i].geometry.coordinates, points[i + 1].geometry.coordinates])
              && r[i].properties == points[i].properties
  {
    var lines := TrackLines(points);
    forall i | 0 <= i < |lines|
      ensures (lines + points)[i].geometry.kind == LineString
      ensures (lines + points)[i].geometry.coordinates == Nested([points[i].geometry.coordinates, points[i + 1].geometry.coordinates])
      ensures (lines + points)[i].properties == points[i].properties
    {
      assert (lines + points)[i] == lines[i] == Connect(points[i], points[i + 1]);
    }
    lines + points
  }

  /** Three points P0, P1, P2 give line(P0, P1), line(P1, P2), P0, P1, P2;
      a single point gives no line. */
  lemma SegmentExample(p0: Feature, p1: Feature, p2: Feature)
    ensures Segment([p0, p1, p2]) == [Connect(p0, p1), Connect(p1, p2), p0, p1, p2]
    ensures Segment([p0]) == [p0]
  {
    var points := [p0, p1, p2];
    var lines := TrackLines(points);
    assert points[1] == p1 && points[2] == p2;
    assert lines[0] == Connect(p0, p1);
    assert lines[1] == Connect(p1, p2);
    assert lines == [Connect(p0, p1), Connect(p1, p2)];
  }
}
