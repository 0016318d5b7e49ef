/** Raw shapefile records: the geometry the shapefile reader decoded and the
    attribute values it read, keyed by field name. */
module Records {
  import opened Results
  import opened Strings
  import opened Features

  /** `dict(zip(shape_fields, shape_record.record))` (makeCurrentGeoJSON.py:192),
      every value taken as text. */
  type Attributes = map<string, string>

  datatype RawRecord = RawRecord(geometry: Geometry, attributes: Attributes)

  /** `p[name]`, raising KeyError on a missing attribute. */
  function Field(p: Attributes, name: string): (r: Result<string>)
    ensures r.Ok? <==> name in p
    ensures r.Ok? ==> r.value == p[name]
    ensures r.Err? ==> r.error == MissingField(name)
  {
    if name in p then Ok(p[name]) else Err(MissingField(name))
  }

  /** `strToInt(p[name])`. */
  function IntField(p: Attributes, name: string): (r: Result<int>)
    ensures name !in p ==> r == Err(MissingField(name))
    ensures name in p ==> r == StrToInt(p[name])
  {
    var s :- Field(p, name);
    StrToInt(s)
  }

  /** Where a shapefile comes from: the preliminary best track or the
      forecast advisory (the values of ITEMS_WANTED, line 26). */
  datatype Provenance = Historical | Forecast

  /** The shapefile layer: the forecast cone polygon ("pgn") or the track
      points ("pts"). */
  datatype Component = Polygons | Points

  /** The `source` property value of a point. */
  function Tag(prov: Provenance): string {
    match prov
    case Historical => "historical"
    case Forecast => "forecast"
  }

  /** COMPONENTS (line 27): the layers read from each kind of shapefile, in
      the order they are read. */
  function Components(prov: Provenance): seq<Component> {
    match prov
    case Historical => [Points]
    case Forecast => [Polygons, Points]
  }
}
