/** `parseProperties` (makeCurrentGeoJSON.py:114-177): one attribute record
    to the property dictionary of its feature. */
module Normalize {
  import opened Results
  import opened Strings
  import opened Features
  import opened Records
  import opened Wind
  import opened Timestamps

  /** The forecast's "no pressure" value of `MSLP`. */
  const MissingPressure := "9999.0"

  /** The properties every polygon carries, and nothing else. */
  const PolygonKeys: set<string> := {"storm", "remnant_flag", "fcstpd", "cat"}

  /** The properties every point carries, and nothing else. */
  const PointKeys: set<string> :=
    {"storm", "remnant_flag", "source", "datetime", "pressure", "wind", "current", "cat"}

  /** What a point record measures before conversion: its timestamp, its
      pressure (`Null` when missing) and its wind in knots. */
  datatype Reading = Reading(datetime: string, pressure: Value, knots: int)

  /** The forecast pressure (makeCurrentGeoJSON.py:148-151): `Null` exactly
      for the missing value "9999.0", otherwise the millibars before the
      first '.'. */
  function ForecastPressure(p: Attributes): (r: Result<Value>)
    ensures r.Ok? ==> "MSLP" in p && (r.value == Null <==> p["MSLP"] == MissingPressure)
    ensures r.Ok? && r.value != Null ==> r.value.Number? && StrToInt(p["MSLP"]) == Ok(r.value.number)
    ensures r.Err? <==> "MSLP" !in p || (p["MSLP"] != MissingPressure && StrToInt(p["MSLP"]).Err?)
    ensures "MSLP" !in p ==> r == Err(MissingField("MSLP"))
    ensures "MSLP" in p && StrToInt(p["MSLP"]).Err? && p["MSLP"] != MissingPressure ==>
              r == Err(StrToInt(p["MSLP"]).error)
  {
    var mslp :- Field(p, "MSLP");
    if mslp == MissingPressure then Ok(Null)
    else
      var millibars :- StrToInt(mslp);
      Ok(Number(millibars))
  }

  /** Timestamp, pressure and wind of a forecast point (lines 133-153), read
      in the order the source reads them. */
  function ForecastReading(p: Attributes, index: nat, parse: DateParser): (r: Result<Reading>)
    ensures r.Ok? <==> ForecastTimestamp(p, index, parse).Ok? && ForecastPressure(p).Ok? && IntField(p, "MAXWIND").Ok?
    // the errors come in reading order: timestamp, then pressure, then wind
    ensures ForecastTimestamp(p, index, parse).Err? ==> r == Err(ForecastTimestamp(p, index, parse).error)
    ensures ForecastTimestamp(p, index, parse).Ok? && ForecastPressure(p).Err? ==> r == Err(ForecastPressure(p).error)
    ensures ForecastTimestamp(p, index, parse).Ok? && ForecastPressure(p).Ok? && IntField(p, "MAXWIND").Err? ==>
              r == Err(IntField(p, "MAXWIND").error)
    ensures r.Ok? ==> && ForecastTimestamp(p, index, parse) == Ok(r.value.datetime)
                      && ForecastPressure(p) == Ok(r.value.pressure)
                      && IntField(p, "MAXWIND") == Ok(r.value.knots)
  {
    var datetime :- ForecastTimestamp(p, index, parse);
    var pressure :- ForecastPressure(p);
    var knots :- IntField(p, "MAXWIND");
    Ok(Reading(datetime, pressure, knots))
  }

  /** Timestamp, pressure and wind of a historical point (lines 159-167):
      the pressure is always a number. */
  function HistoricalReading(p: Attributes): (r: Result<Reading>)
    ensures r.Ok? ==> && HistoricalTimestamp(p) == Ok(r.value.datetime)
                      && r.value.pressure.Number? && IntField(p, "MSLP") == Ok(r.value.pressure.number)
                      && IntField(p, "INTENSITY") == Ok(r.value.knots)
    ensures r.Err? <==> HistoricalTimestamp(p).Err? || IntField(p, "MSLP").Err? || IntField(p, "INTENSITY").Err?
    // the errors come in reading order: timestamp, then pressure, then wind
    ensures HistoricalTimestamp(p).Err? ==> r == Err(HistoricalTimestamp(p).error)
    ensures HistoricalTimestamp(p).Ok? && IntField(p, "MSLP").Err? ==> r == Err(IntField(p, "MSLP").error)
    ensures HistoricalTimestamp(p).Ok? && IntField(p, "MSLP").Ok? && IntField(p, "INTENSITY").Err? ==>
              r == Err(IntField(p, "INTENSITY").error)
  {
    var datetime :- HistoricalTimestamp(p);
    var millibars :- IntField(p, "MSLP");
    var knots :- IntField(p, "INTENSITY");
    Ok(Reading(datetime, Number(millibars), knots))
  }

  function PointReading(p: Attributes, prov: Provenance, index: nat, parse: DateParser): Result<Reading> {
    if prov == Forecast then ForecastReading(p, index, parse) else HistoricalReading(p)
  }

  /** The properties of a polygon record (lines 118-123): storm, remnant
      flag, forecast period and the raw storm type, and no source. */
  function PolygonProperties(p: Attributes, storm: string, remnant: bool): (r: Result<Properties>)
    ensures r.Ok? <==> "FCSTPRD" in p && "STORMTYPE" in p
    // FCSTPRD is read first, so its absence is the error reported
    ensures "FCSTPRD" !in p ==> r == Err(MissingField("FCSTPRD"))
    ensures "FCSTPRD" in p && "STORMTYPE" !in p ==> r == Err(MissingField("STORMTYPE"))
    ensures r.Ok? ==> && r.value.Keys == PolygonKeys
                      && r.value["storm"] == Text(storm) && r.value["remnant_flag"] == Flag(remnant)
                      && r.value["fcstpd"] == Text(p["FCSTPRD"])
                      && r.value["cat"] == Text(p["STORMTYPE"])
  {
    var period :- Field(p, "FCSTPRD");
    var stormType :- Field(p, "STORMTYPE");
    Ok(map["storm" := Text(storm), "remnant_flag" := Flag(remnant),
           "fcstpd" := Text(period), "cat" := Text(stormType)])
  }

  /** The properties of a point record (lines 118-119, 125-176). */
  function PointProperties(p: Attributes, prov: Provenance, storm: string, remnant: bool,
                           index: nat, parse: DateParser): (r: Result<Properties>)
    ensures r.Ok? <==> PointReading(p, prov, index, parse).Ok? && "STORMTYPE" in p
    ensures PointReading(p, prov, index, parse).Err? ==> r == Err(PointReading(p, prov, index, parse).error)
    ensures PointReading(p, prov, index, parse).Ok? && "STORMTYPE" !in p ==> r == Err(MissingField("STORMTYPE"))
    ensures r.Ok? ==>
              var reading := PointReading(p, prov, index, parse).value;
              && r.value.Keys == PointKeys
              && r.value["storm"] == Text(storm) && r.value["remnant_flag"] == Flag(remnant)
              && r.value["source"] == Text(Tag(prov))
              // the first forecast point is the current position, no other point is
              && r.value["current"] == Flag(prov == Forecast && index == 0)
              && r.value["datetime"] == Text(reading.datetime)
              && r.value["pressure"] == reading.pressure
              // the stored wind is in mph, the category is taken from the knots
              && r.value["wind"] == Number(KnotsToMph(reading.knots))
              && r.value["cat"] == Text(Category(p["STORMTYPE"], reading.knots))
  {
    var reading :- PointReading(p, prov, index, parse);
    var stormType :- Field(p, "STORMTYPE");
    Ok(PointMap(storm, remnant, prov, index, reading, stormType))
  }

  /** The dictionary `o` a point record ends with. Its ensures only spell
      out the body key by key, so that `PointProperties` is proved without
      unfolding the map; `PointProperties` states what the keys mean. */
  function PointMap(storm: string, remnant: bool, prov: Provenance, index: nat,
                    reading: Reading, stormType: string): (o: Properties)
    ensures o.Keys == PointKeys
    ensures && o["storm"] == Text(storm) && o["remnant_flag"] == Flag(remnant)
            && o["source"] == Text(Tag(prov))
            && o["current"] == Flag(prov == Forecast && index == 0)
            && o["datetime"] == Text(reading.datetime)
            && o["pressure"] == reading.pressure
            && o["wind"] == Number(KnotsToMph(reading.knots))
            && o["cat"] == Text(Category(stormType, reading.knots))
  {
    var o := map["storm" := Text(storm), "remnant_flag" := Flag(remnant),
                 "source" := Text(Tag(prov)),
                 "datetime" := Text(reading.datetime),
                 "pressure" := reading.pressure,
                 "wind" := Number(KnotsToMph(reading.knots)),
                 "current" := Flag(prov == Forecast && index == 0),
                 "cat" := Text(Category(stormType, reading.knots))];
    assert o.Keys == PointKeys;
    o
  }

  /** `parseProperties` (makeCurrentGeoJSON.py:114-177): the output
      properties of record number `index` of a layer. */
  function ParseProperties(p: Attributes, prov: Provenance, comp: Component, storm: string,
                           remnant: bool, index: nat, parse: DateParser): (r: Result<Properties>)
    ensures comp == Polygons ==> (r.Ok? <==> "FCSTPRD" in p && "STORMTYPE" in p)
    ensures comp == Points ==> (r.Ok? <==> PointReading(p, prov, index, parse).Ok? && "STORMTYPE" in p)
    ensures comp == Points && PointReading(p, prov, index, parse).Err? ==>
              r == Err(PointReading(p, prov, index, parse).error)
    ensures r.Ok? && comp == Polygons ==> r.value.Keys == PolygonKeys
    ensures r.Ok? && comp == Points ==> r.value.Keys == PointKeys
    ensures r.Ok? ==> && "storm" in r.value && r.value["storm"] == Text(storm)
                      && "remnant_flag" in r.value && r.value["remnant_flag"] == Flag(remnant)
    ensures r.Ok? ==> ("source" in r.value <==> comp == Points)
    ensures r.Ok? && comp == Points ==> r.value["source"] == Text(Tag(prov))
  {
    match comp
    case Polygons => PolygonProperties(p, storm, remnant)
    case Points => PointProperties(p, prov, storm, remnant, index, parse)
  }
}
