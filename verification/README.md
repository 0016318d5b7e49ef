# Hurricane track conversion: record-to-feature model

This project models, in Dafny, the part of `makeCurrentGeoJSON.py` that decides
things: how one attribute record of a National Hurricane Center shapefile becomes
the property dictionary of a GeoJSON feature (`parseProperties` with `strToInt`,
`convertKnotsToMiles` and `hurricaneNumber`), how a point layer gets track lines
in front of its points (`parseSHP`), and the data-quality gate
(`checkDataQuality`) run over all features of a feed.

Modules follow the script's structure:

- `Results`: `Option`, `Result`, and one `Error` constructor per exception the
  conversion can raise (KeyError, the ValueError of `int()` on malformed
  number text, the two ValueErrors of the advisory check, IndexError, a date
  the parser cannot read, an invalid `datetime`).
- `Strings`: Python's `split(...)[0]`, `strip`, `isdigit`, `int()`, `str()`, and `strToInt`.
- `Features`: GeoJSON geometry, property values, features and the track segmentation.
- `Records`: raw records (geometry plus an attribute map), the provenance
  (`historical`/`forecast`) and the layer (`pgn`/`pts`).
- `Wind`: the knots to mph conversion, the Saffir-Simpson number, and the category label.
- `Timestamps`: the advisory-hour check of the first forecast point, the
  forecast label time, and the `isoformat()` of a historical point.
- `Normalize`: `parseProperties`.
- `Layers`: one layer's records in order, the first failure aborting, and
  the point layer segmented.
- `Shapefile`: the layers of one shapefile in COMPONENTS order.
- `Quality`: `checkDataQuality`, with an independent one-pass scan proved equal to it.

Python's exceptions become `Err` values, so each operation is total. The date
parser (`dateparser.parse` followed by `.replace(tzinfo=None).isoformat()`) is a
function parameter `string -> Option<string>`. The contracts say exactly which
string is handed to it.

Where the code's behaviour is surprising, the model follows the code:

- For an `HU`/`MH` point with wind of 63 knots or less, the guard at line 171
  tests the function `hurricaneNumber` rather than its result. The guard is
  therefore always true, and the category is set to `"HNone"`. `Wind.Category`
  states this behaviour as written rather than omitting the category or
  falling back to the storm type.
- The quality gate demands that the set of observed `source` values is exactly
  `{historical, forecast}` (lines 39-41). A feed with only forecast points fails.
- The polygon forecast period `fcstpd` is stored as the raw attribute text,
  not as an integer (line 122).
- The advisory-hour comparison is textual. The hour token "900" becomes "9:00",
  which a label reading "09:00" does not match (`Timestamps.AdvisoryPaddingExample`).

## Model

| member | source | states |
|---|---|---|
| Strings.ParseInt | makeCurrentGeoJSON.py:93-94 | `int()` succeeds exactly on an optionally signed, non-empty digit string with surrounding whitespace; otherwise it fails with the offending text |
| Strings.StrToInt | makeCurrentGeoJSON.py:93-94 | `strToInt` succeeds exactly when the text before the first '.' is an integer literal; on text with no '.' it is plain `int()` |
| Strings.Before | makeCurrentGeoJSON.py:94 | `split(c)[0]` is a prefix of the text without `c`, followed in the text by a `c` unless it is the whole text |
| Strings.BeforeIs | makeCurrentGeoJSON.py:94 | any prefix free of `c` that ends at a `c` or at the end of the text is `split(c)[0]`: it is the longest `c`-free prefix |
| Strings.After | makeCurrentGeoJSON.py:138 | `split(c, 1)[1]` exists exactly when `c` occurs (Python raises IndexError otherwise), and the text is `split(c)[0]`, then `c`, then it |
| Strings.ParsePadded | makeCurrentGeoJSON.py:93-94 | `int()` of a natural number written with surrounding whitespace, an optional sign and any number of leading zeros is that number, negated for '-' |
| Strings.StrToIntWhole | makeCurrentGeoJSON.py:93-94 | for any text w without '.' and any text f, `strToInt(w + "." + f)` is `int(w)`: only the part before the first '.' is read |
| Strings.ZeroPaddedField | makeCurrentGeoJSON.py:162 | a zero-padded field such as MONTH "08", with or without a fractional part ("08.0"), reads as the number its digits spell |
| Strings.StrToIntTruncates | makeCurrentGeoJSON.py:93-94 | for every integer i and fractional text f, `strToInt(str(i) + "." + f)` and `strToInt(str(i))` are i: the fraction is dropped, never rounded |
| Strings.ParseShow | makeCurrentGeoJSON.py:93-94 | `int(str(i)) == i` for every integer |
| Strings.ValueDecimal | makeCurrentGeoJSON.py:172 | a digit string without a superfluous leading zero is what `str` writes for its value: the other half of the `str`/`int` round trip |
| Strings.PressureExample | makeCurrentGeoJSON.py:148-151 | the pressure text "987.0" reads as 987 millibars |
| Strings.WindExample | makeCurrentGeoJSON.py:153 | the wind text "63.0" reads as 63 knots |
| Wind.KnotsToMph | makeCurrentGeoJSON.py:96-97 | the mph value is a multiple of 5 within 2.5 mph of knots × 1.15078; an exact half goes away from zero; the sign follows the knots |
| Wind.RoundHalfAway | makeCurrentGeoJSON.py:97 | Python 2 `round(scaled / 500000)`: within one half of the quotient, an exact half going away from zero, the sign kept |
| Wind.KnotsToMphIsNearest | makeCurrentGeoJSON.py:96-97 | no other multiple of 5 is closer to knots × 1.15078 than the converted value |
| Wind.KnotsToMphMonotonic | makeCurrentGeoJSON.py:96-97 | more knots never give fewer mph |
| Wind.KnotsToMphOdd | makeCurrentGeoJSON.py:96-97 | the conversion is symmetric about zero |
| Wind.KnotsToMphExamples | makeCurrentGeoJSON.py:96-97 | 64, 83, 96, 113, 137, 70 and 150 knots convert to 75, 95, 110, 130, 160, 80 and 175 mph |
| Wind.HurricaneNumber | makeCurrentGeoJSON.py:99-112 | there is no number exactly for winds of 63 knots or less; otherwise the number is between 1 and 5 |
| Wind.HurricaneNumberCountsThresholds | makeCurrentGeoJSON.py:99-112 | the hurricane number equals how many of the thresholds 64, 83, 96, 113 and 137 knots the wind reaches |
| Wind.HurricaneNumberMonotonic | makeCurrentGeoJSON.py:99-112 | a stronger wind never gets a lower hurricane number |
| Wind.HurricaneBands | makeCurrentGeoJSON.py:99-112 | each number, and its absence, holds exactly on its band: ≤63, 64-82, 83-95, 96-112, 113-136, ≥137 |
| Wind.Category | makeCurrentGeoJSON.py:168-174 | a storm type other than HU/MH is kept unchanged; for HU/MH the label is "HNone" exactly when the knots are 63 or less, and "H" followed by the band digit otherwise |
| Wind.CategoryExamples | makeCurrentGeoJSON.py:168-174 | HU at 70 kt is "H1", MH at 150 kt is "H5", HU at 50 kt is "HNone", TS stays "TS" |
| Timestamps.ColonHour | makeCurrentGeoJSON.py:136 | the reformatted hour is the fragment with one ':' inserted before its last two characters |
| Timestamps.AdvisoryTimestamp | makeCurrentGeoJSON.py:133-144 | the errors come in the order the source raises them: a missing ADVDATE, then an hour token that is not 3-4 digits, then a missing DATELBL, then a reformatted hour that differs from the label's first token, then an ADVDATE with nothing after the hour; success holds exactly when the hours agree and the parser reads the advisory text, and the result is the parser's value |
| Timestamps.AgreeingAdvisoryParsed | makeCurrentGeoJSON.py:133-138 | when the hours agree, the timestamp is the parser's outcome on the reformatted hour followed by the rest of ADVDATE, parser failure included |
| Timestamps.AdvisoryExample | makeCurrentGeoJSON.py:133-138 | "0900 AM EDT" against the label "09:00" hands "09:00 AM EDT" to the parser |
| Timestamps.AdvisoryMismatchExample | makeCurrentGeoJSON.py:137-141 | "0900 AM EDT" against the label "10:00" is rejected as a mismatch of "09:00" and "10:00" |
| Timestamps.AdvisoryPaddingExample | makeCurrentGeoJSON.py:134-141 | "900 PM AST" against the label "09:00 PM" is rejected: "9:00" differs from "09:00" |
| Timestamps.AdvisoryFragmentExample | makeCurrentGeoJSON.py:134-144 | a two-digit hour token "11" is rejected before any comparison |
| Timestamps.ForecastTimestamp | makeCurrentGeoJSON.py:133-146 | the first forecast point uses the advisory check; later points use the parser's reading of FLDATELBL, whose absence is an error |
| Timestamps.IsoFormat | makeCurrentGeoJSON.py:162 | the ISO text is 19 characters "YYYY-MM-DDTHH:00:00", and each digit field reads back as its year, month, day and hour |
| Timestamps.HistoricalTimestamp | makeCurrentGeoJSON.py:162 | on success, the text is "YYYY-MM-DDTHH:00:00" with '-', '-' and 'T' at positions 4, 7 and 10, and the year, month and day fields and the first two characters of HHMM read back from the ISO text; when all four parse, success holds exactly for a valid calendar date and hour; a failure is the first in the order YEAR, MONTH, DAY, missing HHMM, its hour digits, then the invalid date |
| Timestamps.HistoricalIgnoresMinutes | makeCurrentGeoJSON.py:162 | records that differ only after the first two characters of HHMM get the same timestamp |
| Normalize.ForecastPressure | makeCurrentGeoJSON.py:148-151 | the pressure is null exactly for "9999.0"; otherwise it is `strToInt` of MSLP; it fails exactly on a missing MSLP, reported as such, or on an unparsable one, with `strToInt`'s error |
| Normalize.ForecastReading | makeCurrentGeoJSON.py:133-153 | a forecast point reads exactly when its timestamp, pressure and `strToInt(MAXWIND)` all read, and then has those values; an error is the first failing reading, in the order timestamp, pressure, wind |
| Normalize.HistoricalReading | makeCurrentGeoJSON.py:159-167 | a historical point's pressure is always a number, `strToInt(MSLP)`; its knots are `strToInt(INTENSITY)`; it fails exactly when one of the three readings fails, with the first error in the order timestamp, pressure, wind |
| Normalize.PolygonProperties | makeCurrentGeoJSON.py:118-123 | a polygon gets exactly storm, remnant flag, fcstpd and the raw STORMTYPE as cat; it fails exactly when FCSTPRD or STORMTYPE is missing, a missing FCSTPRD being reported first |
| Normalize.PointProperties | makeCurrentGeoJSON.py:118-176 | a point converts exactly when its reading succeeds and STORMTYPE is present, failing otherwise with the reading's error or the missing STORMTYPE; it gets exactly the eight point keys; `current` holds only for the first forecast point; wind is the mph of the knots; cat is computed from the knots before conversion |
| Normalize.ParseProperties | makeCurrentGeoJSON.py:114-177 | a polygon converts exactly when FCSTPRD and STORMTYPE are present and gets the four polygon keys; a point converts exactly when its reading succeeds and STORMTYPE is present and gets the eight point keys; every record carries its storm and remnant flag; `source` is present exactly for points and names the provenance |
| Features.TrackLines | makeCurrentGeoJSON.py:198-205 | n points give max(n-1, 0) lines, line i joining points i and i+1 |
| Features.Segment | makeCurrentGeoJSON.py:196-206 | the output is the lines in ascending order followed by the points unchanged: line i joins points i and i+1 and carries point i's properties |
| Features.SegmentExample | makeCurrentGeoJSON.py:196-206 | three points give line(P0,P1), line(P1,P2), P0, P1, P2; one point gives itself alone |
| Layers.NormalizeFrom | makeCurrentGeoJSON.py:191-195 | the layer succeeds exactly when every record normalises; feature i has record i's geometry and properties; a failure is the first failing record's error |
| Layers.LayerFeatures | makeCurrentGeoJSON.py:187-206 | a polygon layer is one feature per record in order; a point layer is its track |
| Layers.SegmentLayer | makeCurrentGeoJSON.py:196-206 | segmenting a normalised point layer gives lines joining consecutive records with the first record's properties, then the record features in order |
| Shapefile.LayerLabelled | makeCurrentGeoJSON.py:118-127 | every feature of a layer, lines included, names the shapefile's storm and remnant flag, and any source is the shapefile's provenance |
| Shapefile.ReadLayers | makeCurrentGeoJSON.py:184-207 | the listed layers read together succeed exactly when each layer does; a failure is the first failing layer's error |
| Shapefile.ReadLabelled | makeCurrentGeoJSON.py:184-207 | when every layer that converts is labelled with the storm, remnant flag and provenance, so is the concatenation |
| Shapefile.ReadTwo | makeCurrentGeoJSON.py:184-206 | reading two layers gives the first layer's features followed by the second's |
| Shapefile.ShapefileFeatures | makeCurrentGeoJSON.py:179-208 | a shapefile converts exactly when each of its COMPONENTS layers does; a forecast gives its polygon layer followed by its point layer's track (lines, then points), a best track its point layer's track alone; all features are labelled with its storm, remnant flag and provenance |
| Shapefile.ComponentsInOrder | makeCurrentGeoJSON.py:27 | the layers of COMPONENTS are read in order: a forecast's polygons, then its points; a best track's points alone |
| Quality.PolygonCount | makeCurrentGeoJSON.py:34 | the count of live polygons is at most the number of features and is zero exactly when no live polygon exists |
| Quality.PrefixStep | makeCurrentGeoJSON.py:31-34 | one more feature adds exactly its source, its shape, its storm if live and one polygon if a live polygon |
| Quality.CheckDataQualityScan | makeCurrentGeoJSON.py:30-49 | a single pass accumulating sources, shapes, live storm names and live polygons reaches the gate's verdict: an empty feed passes; otherwise exactly both sources, exactly the three shapes, and as many live storm names as live polygons |
| Quality.CheckDataQuality | makeCurrentGeoJSON.py:30-49 | an empty feed passes; a non-empty one passes exactly when some feature is historical and some forecast and no other source occurs, some feature is a point, a line and a polygon and no other shape occurs, and there are as many live storm names as live polygons |
| Quality.SourcesExactly | makeCurrentGeoJSON.py:31-41 | the observed source set equals {historical, forecast} exactly when each occurs on some feature and no feature has another source |
| Quality.ShapesExactly | makeCurrentGeoJSON.py:32-44 | the observed shape set equals {Point, LineString, Polygon} exactly when each occurs and no feature has another shape |
| Quality.GateIgnoresOrder | makeCurrentGeoJSON.py:31-47 | the verdict on two concatenated feature lists does not depend on which comes first: the gate reads only the observed source, shape and live-storm sets and the live polygon count |
| Quality.PolygonCountConcat | makeCurrentGeoJSON.py:34 | the live polygon count of two concatenated feature lists is the sum of their counts |
| Quality.MissingConeFails | makeCurrentGeoJSON.py:45-47 | a non-empty feed with a live storm but no live polygon fails |
| Quality.LabelledReadable | makeCurrentGeoJSON.py:31-34 | the features of a shapefile carry what the gate reads, and each is live exactly when the storm is not a remnant |
| Quality.ReadableConcat | makeCurrentGeoJSON.py:31-34 | concatenated feature lists stay readable by the gate |
| Quality.RemnantsNotCounted | makeCurrentGeoJSON.py:33-34 | features of remnant storms change neither the live storm names nor the polygon count |
| Quality.PassExample | makeCurrentGeoJSON.py:30-49 | one live storm ALPHA with one cone, a line, a historical and a forecast point passes |
| Quality.FailExample | makeCurrentGeoJSON.py:45-47 | two live storms with one cone fail |

## Left out

- The RSS feed, its parsing and the title/storm filtering in `parseRSS` (lines 71-91) are left out: network and feed-library plumbing.
- `download` and `unzip` (lines 51-69) are left out: HTTP and filesystem I/O.
- The shapefile reader, the `glob` over the unzipped directory and the file-name match on `_pgn`/`_pts` (lines 185-190) are left out. A shapefile is given as a map from layer to its records, one file per layer. The geometry is taken as decoded.
- `geojson.dump` and the per-storm output files (lines 210-229) are left out: serialisation and file output.
- `dateparser.parse` and its timezone conversion (lines 138 and 146) are an uninterpreted parameter. Only the text handed to it is modelled.
- Wind.KnotsToMph: does not model IEEE floating point. The value is exact, `5 × round(knots × 115078 / 500000)` with ties away from zero as in Python 2, and it is stored as an integer where Python stores a float such as `75.0`.
- Every attribute value is taken as text. Were the shapefile reader to return a number, `strToInt` would raise AttributeError at `.split`; that case is not modelled.
- Strings.ParseInt: covers Python 2 `int()` on whitespace, sign and digits. It rejects whitespace between the sign and the digits ("- 5"), which `int()` accepts.
- The `print` calls and the module-level reading of `storm_names.txt` (line 28) are left out: output and file I/O with no effect on the features.
- `checkDataQuality` raising KeyError on a feature without `remnant_flag`, or a live feature without `storm`, is stated as the precondition `Readable`. `Quality.LabelledReadable` shows that every feature the conversion produces meets it.
