/** One layer of a shapefile turned into features (makeCurrentGeoJSON.py:187-206),
    for any per-record normalisation: records in order, the first failure
    aborting the layer, and the point layer segmented into a track. */
module Layers {
  import opened Results
  import opened Features
  import opened Records

  /** The properties of a record given its attributes and its position in
      its layer. */
  type RecordNormalizer = (Attributes, nat) -> Result<Properties>

  /** The features of `records[start..]`, record `i` normalised as the
      `i`-th of its layer (the `enumerate` loop of makeCurrentGeoJSON.py:191-195).
      The first record that fails aborts the layer with its error. */
  function NormalizeFrom(records: seq<RawRecord>, start: nat, normalize: RecordNormalizer): (r: Result<seq<Feature>>)
    requires start <= |records|
    ensures r.Ok? <==> forall i :: start <= i < |records| ==> normalize(records[i].attributes, i).Ok?
    ensures r.Ok? ==> |r.value| == |records| - start
    ensures r.Ok? ==> forall i :: start <= i < |records| ==>
              r.value[i - start] == Feature(records[i].geometry, normalize(records[i].attributes, i).value)
    ensures r.Err? ==> exists i :: start <= i < |records| && normalize(records[i].attributes, i) == Err(r.error)
                                   && forall j :: start <= j < i ==> normalize(records[j].attributes, j).Ok?
    decreases |records| - start
  {
    if start == |records| then Ok([])
    else
      var props :- normalize(records[start].attributes, start);
      var rest :- NormalizeFrom(records, start + 1, normalize);
      Ok([Feature(records[start].geometry, props)] + rest)
  }

  /** The features of one layer (makeCurrentGeoJSON.py:187-206): one feature
      per record in record order, and for the point layer the track lines
      in front of the points. */
  function LayerFeatures(records: seq<RawRecord>, comp: Component, normalize: RecordNormalizer): (r: Result<seq<Feature>>)
    ensures r.Ok? <==> forall i :: 0 <= i < |records| ==> normalize(records[i].attributes, i).Ok?
    ensures r.Ok? && comp == Polygons ==> |r.value| == |records|
    ensures r.Ok? && comp == Polygons ==> forall i :: 0 <= i < |records| ==>
              r.value[i] == Feature(records[i].geometry, normalize(records[i].attributes, i).value)
    ensures r.Ok? && comp == Points ==> IsTrack(records, normalize, r.value)
  {
    var features :- NormalizeFrom(records, 0, normalize);
    if comp == Points then
      SegmentLayer(records, features, normalize);
      Ok(Segment(features))
    else
      Ok(features)
  }

  /** `out` is the track of a point layer whose records all normalise: one
      line per consecutive pair of records, line `i` joining records `i` and
      `i + 1` with the properties of record `i`, then one point feature per
      record in record order. */
  ghost predicate IsTrack(records: seq<RawRecord>, normalize: RecordNormalizer, out: seq<Feature>)
    requires forall i :: 0 <= i < |records| ==> normalize(records[i].attributes, i).Ok?
  {
    && |out| == |records| + (if |records| > 0 then |records| - 1 else 0)
    && (forall i :: 0 <= i < |records| ==>
          out[|out| - |records| + i] == Feature(records[i].geometry, normalize(records[i].attributes, i).value))
    && (forall i {:trigger out[i], records[i]} :: 0 <= i < |records| - 1 ==>
          && out[i].geometry.kind == LineString
          && out[i].geometry.coordinates == Nested([records[i].geometry.coordinates, records[i + 1].geometry.coordinates])
          && out[i].properties == normalize(records[i].attributes, i).value)
  }

  /** Segmenting the normalised features of a point layer gives its track. */
  lemma SegmentLayer(records: seq<RawRecord>, features: seq<Feature>, normalize: RecordNormalizer)
    requires |features| == |records|
    requires forall i :: 0 <= i < |records| ==> normalize(records[i].attributes, i).Ok?
    requires forall i :: 0 <= i < |records| ==>
               features[i] == Feature(records[i].geometry, normalize(records[i].attributes, i).value)
    ensures IsTrack(records, normalize, Segment(features))
  {
    SegmentKeepsPoints(records, features, normalize);
    SegmentLinesCarry(records, features, normalize);
    SegmentLinesJoin(records, features);
    var out := Segment(features);
    forall i | 0 <= i < |records| - 1
      ensures && out[i].geometry.kind == LineString
              && out[i].geometry.coordinates == Nested([records[i].geometry.coordinates, records[i + 1].geometry.coordinates])
              && out[i].properties == normalize(records[i].attributes, i).value
    {
      assert out[i].geometry.kind == LineString;
      assert out[i].geometry.coordinates == Nested([records[i].geometry.coordinates, records[i + 1].geometry.coordinates]);
    }
  }

  /** Segmenting a normalised point layer keeps each point feature, after
      the lines. */
  lemma SegmentKeepsPoints(records: seq<RawRecord>, features: seq<Feature>, normalize: RecordNormalizer)
    requires |features| == |records|
    ensures var out := Segment(features);
            forall i :: 0 <= i < |records| ==> out[|out| - |records| + i] == features[i]
  {
  }

  /** Line `i` of a segmented point layer carries the properties of record `i`. */
  lemma SegmentLinesCarry(records: seq<RawRecord>, features: seq<Feature>, normalize: RecordNormalizer)
    requires |features| == |records|
    requires forall i :: 0 <= i < |records| ==> normalize(records[i].attributes, i).Ok?
    requires forall i :: 0 <= i < |records| ==>
               features[i].properties == normalize(records[i].attributes, i).value
    ensures var out := Segment(features);
            forall i {:trigger out[i], records[i]} :: 0 <= i < |records| - 1 ==>
              && out[i].geometry.kind == LineString
              && out[i].properties == normalize(records[i].attributes, i).value
  {
    var out := Segment(features);
    forall i | 0 <= i < |records| - 1
      ensures out[i].geometry.kind == LineString
      ensures out[i].properties == normalize(records[i].attributes, i).value
    {
      assert features[i].properties == normalize(records[i].attributes, i).value;
    }
  }

  /** Line `i` of a segmented point layer joins records `i` and `i + 1`. */
  lemma SegmentLinesJoin(records: seq<RawRecord>, features: seq<Feature>)
    requires |features| == |records|
    requires forall i :: 0 <= i < |records| ==> features[i].geometry == records[i].geometry
    ensures var out := Segment(features);
            forall i {:trigger out[i], records[i]} :: 0 <= i < |records| - 1 ==>
              out[i].geometry.coordinates == Nested([records[i].geometry.coordinates, records[i + 1].geometry.coordinates])
  {
    var out := Segment(features);
    forall i | 0 <= i < |records| - 1
      ensures out[i].geometry.coordinates == Nested([records[i].geometry.coordinates, records[i + 1].geometry.coordinates])
    {
      assert features[i].geometry == records[i].geometry;
      assert features[i + 1].geometry == records[i + 1].geometry;
    }
  }
}
