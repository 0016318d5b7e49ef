/** The features of one downloaded shapefile (`parseSHP`,
    makeCurrentGeoJSON.py:179-208): every layer COMPONENTS lists for its
    provenance, each record normalised by `parseProperties`. */
module Shapefile {
  import opened Results
  import opened Features
  import opened Records
  import opened Timestamps
  import opened Normalize
  import opened Layers

  /** What every record of one layer shares (the arguments of `parseSHP`
      and the layer being read). */
  datatype Layer = Layer(prov: Provenance, comp: Component, storm: string, remnant: bool)

  /** `parseProperties` applied to the records of `layer`. */
  function LayerNormalizer(layer: Layer, parse: DateParser): RecordNormalizer {
    (p: Attributes, i: nat) => ParseProperties(p, layer.prov, layer.comp, layer.storm, layer.remnant, i, parse)
  }

  /** The records of the layer file of `comp`; none when the archive holds
      no file for it. */
  function LayerRecords(layers: map<Component, seq<RawRecord>>, comp: Component): seq<RawRecord> {
    if comp in layers then layers[comp] else []
  }

  /** Every feature names the shapefile's storm and remnant flag, and a
      feature with a source has the shapefile's provenance. */
  predicate Labelled(features: seq<Feature>, prov: Provenance, storm: string, remnant: bool) {
    forall i :: 0 <= i < |features| ==>
      && "storm" in features[i].properties && features[i].properties["storm"] == Text(storm)
      && "remnant_flag" in features[i].properties && features[i].properties["remnant_flag"] == Flag(remnant)
      && ("source" in features[i].properties ==> features[i].properties["source"] == Text(Tag(prov)))
  }

  /** The features of the layer file of `comp` (one pass of the
      `for component` loop of makeCurrentGeoJSON.py:184-206). */
  function LayerOutput(comp: Component, prov: Provenance, storm: string, remnant: bool,
                       layers: map<Component, seq<RawRecord>>, parse: DateParser): Result<seq<Feature>> {
    LayerFeatures(LayerRecords(layers, comp), comp, LayerNormalizer(Layer(prov, comp, storm, remnant), parse))
  }

  /** The layers `comps`, each read by `read`, in order, their features
      concatenated. The first layer that fails aborts the shapefile with
      its error. */
  function ReadLayers(comps: seq<Component>, read: Component -> Result<seq<Feature>>): (r: Result<seq<Feature>>)
    ensures r.Ok? <==> forall k :: 0 <= k < |comps| ==> read(comps[k]).Ok?
    ensures r.Err? ==> exists k :: 0 <= k < |comps| && read(comps[k]) == Err(r.error)
                                   && forall j :: 0 <= j < k ==> read(comps[j]).Ok?
  {
    if |comps| == 0 then Ok([])
    else
      var first :- read(comps[0]);
      var rest :- ReadLayers(comps[1..], read);
      Ok(first + rest)
  }

  /** When every layer that converts is labelled, so is their concatenation. */
  lemma {:induction false} ReadLabelled(comps: seq<Component>, read: Component -> Result<seq<Feature>>,
                                        prov: Provenance, storm: string, remnant: bool)
    requires forall c :: read(c).Ok? ==> Labelled(read(c).value, prov, storm, remnant)
    ensures var r := ReadLayers(comps, read);
            r.Ok? ==> Labelled(r.value, prov, storm, remnant)
  {
    if |comps| > 0 {
      ReadLabelled(comps[1..], read, prov, storm, remnant);
    }
  }

  /** Reading one layer gives that layer's features. */
  lemma ReadOne(c: Component, read: Component -> Result<seq<Feature>>)
    ensures var r := ReadLayers([c], read);
            r.Ok? ==> read(c).Ok? && r.value == read(c).value
  {
    assert [c][1..] == [];
  }

  /** Reading two layers gives the first layer's features, then the second's. */
  lemma ReadTwo(a: Component, b: Component, read: Component -> Result<seq<Feature>>)
    ensures var r := ReadLayers([a, b], read);
            r.Ok? ==> read(a).Ok? && read(b).Ok? && r.value == read(a).value + read(b).value
  {
    assert [a, b][1..] == [b];
    ReadOne(b, read);
  }

  /** Every feature of a layer that converts, track lines included, names
      the shapefile's storm, remnant flag and provenance. */
  lemma LayerLabelled(records: seq<RawRecord>, layer: Layer, parse: DateParser)
    ensures var r := LayerFeatures(records, layer.comp, LayerNormalizer(layer, parse));
            r.Ok? ==> Labelled(r.value, layer.prov, layer.storm, layer.remnant)
  {
    var normalize := LayerNormalizer(layer, parse);
    var r := LayerFeatures(records, layer.comp, normalize);
    if r.Ok? {
      var fs := r.value;
      // each feature carries the properties of some record of the layer
      assert forall i :: 0 <= i < |fs| ==> exists j :: 0 <= j < |records| && fs[i].properties == normalize(records[j].attributes, j).value by {
        forall i | 0 <= i < |fs|
          ensures exists j :: 0 <= j < |records| && fs[i].properties == normalize(records[j].attributes, j).value
        {
          var offset := |fs| - |records|;
          var j := if i < offset then i else i - offset;
          if layer.comp == Points {
            assert IsTrack(records, normalize, fs);
          }
          assert fs[i].properties == normalize(records[j].attributes, j).value;
        }
      }
      forall i | 0 <= i < |fs|
        ensures "storm" in fs[i].properties && fs[i].properties["storm"] == Text(layer.storm)
        ensures "remnant_flag" in fs[i].properties && fs[i].properties["remnant_flag"] == Flag(layer.remnant)
        ensures "source" in fs[i].properties ==> fs[i].properties["source"] == Text(Tag(layer.prov))
      {
        var j :| 0 <= j < |records| && fs[i].properties == normalize(records[j].attributes, j).value;
        assert normalize(records[j].attributes, j).Ok?;
      }
    }
  }

  /** The features of one downloaded shapefile (`parseSHP`,
      makeCurrentGeoJSON.py:184-208): the layers of COMPONENTS in order, so
      a forecast gives its polygons, then its track lines, then its points. */
  function ShapefileFeatures(prov: Provenance, storm: string, remnant: bool,
                             layers: map<Component, seq<RawRecord>>, parse: DateParser): (r: Result<seq<Feature>>)
    ensures var read := Reader(prov, storm, remnant, layers, parse);
            r.Ok? <==> forall k :: 0 <= k < |Components(prov)| ==> read(Components(prov)[k]).Ok?
    // a forecast: the polygon layer, then the point layer's track
    ensures var read := Reader(prov, storm, remnant, layers, parse);
            r.Ok? && prov == Forecast ==>
              read(Polygons).Ok? && read(Points).Ok? && r.value == read(Polygons).value + read(Points).value
    // a best track: the point layer's track alone
    ensures var read := Reader(prov, storm, remnant, layers, parse);
            r.Ok? && prov == Historical ==> read(Points).Ok? && r.value == read(Points).value
    ensures r.Ok? ==> Labelled(r.value, prov, storm, remnant)
  {
    var read := Reader(prov, storm, remnant, layers, parse);
    ShapefileLabelled(prov, storm, remnant, layers, parse);
    ComponentsInOrder(prov, read);
    ReadLayers(Components(prov), read)
  }

  /** The layers of COMPONENTS, read in order: a forecast's polygons, then
      its points; a best track's points alone. */
  lemma ComponentsInOrder(prov: Provenance, read: Component -> Result<seq<Feature>>)
    ensures var r := ReadLayers(Components(prov), read);
            && (r.Ok? && prov == Forecast ==>
                  read(Polygons).Ok? && read(Points).Ok? && r.value == read(Polygons).value + read(Points).value)
            && (r.Ok? && prov == Historical ==> read(Points).Ok? && r.value == read(Points).value)
  {
    if prov == Forecast {
      ReadTwo(Polygons, Points, read);
    } else {
      ReadOne(Points, read);
    }
  }

  /** Reads the layer file of a component of this shapefile. */
  function Reader(prov: Provenance, storm: string, remnant: bool,
                  layers: map<Component, seq<RawRecord>>, parse: DateParser): Component -> Result<seq<Feature>> {
    (c: Component) => LayerOutput(c, prov, storm, remnant, layers, parse)
  }

  /** Every layer of a shapefile, and so all of them read together, is
      labelled with its storm, remnant flag and provenance. */
  lemma ShapefileLabelled(prov: Provenance, storm: string, remnant: bool,
                          layers: map<Component, seq<RawRecord>>, parse: DateParser)
    ensures var r := ReadLayers(Components(prov), Reader(prov, storm, remnant, layers, parse));
            r.Ok? ==> Labelled(r.value, prov, storm, remnant)
  {
    var read := Reader(prov, storm, remnant, layers, parse);
    forall c | read(c).Ok?
      ensures Labelled(read(c).value, prov, storm, remnant)
    {
      LayerLabelled(LayerRecords(layers, c), Layer(prov, c, storm, remnant), parse);
    }
    ReadLabelled(Components(prov), read, prov, storm, remnant);
  }
}
