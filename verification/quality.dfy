/** The data-quality gate run over every feature of one RSS feed
    (`checkDataQuality`, makeCurrentGeoJSON.py:30-49). */
module Quality {
  import opened Features
  import opened Records
  import opened Shapefile

  /** Python truthiness of a property value. */
  function Truthy(v: Value): bool {
    match v
    case Text(s) => |s| > 0
    case Flag(b) => b
    case Number(n) => n != 0
    case Null => false
  }

  /** A feature of a storm that is not a remnant: its `remnant_flag` is
      present and falsy. */
  predicate Live(f: Feature) {
    "remnant_flag" in f.properties && !Truthy(f.properties["remnant_flag"])
  }

  /** The gate reads `remnant_flag` of every feature and `storm` of every
      live one; a feature lacking either raises `KeyError`. */
  predicate Readable(fs: seq<Feature>) {
    forall i :: 0 <= i < |fs| ==>
      "remnant_flag" in fs[i].properties && (Live(fs[i]) ==> "storm" in fs[i].properties)
  }

  /** The `source` values observed, over the features that have one. */
  function SourcesOf(fs: seq<Feature>): set<Value> {
    set i | 0 <= i < |fs| && "source" in fs[i].properties :: fs[i].properties["source"]
  }

  /** The geometry types observed. */
  function ShapesOf(fs: seq<Feature>): set<GeoType> {
    set i | 0 <= i < |fs| :: fs[i].geometry.kind
  }

  /** The storm names of the live features. */
  function StormsOf(fs: seq<Feature>): set<Value>
    requires Readable(fs)
  {
    set i | 0 <= i < |fs| && Live(fs[i]) :: fs[i].properties["storm"]
  }

  /** The live polygon features (one per live forecast cone). */
  predicate LivePolygon(f: Feature) {
    f.geometry.kind == Polygon && Live(f)
  }

  /** The number of live polygon features. */
  function PolygonCount(fs: seq<Feature>): (n: nat)
    ensures n <= |fs|
    ensures n == 0 <==> forall i :: 0 <= i < |fs| ==> !LivePolygon(fs[i])
  {
    if |fs| == 0 then 0
    else
      var init := fs[..|fs| - 1];
      assert forall i :: 0 <= i < |init| ==> init[i] == fs[i];
      PolygonCount(init) + (if LivePolygon(fs[|fs| - 1]) then 1 else 0)
  }

  const ExpectedSources: set<Value> := {Text("historical"), Text("forecast")}

  const ExpectedShapes: set<GeoType> := {Point, LineString, Polygon}

  /** Some feature has source `v`. */
  predicate HasSource(fs: seq<Feature>, v: Value) {
    exists i :: 0 <= i < |fs| && "source" in fs[i].properties && fs[i].properties["source"] == v
  }

  /** Some feature has geometry type `kind`. */
  predicate HasShape(fs: seq<Feature>, kind: GeoType) {
    exists i :: 0 <= i < |fs| && fs[i].geometry.kind == kind
  }

  /** The verdict of the gate (makeCurrentGeoJSON.py:30-49): an empty feed
      passes; otherwise both provenances, exactly the point, line and
      polygon shapes, and one live polygon per live storm name. */
  function CheckDataQuality(fs: seq<Feature>): (ok: bool)
    requires Readable(fs)
    ensures |fs| == 0 ==> ok
    ensures |fs| > 0 ==> (ok <==>
              // a historical and a forecast source, and no other source
              && HasSource(fs, Text("historical")) && HasSource(fs, Text("forecast"))
              && (forall i :: 0 <= i < |fs| && "source" in fs[i].properties ==>
                    fs[i].properties["source"] == Text("historical") || fs[i].properties["source"] == Text("forecast"))
              // a point, a line and a polygon, and no other shape
              && HasShape(fs, Point) && HasShape(fs, LineString) && HasShape(fs, Polygon)
              && (forall i :: 0 <= i < |fs| ==>
                    fs[i].geometry.kind == Point || fs[i].geometry.kind == LineString || fs[i].geometry.kind == Polygon)
              // as many live storm names as live polygons
              && |StormsOf(fs)| == PolygonCount(fs))
  {
    SourcesExactly(fs);
    ShapesExactly(fs);
    |fs| == 0 ||
    (SourcesOf(fs) == ExpectedSources && ShapesOf(fs) == ExpectedShapes && |StormsOf(fs)| == PolygonCount(fs))
  }

  /** The observed sources are exactly the two provenances when each occurs
      and nothing else does. */
  lemma SourcesExactly(fs: seq<Feature>)
    ensures SourcesOf(fs) == ExpectedSources <==>
              && HasSource(fs, Text("historical")) && HasSource(fs, Text("forecast"))
              && (forall i :: 0 <= i < |fs| && "source" in fs[i].properties ==>
                    fs[i].properties["source"] == Text("historical") || fs[i].properties["source"] == Text("forecast"))
  {
    var observed := SourcesOf(fs);
    if observed == ExpectedSources {
      assert Text("historical") in observed;
      assert Text("forecast") in observed;
      forall i | 0 <= i < |fs| && "source" in fs[i].properties
        ensures fs[i].properties["source"] == Text("historical") || fs[i].properties["source"] == Text("forecast")
      {
        assert fs[i].properties["source"] in observed;
      }
    }
    if && HasSource(fs, Text("historical")) && HasSource(fs, Text("forecast"))
       && (forall i :: 0 <= i < |fs| && "source" in fs[i].properties ==>
             fs[i].properties["source"] == Text("historical") || fs[i].properties["source"] == Text("forecast")) {
      var h :| 0 <= h < |fs| && "source" in fs[h].properties && fs[h].properties["source"] == Text("historical");
      var f :| 0 <= f < |fs| && "source" in fs[f].properties && fs[f].properties["source"] == Text("forecast");
      assert Text("historical") in observed && Text("forecast") in observed;
      assert observed <= ExpectedSources;
    }
  }

  /** The observed shapes are exactly point, line and polygon when each
      occurs and nothing else does. */
  lemma ShapesExactly(fs: seq<Feature>)
    ensures ShapesOf(fs) == ExpectedShapes <==>
              && HasShape(fs, Point) && HasShape(fs, LineString) && HasShape(fs, Polygon)
              && (forall i :: 0 <= i < |fs| ==>
                    fs[i].geometry.kind == Point || fs[i].geometry.kind == LineString || fs[i].geometry.kind == Polygon)
  {
    var observed := ShapesOf(fs);
    if observed == ExpectedShapes {
      assert Point in observed && LineString in observed && Polygon in observed;
      forall i | 0 <= i < |fs|
        ensures fs[i].geometry.kind == Point || fs[i].geometry.kind == LineString || fs[i].geometry.kind == Polygon
      {
        assert fs[i].geometry.kind in observed;
      }
    }
    if && HasShape(fs, Point) && HasShape(fs, LineString) && HasShape(fs, Polygon)
       && (forall i :: 0 <= i < |fs| ==>
             fs[i].geometry.kind == Point || fs[i].geometry.kind == LineString || fs[i].geometry.kind == Polygon) {
      var p :| 0 <= p < |fs| && fs[p].geometry.kind == Point;
      var l :| 0 <= l < |fs| && fs[l].geometry.kind == LineString;
      var g :| 0 <= g < |fs| && fs[g].geometry.kind == Polygon;
      assert Point in observed && LineString in observed && Polygon in observed;
      assert observed <= ExpectedShapes;
    }
  }

  /** Extending a prefix by one feature adds that feature's observations. */
  lemma PrefixStep(fs: seq<Feature>, k: nat)
    requires k < |fs|
    requires Readable(fs)
    ensures Readable(fs[..k]) && Readable(fs[..k + 1])
    ensures SourcesOf(fs[..k + 1]) ==
            SourcesOf(fs[..k]) + (if "source" in fs[k].properties then {fs[k].properties["source"]} else {})
    ensures ShapesOf(fs[..k + 1]) == ShapesOf(fs[..k]) + {fs[k].geometry.kind}
    ensures StormsOf(fs[..k + 1]) == StormsOf(fs[..k]) + (if Live(fs[k]) then {fs[k].properties["storm"]} else {})
    ensures PolygonCount(fs[..k + 1]) == PolygonCount(fs[..k]) + (if LivePolygon(fs[k]) then 1 else 0)
  {
    var a, b := fs[..k], fs[..k + 1];
    assert forall i :: 0 <= i < k ==> a[i] == fs[i] && b[i] == fs[i];
    assert b[k] == fs[k];
    assert b[..|b| - 1] == a;
  }

  /** The gate as one pass over the feed, accumulating the three sets and
      the polygon count feature by feature. */
  method CheckDataQualityScan(fs: seq<Feature>) returns (ok: bool)
    requires Readable(fs)
    ensures ok == CheckDataQuality(fs)
  {
    var sources: set<Value> := {};
    var shapes: set<GeoType> := {};
    var storms: set<Value> := {};
    var polygons := 0;
    var k := 0;
    while k < |fs|
      invariant 0 <= k <= |fs|
      invariant Readable(fs[..k])
      invariant sources == SourcesOf(fs[..k])
      invariant shapes == ShapesOf(fs[..k])
      invariant storms == StormsOf(fs[..k])
      invariant polygons == PolygonCount(fs[..k])
    {
      PrefixStep(fs, k);
      var f := fs[k];
      if "source" in f.properties {
        sources := sources + {f.properties["source"]};
      }
      shapes := shapes + {f.geometry.kind};
      if Live(f) {
        storms := storms + {f.properties["storm"]};
      }
      if LivePolygon(f) {
        polygons := polygons + 1;
      }
      k := k + 1;
    }
    assert fs[..k] == fs;
    ok := |fs| == 0 || (sources == ExpectedSources && shapes == ExpectedShapes && |storms| == polygons);
  }

  /** The gate compares sets and a count, so the order in which the
      shapefiles' features were concatenated does not change its verdict. */
  lemma GateIgnoresOrder(fs: seq<Feature>, gs: seq<Feature>)
    requires Readable(fs) && Readable(gs)
    ensures Readable(fs + gs) && Readable(gs + fs)
    ensures CheckDataQuality(fs + gs) == CheckDataQuality(gs + fs)
  {
    ReadableConcat(fs, gs);
    ReadableConcat(gs, fs);
    var ab, ba := fs + gs, gs + fs;
    assert SourcesOf(ab) == SourcesOf(ba) by {
      SourcesConcat(fs, gs);
      SourcesConcat(gs, fs);
    }
    assert ShapesOf(ab) == ShapesOf(ba) by {
      ShapesConcat(fs, gs);
      ShapesConcat(gs, fs);
    }
    assert StormsOf(ab) == StormsOf(ba) by {
      StormsConcat(fs, gs);
      StormsConcat(gs, fs);
    }
    assert PolygonCount(ab) == PolygonCount(ba) by {
      PolygonCountConcat(fs, gs);
      PolygonCountConcat(gs, fs);
    }
  }

  lemma SourcesConcat(fs: seq<Feature>, gs: seq<Feature>)
    ensures SourcesOf(fs + gs) == SourcesOf(fs) + SourcesOf(gs)
  {
    var all := fs + gs;
    forall v | v in SourcesOf(all) ensures v in SourcesOf(fs) + SourcesOf(gs) {
      var i :| 0 <= i < |all| && "source" in all[i].properties && all[i].properties["source"] == v;
      if i < |fs| {
        assert all[i] == fs[i];
      } else {
        assert all[i] == gs[i - |fs|];
      }
    }
    forall v | v in SourcesOf(fs) ensures v in SourcesOf(all) {
      var i :| 0 <= i < |fs| && "source" in fs[i].properties && fs[i].properties["source"] == v;
      assert all[i] == fs[i];
    }
    forall v | v in SourcesOf(gs) ensures v in SourcesOf(all) {
      var i :| 0 <= i < |gs| && "source" in gs[i].properties && gs[i].properties["source"] == v;
      assert all[|fs| + i] == gs[i];
    }
  }

  lemma ShapesConcat(fs: seq<Feature>, gs: seq<Feature>)
    ensures ShapesOf(fs + gs) == ShapesOf(fs) + ShapesOf(gs)
  {
    var all := fs + gs;
    forall v | v in ShapesOf(all) ensures v in ShapesOf(fs) + ShapesOf(gs) {
      var i :| 0 <= i < |all| && all[i].geometry.kind == v;
      if i < |fs| {
        assert all[i] == fs[i];
      } else {
        assert all[i] == gs[i - |fs|];
      }
    }
    forall v | v in ShapesOf(fs) ensures v in ShapesOf(all) {
      var i :| 0 <= i < |fs| && fs[i].geometry.kind == v;
      assert all[i] == fs[i];
    }
    forall v | v in ShapesOf(gs) ensures v in ShapesOf(all) {
      var i :| 0 <= i < |gs| && gs[i].geometry.kind == v;
      assert all[|fs| + i] == gs[i];
    }
  }

  lemma StormsConcat(fs: seq<Feature>, gs: seq<Feature>)
    requires Readable(fs) && Readable(gs)
    ensures Readable(fs + gs)
    ensures StormsOf(fs + gs) == StormsOf(fs) + StormsOf(gs)
  {
    ReadableConcat(fs, gs);
    var all := fs + gs;
    forall v | v in StormsOf(all) ensures v in StormsOf(fs) + StormsOf(gs) {
      var i :| 0 <= i < |all| && Live(all[i]) && all[i].properties["storm"] == v;
      if i < |fs| {
        assert all[i] == fs[i];
      } else {
        assert all[i] == gs[i - |fs|];
      }
    }
    forall v | v in StormsOf(fs) ensures v in StormsOf(all) {
      var i :| 0 <= i < |fs| && Live(fs[i]) && fs[i].properties["storm"] == v;
      assert all[i] == fs[i];
    }
    forall v | v in StormsOf(gs) ensures v in StormsOf(all) {
      var i :| 0 <= i < |gs| && Live(gs[i]) && gs[i].properties["storm"] == v;
      assert all[|fs| + i] == gs[i];
    }
  }

  /** The live polygons of two feature lists add up. */
  lemma {:induction false} PolygonCountConcat(fs: seq<Feature>, gs: seq<Feature>)
    ensures PolygonCount(fs + gs) == PolygonCount(fs) + PolygonCount(gs)
    decreases |gs|
  {
    if |gs| == 0 {
      assert fs + gs == fs;
    } else {
      var init := gs[..|gs| - 1];
      PolygonCountConcat(fs, init);
      assert (fs + gs)[..|fs + gs| - 1] == fs + init;
      assert (fs + gs)[|fs + gs| - 1] == gs[|gs| - 1];
    }
  }

  /** A non-empty feed with a live storm but no live polygon fails. */
  lemma {:induction false} MissingConeFails(fs: seq<Feature>)
    requires Readable(fs) && |fs| > 0
    requires exists i :: 0 <= i < |fs| && Live(fs[i])
    requires forall i :: 0 <= i < |fs| ==> !LivePolygon(fs[i])
    ensures !CheckDataQuality(fs)
  {
    var i :| 0 <= i < |fs| && Live(fs[i]);
    assert fs[i].properties["storm"] in StormsOf(fs);
  }

  /** The features `ShapefileFeatures` produces can be read by the gate:
      each carries its storm name and a boolean remnant flag. */
  lemma {:induction false} LabelledReadable(fs: seq<Feature>, prov: Provenance, storm: string, remnant: bool)
    requires Labelled(fs, prov, storm, remnant)
    ensures Readable(fs)
    ensures forall i :: 0 <= i < |fs| ==> (Live(fs[i]) <==> !remnant)
  {
    forall i | 0 <= i < |fs|
      ensures "remnant_flag" in fs[i].properties && (Live(fs[i]) ==> "storm" in fs[i].properties)
      ensures Live(fs[i]) <==> !remnant
    {
      assert fs[i].properties["remnant_flag"] == Flag(remnant);
    }
  }

  /** The features of several shapefiles, concatenated as the feed loop
      does, stay readable. */
  lemma ReadableConcat(fs: seq<Feature>, gs: seq<Feature>)
    requires Readable(fs) && Readable(gs)
    ensures Readable(fs + gs)
  {
    forall i | 0 <= i < |fs + gs|
      ensures "remnant_flag" in (fs + gs)[i].properties && (Live((fs + gs)[i]) ==> "storm" in (fs + gs)[i].properties)
    {
      if i < |fs| {
        assert (fs + gs)[i] == fs[i];
      } else {
        assert (fs + gs)[i] == gs[i - |fs|];
      }
    }
  }

  /** Features of remnant storms change neither the storm names nor the
      polygon count the gate compares. */
  lemma {:induction false} RemnantsNotCounted(fs: seq<Feature>, gs: seq<Feature>)
    requires Readable(fs) && Readable(gs)
    requires forall i :: 0 <= i < |gs| ==> !Live(gs[i])
    ensures Readable(fs + gs)
    ensures StormsOf(fs + gs) == StormsOf(fs)
    ensures PolygonCount(fs + gs) == PolygonCount(fs)
    decreases |gs|
  {
    ReadableConcat(fs, gs);
    if |gs| == 0 {
      assert fs + gs == fs;
    } else {
      var init := gs[..|gs| - 1];
      assert Readable(init) by {
        assert forall i :: 0 <= i < |init| ==> init[i] == gs[i];
      }
      RemnantsNotCounted(fs, init);
      assert (fs + gs)[..|fs + gs| - 1] == fs + init;
      assert (fs + gs)[|fs + gs| - 1] == gs[|gs| - 1];
      assert StormsOf(fs + gs) == StormsOf(fs + init) by {
        var all := fs + gs;
        forall v | v in StormsOf(all) ensures v in StormsOf(fs + init) {
          var i :| 0 <= i < |all| && Live(all[i]) && all[i].properties["storm"] == v;
          assert i < |fs + init|;
          assert (fs + init)[i] == all[i];
        }
        forall v | v in StormsOf(fs + init) ensures v in StormsOf(all) {
          var i :| 0 <= i < |fs + init| && Live((fs + init)[i]) && (fs + init)[i].properties["storm"] == v;
          assert (fs + init)[i] == all[i];
        }
      }
    }
  }

  /** A feature with the given geometry type and properties. */
  function Sample(kind: GeoType, props: Properties): Feature {
    Feature(Geometry(kind, Position([0.0, 0.0])), props)
  }

  /** One live storm ALPHA with its cone, a track line and a forecast point
      and a historical point passes. */
  lemma PassExample()
    ensures var cone := Sample(Polygon, map["storm" := Text("ALPHA"), "remnant_flag" := Flag(false)]);
            var past := Sample(Point, map["storm" := Text("ALPHA"), "remnant_flag" := Flag(false), "source" := Text("historical")]);
            var line := Sample(LineString, past.properties);
            var next := Sample(Point, map["storm" := Text("ALPHA"), "remnant_flag" := Flag(false), "source" := Text("forecast")]);
            var fs := [cone, line, past, next];
            Readable(fs) && CheckDataQuality(fs)
  {
    var cone := Sample(Polygon, map["storm" := Text("ALPHA"), "remnant_flag" := Flag(false)]);
    var past := Sample(Point, map["storm" := Text("ALPHA"), "remnant_flag" := Flag(false), "source" := Text("historical")]);
    var line := Sample(LineString, past.properties);
    var next := Sample(Point, map["storm" := Text("ALPHA"), "remnant_flag" := Flag(false), "source" := Text("forecast")]);
    var fs := [cone, line, past, next];
    assert SourcesOf(fs) == ExpectedSources by {
      assert fs[2].properties["source"] == Text("historical");
      assert fs[3].properties["source"] == Text("forecast");
    }
    assert ShapesOf(fs) == ExpectedShapes by {
      assert fs[0].geometry.kind == Polygon;
      assert fs[1].geometry.kind == LineString;
    }
    assert StormsOf(fs) == {Text("ALPHA")} by {
      assert Live(fs[0]);
    }
    assert PolygonCount(fs) == 1 by {
      assert PolygonCount([cone]) == 1 by {
        assert [cone][..0] == [];
      }
      assert PolygonCount([cone, line]) == 1 by {
        assert [cone, line][..1] == [cone];
      }
      assert PolygonCount([cone, line, past]) == 1 by {
        assert [cone, line, past][..2] == [cone, line];
      }
      assert fs[..3] == [cone, line, past];
    }
  }

  /** Two live storms but only one cone fails. */
  lemma FailExample()
    ensures var cone := Sample(Polygon, map["storm" := Text("ALPHA"), "remnant_flag" := Flag(false)]);
            var alpha := Sample(Point, map["storm" := Text("ALPHA"), "remnant_flag" := Flag(false), "source" := Text("forecast")]);
            var line := Sample(LineString, alpha.properties);
            var beta := Sample(Point, map["storm" := Text("BETA"), "remnant_flag" := Flag(false), "source" := Text("historical")]);
            var fs := [cone, line, alpha, beta];
            Readable(fs) && !CheckDataQuality(fs)
  {
    var cone := Sample(Polygon, map["storm" := Text("ALPHA"), "remnant_flag" := Flag(false)]);
    var alpha := Sample(Point, map["storm" := Text("ALPHA"), "remnant_flag" := Flag(false), "source" := Text("forecast")]);
    var line := Sample(LineString, alpha.properties);
    var beta := Sample(Point, map["storm" := Text("BETA"), "remnant_flag" := Flag(false), "source" := Text("historical")]);
    var fs := [cone, line, alpha, beta];
    assert |StormsOf(fs)| == 2 by {
      assert StormsOf(fs) == {Text("ALPHA"), Text("BETA")} by {
        assert Live(fs[0]) && Live(fs[3]);
        assert fs[3].properties["storm"] == Text("BETA");
      }
      assert Text("ALPHA") != Text("BETA");
    }
    assert PolygonCount(fs) == 1 by {
      assert fs == [cone] + [line, alpha, beta];
      PolygonCountConcat([cone], [line, alpha, beta]);
      assert PolygonCount([cone]) == 1 by {
        assert [cone][..0] == [];
      }
    }
  }
}
