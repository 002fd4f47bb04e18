/** `coastline_tools/simplify_coastline.py`: clip the raw shoreline to a box,
    thin it with a minimum length, and wrap the survivors in one
    MultiLineString feature. File I/O and the statistics printouts are not
    part of this model; `parse_bbox` is the one of `BuildViewer`. */
module SimplifyCoastline {
  import opened Wrappers
  import opened Geometry
  import opened CoastlinePipeline
  import opened BuildViewer

  /** `main`: the output of clipping with the parsed box is thinned with the
      minimum length, then emitted as a single feature. Every surviving line
      is long enough and is the thinned form of a line read from the input
      that meets the box, so clipping acts before thinning. */
  function SimplifyCoastline(input: FeatureCollection, bboxText: string, pf: FloatParser, tol: real,
                             minLen: real, source: string, proj: Projection, hypot: Hypot)
    : (r: Result<FeatureCollection>)
    ensures ParseBbox(bboxText, pf).Err? <==> r.Err?
    ensures r.Err? ==> r.error == "ValueError"
    ensures r.Ok? ==>
      r.value.name == CollectionName && |r.value.features| == 1 &&
      r.value.features[0].props == Properties(source, None, None) &&
      r.value.features[0].geom.MultiLineString? &&
      forall l :: l in r.value.features[0].geom.lines ==>
        |l| >= 2 && PathLength(proj, hypot, l) >= minLen &&
        exists m :: m in IterLines(input.features) && Intersects(m, ParseBbox(bboxText, pf).value) &&
                    l == Simplified(proj, tol, m)
  {
    var bb := ParseBbox(bboxText, pf);
    if bb.Err? then Err("ValueError")
    else
      var raw := IterLines(input.features);
      var clipped := Clipped(raw, bb.value);
      var kept := SimplifiedLines(proj, hypot, tol, minLen, clipped);
      KeptFrom(raw, bb.value, proj, hypot, tol, minLen);
      Ok(LinesToFeatureCollection(kept, source))
  }

  /** Every line that survives clipping and thinning is long enough and is
      the thinned form of an input line that meets the box. */
  lemma KeptFrom(raw: seq<Line>, b: BBox, proj: Projection, hypot: Hypot, tol: real, minLen: real)
    ensures forall l :: l in SimplifiedLines(proj, hypot, tol, minLen, Clipped(raw, b)) ==>
      |l| >= 2 && PathLength(proj, hypot, l) >= minLen &&
      exists m :: m in raw && Intersects(m, b) && l == Simplified(proj, tol, m)
  {
    var clipped := Clipped(raw, b);
    var kept := SimplifiedLines(proj, hypot, tol, minLen, clipped);
    ClippedMeaning(raw, b);
    SimplifiedLinesFrom(proj, hypot, tol, minLen, clipped);
    forall l | l in kept
      ensures |l| >= 2 && PathLength(proj, hypot, l) >= minLen
      ensures exists m :: m in raw && Intersects(m, b) && l == Simplified(proj, tol, m)
    {
      var k :| 0 <= k < |kept| && kept[k] == l;
      var i :| 0 <= i < |clipped| && l == Simplified(proj, tol, clipped[i]);
      assert clipped[i] in clipped;
    }
  }

  /** A line list whose every line has two or more points reads back whole. */
  lemma {:induction false} AtLeastTwoKeepsAll(ls: seq<Line>)
    requires forall k :: 0 <= k < |ls| ==> |ls[k]| >= 2
    ensures AtLeastTwo(ls) == ls
  {
    if ls != [] {
      AtLeastTwoKeepsAll(ls[1..]);
    }
  }

  /** Reading the written collection back yields exactly the surviving
      lines, in order: no surviving line is lost on the way to the file. */
  lemma SimplifyCoastlineRoundTrip(input: FeatureCollection, bboxText: string, pf: FloatParser, tol: real,
                                   minLen: real, source: string, proj: Projection, hypot: Hypot)
    requires ParseBbox(bboxText, pf).Ok?
    ensures var r := SimplifyCoastline(input, bboxText, pf, tol, minLen, source, proj, hypot);
      r.Ok? &&
      IterLines(r.value.features) ==
        SimplifiedLines(proj, hypot, tol, minLen, Clipped(IterLines(input.features), ParseBbox(bboxText, pf).value))
  {
    var kept := SimplifiedLines(proj, hypot, tol, minLen, Clipped(IterLines(input.features), ParseBbox(bboxText, pf).value));
    FeatureCollectionRoundTrip(kept, source);
    AtLeastTwoKeepsAll(kept);
  }
}
