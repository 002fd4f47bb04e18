/** `coastline_tools/build_viewer_coastline.py`: the `--bbox` parser and the
    stage composition of `main` (clip, simplify, stitch, split, length
    filter, bbox features). File I/O and the statistics printouts are not
    part of this model. */
module BuildViewer {
  import opened Wrappers
  import opened Geometry
  import opened Text
  import opened CoastlinePipeline
  import Stitching
  import StitchCoastline

  /** `float(x.strip())` on one comma-separated item `x`: a parsed value,
      or `None` where it raises ValueError. Stripping belongs to the parser
      because `float` itself ignores surrounding whitespace. */
  type FloatParser = string -> Option<real>

  /** `[float(x.strip()) for x in parts]`: `None` as soon as one item does
      not parse (the comprehension raises there). */
  function ParseAll(parts: seq<string>, pf: FloatParser): (r: Option<seq<real>>)
    ensures r.Some? <==> forall k :: 0 <= k < |parts| ==> pf(parts[k]).Some?
    ensures r.Some? ==> |r.value| == |parts| &&
                        forall k :: 0 <= k < |parts| ==> pf(parts[k]) == Some(r.value[k])
  {
    if parts == [] then Some([])
    else
      match pf(parts[0])
      case None => None
      case Some(v) =>
        assert forall k :: 1 <= k < |parts| ==> parts[k] == parts[1..][k - 1];
        match ParseAll(parts[1..], pf)
        case None => None
        case Some(vs) =>
          assert forall k :: 1 <= k < |parts| ==> ([v] + vs)[k] == vs[k - 1];
          Some([v] + vs)
  }

  /** `parse_bbox`: four comma-separated numbers, kept in the order given
      (lon_min, lat_min, lon_max, lat_max). The same function is defined,
      line for line, in `simplify_coastline.py` and
      `experiment_simplification.py`. */
  function ParseBbox(text: string, pf: FloatParser): (r: Result<BBox>)
    ensures r.Ok? <==> |Split(text, ',')| == 4 && forall k :: 0 <= k < 4 ==> pf(Split(text, ',')[k]).Some?
    ensures r.Err? ==> r.error == "ValueError"
    ensures r.Ok? ==> var parts := Split(text, ',');
              pf(parts[0]) == Some(r.value.lonMin) && pf(parts[1]) == Some(r.value.latMin) &&
              pf(parts[2]) == Some(r.value.lonMax) && pf(parts[3]) == Some(r.value.latMax)
  {
    var vals := ParseAll(Split(text, ','), pf);
    if vals.None? then Err("ValueError")
    else if |vals.value| != 4 then Err("ValueError")
    else Ok(BBox(vals.value[0], vals.value[1], vals.value[2], vals.value[3]))
  }

  /** Any number of commas other than three is rejected, whatever the items
      are. */
  lemma ParseBboxCommas(text: string, pf: FloatParser)
    requires Count(',', text) != 3
    ensures ParseBbox(text, pf) == Err("ValueError")
  {
  }

  /** Writing four items with three commas and parsing them back gives the
      four parsed items, in order. */
  lemma ParseBboxJoin(parts: seq<string>, pf: FloatParser)
    requires |parts| == 4
    requires forall k :: 0 <= k < 4 ==> ',' !in parts[k] && pf(parts[k]).Some?
    ensures ParseBbox(Join(parts, ','), pf) ==
            Ok(BBox(pf(parts[0]).value, pf(parts[1]).value,
                    pf(parts[2]).value, pf(parts[3]).value))
  {
    SplitJoin(parts, ',');
  }

  /** The parameters of `main` that shape the output. */
  datatype Options = Options(tolerance: real, minLength: real, snapTol: real, maxChunkLen: real, source: string)

  /** The lines `main` hands to `stitch_lines`: clipped, then thinned with
      no minimum length. */
  function Prepared(lines: seq<Line>, b: BBox, opt: Options, proj: Projection, hypot: Hypot): seq<Line> {
    SimplifiedLines(proj, hypot, opt.tolerance, 0.0, Clipped(lines, b))
  }

  /** The length filter as `filter_lines_min_length_meters` applies it. */
  function MinLengthFilter(lines: seq<Line>, minLen: real, proj: Projection, hypot: Hypot): seq<Line> {
    if minLen <= 0.0 then lines else LongLines(proj, hypot, minLen, lines)
  }

  /** The features `main` writes for the stitched chains. */
  function Emitted(stitched: seq<Line>, opt: Options, proj: Projection, hypot: Hypot): seq<Feature> {
    BboxFeatures(MinLengthFilter(SplitAll(proj, hypot, opt.maxChunkLen, stitched), opt.minLength, proj, hypot),
                 opt.source)
  }

  /** `main`: every stage consumes the whole output of the one before, in
      the order clip, simplify, stitch, split, filter, emit. `stitched` and
      the ghost outputs after it are what `stitch_lines` produced from the
      prepared lines, with the properties proved of it. */
  method BuildViewerCoastline(input: FeatureCollection, bboxText: string, pf: FloatParser, opt: Options,
                              proj: Projection, hypot: Hypot)
    returns (r: Result<FeatureCollection>, ghost stitched: seq<Line>,
             ghost segs: seq<Stitching.Seg>, ghost infos: seq<Stitching.ChainInfo>)
    ensures ParseBbox(bboxText, pf).Err? ==> r == Err("ValueError")
    ensures ParseBbox(bboxText, pf).Ok? ==>
              var prepared := Prepared(IterLines(input.features), ParseBbox(bboxText, pf).value, opt, proj, hypot);
              (r.Err? <==> opt.snapTol == 0.0 && exists k :: 0 <= k < |prepared| && |prepared[k]| >= 2) &&
              (r.Err? ==> r.error == "ZeroDivisionError") &&
              (r.Ok? ==>
                 Stitching.StitchedFrom(prepared, opt.snapTol, proj, segs, infos, stitched) &&
                 r.value == FeatureCollection(CollectionName, Emitted(stitched, opt, proj, hypot)))
  {
    stitched, segs, infos := [], [], [];
    var bb := ParseBbox(bboxText, pf);
    if bb.Err? {
      return Err("ValueError"), stitched, segs, infos;
    }
    var lines := IterLines(input.features);
    lines := ClipLinesToBbox(lines, bb.value.lonMin, bb.value.latMin, bb.value.lonMax, bb.value.latMax);
    assert BBox(bb.value.lonMin, bb.value.latMin, bb.value.lonMax, bb.value.latMax) == bb.value;
    lines := SimplifyLinesMeters(lines, opt.tolerance, 0.0, proj, hypot);
    assert lines == Prepared(IterLines(input.features), bb.value, opt, proj, hypot);
    var st;
    st, segs, infos := Stitching.StitchLines(lines, opt.snapTol, proj);
    if st.Err? {
      return Err(st.error), stitched, segs, infos;
    }
    stitched := st.value;
    lines := SplitLinesMaxLengthMeters(st.value, opt.maxChunkLen, proj, hypot);
    lines := FilterLinesMinLengthMeters(lines, opt.minLength, proj, hypot);
    var out := LinesToFeatureCollectionWithBboxes(lines, opt.source);
    r := Ok(out);
  }

  /** With a minimum length of 0, thinning drops no line of two or more
      points: short pieces are removed only after splitting. */
  lemma {:induction false} ZeroMinLengthKeepsAll(proj: Projection, hypot: Hypot, tol: real, lines: seq<Line>)
    requires forall k :: 0 <= k < |lines| ==> |lines[k]| >= 2
    ensures |SimplifiedLines(proj, hypot, tol, 0.0, lines)| == |lines|
  {
    if lines != [] {
      var n := |lines|;
      ZeroMinLengthKeepsAll(proj, hypot, tol, lines[..n - 1]);
      SimplifiedShape(proj, tol, lines[n - 1]);
    }
  }

  /** Every line `main` hands to the stitcher is an input line thinned, so
      clipping and thinning lose no line of the box. */
  lemma PreparedCount(lines: seq<Line>, b: BBox, opt: Options, proj: Projection, hypot: Hypot)
    requires forall k :: 0 <= k < |lines| ==> |lines[k]| >= 2
    ensures |Prepared(lines, b, opt, proj, hypot)| == |Clipped(lines, b)|
  {
    ClippedMeaning(lines, b);
    var c := Clipped(lines, b);
    forall k | 0 <= k < |c| ensures |c[k]| >= 2 {
      assert c[k] in c;
    }
    ZeroMinLengthKeepsAll(proj, hypot, opt.tolerance, c);
  }

  /** Every emitted feature is a LineString of at least two points, at
      most `maxChunkLen` long when it has three or more, and at least
      `minLength` long when that is positive. */
  lemma EmittedLong(stitched: seq<Line>, opt: Options, proj: Projection, hypot: Hypot)
    ensures forall k :: 0 <= k < |Emitted(stitched, opt, proj, hypot)| ==>
              Emitted(stitched, opt, proj, hypot)[k].geom.LineString? &&
              |Emitted(stitched, opt, proj, hypot)[k].geom.coords| >= 2 &&
              (opt.minLength > 0.0 ==>
                 PathLength(proj, hypot, Emitted(stitched, opt, proj, hypot)[k].geom.coords) >= opt.minLength) &&
              (|Emitted(stitched, opt, proj, hypot)[k].geom.coords| >= 3 ==>
                 PathLength(proj, hypot, Emitted(stitched, opt, proj, hypot)[k].geom.coords) <= opt.maxChunkLen)
  {
    var parts := SplitAll(proj, hypot, opt.maxChunkLen, stitched);
    var kept := MinLengthFilter(parts, opt.minLength, proj, hypot);
    BboxFeaturesIds(kept, opt.source);
    SplitAllParts(proj, hypot, opt.maxChunkLen, stitched);
    forall l | l in kept
      ensures l in parts
      ensures opt.minLength > 0.0 ==> LongEnough(proj, hypot, opt.minLength, l)
    {
      if opt.minLength > 0.0 {
        LongLinesMembers(proj, hypot, opt.minLength, parts, l);
      }
    }
    var fs := Emitted(stitched, opt, proj, hypot);
    forall k | 0 <= k < |fs|
      ensures fs[k].geom.LineString? && |fs[k].geom.coords| >= 2
      ensures opt.minLength > 0.0 ==> PathLength(proj, hypot, fs[k].geom.coords) >= opt.minLength
      ensures |fs[k].geom.coords| >= 3 ==> PathLength(proj, hypot, fs[k].geom.coords) <= opt.maxChunkLen
    {
      var id := SegmentId(fs[k]);
      assert kept[id] in kept;
    }
  }
}
