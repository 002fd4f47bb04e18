/** `coastline_tools/plot_coastline_compare.py`: the segment collection and
    the coordinate bounds scan that frame the comparison plot. Reading the
    files and drawing are not part of this model. */
module PlotCoastlineCompare {
  import opened Wrappers
  import opened Geometry
  import opened CoastlinePipeline

  /** `collect_segments` on a loaded collection: LineString coordinates and
      MultiLineString parts with two or more points, in file order, which
      is what `iter_lines_from_geojson` yields too. */
  method CollectSegments(fc: FeatureCollection) returns (segs: seq<Line>)
    ensures segs == IterLines(fc.features)
  {
    var fs := fc.features;
    segs := [];
    var i := 0;
    while i < |fs|
      invariant 0 <= i <= |fs|
      invariant segs == IterLines(fs[..i])
    {
      var geom := fs[i].geom;
      IterLinesSnoc(fs, i);
      if geom.LineString? {
        if |geom.coords| >= 2 {
          segs := segs + [geom.coords];
        }
      } else if geom.MultiLineString? {
        segs := CollectParts(segs, geom.lines);
      }
      i := i + 1;
    }
    assert fs[..i] == fs;
  }

  /** The inner loop over the parts of one MultiLineString. */
  method CollectParts(segs0: seq<Line>, parts: seq<Line>) returns (segs: seq<Line>)
    ensures segs == segs0 + AtLeastTwo(parts)
  {
    segs := segs0;
    var j := 0;
    while j < |parts|
      invariant 0 <= j <= |parts|
      invariant segs == segs0 + AtLeastTwo(parts[..j])
    {
      var line := parts[j];
      PartsStep(segs0, segs, parts, j);
      if |line| >= 2 {
        segs := segs + [line];
      }
      j := j + 1;
    }
    assert parts[..j] == parts;
  }

  lemma PartsStep(segs0: seq<Line>, segs: seq<Line>, parts: seq<Line>, j: int)
    requires 0 <= j < |parts|
    requires segs == segs0 + AtLeastTwo(parts[..j])
    ensures (if |parts[j]| >= 2 then segs + [parts[j]] else segs) == segs0 + AtLeastTwo(parts[..j + 1])
  {
    AtLeastTwoStep(parts, j);
  }

  lemma AtLeastTwoStep(parts: seq<Line>, j: int)
    requires 0 <= j < |parts|
    ensures AtLeastTwo(parts[..j + 1]) == AtLeastTwo(parts[..j]) + (if |parts[j]| >= 2 then [parts[j]] else [])
  {
    var init, one := parts[..j], [parts[j]];
    assert parts[..j + 1] == init + one;
    AtLeastTwoAppend(init, one);
    assert AtLeastTwo(one) == (if |parts[j]| >= 2 then [parts[j]] + AtLeastTwo(one[1..]) else AtLeastTwo(one[1..]));
    assert one[1..] == [];
  }

  lemma IterLinesSnoc(fs: seq<Feature>, i: int)
    requires 0 <= i < |fs|
    ensures IterLines(fs[..i + 1]) == IterLines(fs[..i]) + LinesOf(fs[i].geom)
  {
    var a, b := fs[..i], [fs[i]];
    assert fs[..i + 1] == a + b;
    IterLinesAppend(a, b);
    assert IterLines(b) == LinesOf(fs[i].geom) + IterLines([]);
  }

  // ---------------------------------------------------------------- bounds

  /** A float that may be one of the infinities the scan starts from. */
  datatype Extended = NegInf | Finite(v: real) | PosInf

  /** `x < e` for a finite `x`. */
  predicate Below(x: real, e: Extended) {
    match e
    case NegInf => false
    case Finite(v) => x < v
    case PosInf => true
  }

  /** `x > e` for a finite `x`. */
  predicate Above(x: real, e: Extended) {
    match e
    case NegInf => true
    case Finite(v) => x > v
    case PosInf => false
  }

  /** The scan's variables `min_x`, `max_x`, `min_y`, `max_y` and `found`. */
  datatype Scan = Scan(minX: Extended, maxX: Extended, minY: Extended, maxY: Extended, found: bool)

  const Start: Scan := Scan(PosInf, NegInf, PosInf, NegInf, false)

  /** One coordinate pair `x, y`: each bound is replaced when the value is
      strictly beyond it. */
  function Visit(s: Scan, p: Point): Scan {
    Scan(if Below(p.lon, s.minX) then Finite(p.lon) else s.minX,
         if Above(p.lon, s.maxX) then Finite(p.lon) else s.maxX,
         if Below(p.lat, s.minY) then Finite(p.lat) else s.minY,
         if Above(p.lat, s.maxY) then Finite(p.lat) else s.maxY,
         true)
  }

  /** The scan over a run of points, in order. */
  function VisitAll(s: Scan, pts: seq<Point>): Scan {
    if pts == [] then s else Visit(VisitAll(s, pts[..|pts| - 1]), pts[|pts| - 1])
  }

  /** The lines of one list, end to end. */
  function Flatten(lines: seq<Line>): seq<Point> {
    if lines == [] then [] else Flatten(lines[..|lines| - 1]) + lines[|lines| - 1]
  }

  /** Every coordinate of every list, in scan order. */
  function AllPoints(lists: seq<seq<Line>>): seq<Point> {
    if lists == [] then [] else AllPoints(lists[..|lists| - 1]) + Flatten(lists[|lists| - 1])
  }

  /** `b` = (min_x, max_x, min_y, max_y) bounds every point of `pts`, and
      each of the four is the coordinate of some point. */
  predicate IsBounds(pts: seq<Point>, b: (real, real, real, real)) {
    (forall p :: p in pts ==> b.0 <= p.lon <= b.1 && b.2 <= p.lat <= b.3) &&
    (exists p :: p in pts && p.lon == b.0) && (exists p :: p in pts && p.lon == b.1) &&
    (exists p :: p in pts && p.lat == b.2) && (exists p :: p in pts && p.lat == b.3)
  }

  lemma {:induction false} VisitAllAppend(s: Scan, a: seq<Point>, b: seq<Point>)
    ensures VisitAll(s, a + b) == VisitAll(VisitAll(s, a), b)
  {
    if b != [] {
      var n := |b|;
      assert (a + b)[..|a + b| - 1] == a + b[..n - 1];
      assert (a + b)[|a + b| - 1] == b[n - 1];
      VisitAllAppend(s, a, b[..n - 1]);
    } else {
      assert a + b == a;
    }
  }

  /** What the scan holds after a run of points: nothing found exactly when
      the run is empty, and otherwise finite bounds that are the run's
      extremes. */
  predicate ScanOf(s: Scan, pts: seq<Point>) {
    (s.found <==> pts != []) &&
    (pts == [] ==> s == Start) &&
    (pts != [] ==>
       s.minX.Finite? && s.maxX.Finite? && s.minY.Finite? && s.maxY.Finite? &&
       IsBounds(pts, (s.minX.v, s.maxX.v, s.minY.v, s.maxY.v)))
  }

  lemma {:induction false} VisitAllMeaning(pts: seq<Point>)
    ensures ScanOf(VisitAll(Start, pts), pts)
  {
    if pts != [] {
      var n := |pts|;
      var init, p := pts[..n - 1], pts[n - 1];
      assert pts == init + [p];
      VisitAllMeaning(init);
      VisitStep(VisitAll(Start, init), init, p);
    }
  }

  /** One more point keeps the scan exact. */
  lemma VisitStep(s: Scan, init: seq<Point>, p: Point)
    requires ScanOf(s, init)
    ensures ScanOf(Visit(s, p), init + [p])
  {
    var t := Visit(s, p);
    var pts := init + [p];
    assert p in pts;
    forall q | q in pts
      ensures t.minX.v <= q.lon <= t.maxX.v && t.minY.v <= q.lat <= t.maxY.v
    {
      if q != p {
        assert q in init;
      }
    }
    if init != [] {
      var b := (s.minX.v, s.maxX.v, s.minY.v, s.maxY.v);
      var q0 :| q0 in init && q0.lon == b.0;
      var q1 :| q1 in init && q1.lon == b.1;
      var q2 :| q2 in init && q2.lat == b.2;
      var q3 :| q3 in init && q3.lat == b.3;
      assert q0 in pts && q1 in pts && q2 in pts && q3 in pts;
    }
  }

  /** The innermost loop, over the coordinates of one line. */
  method ScanLine(s0: Scan, line: Line) returns (s: Scan)
    ensures s == VisitAll(s0, line)
  {
    s := s0;
    var minX, maxX, minY, maxY, found := s.minX, s.maxX, s.minY, s.maxY, s.found;
    var k := 0;
    while k < |line|
      invariant 0 <= k <= |line|
      invariant Scan(minX, maxX, minY, maxY, found) == VisitAll(s0, line[..k])
    {
      var x, y := line[k].lon, line[k].lat;
      found := true;
      if Below(x, minX) {
        minX := Finite(x);
      }
      if Above(x, maxX) {
        maxX := Finite(x);
      }
      if Below(y, minY) {
        minY := Finite(y);
      }
      if Above(y, maxY) {
        maxY := Finite(y);
      }
      assert line[..k + 1][..k] == line[..k];
      k := k + 1;
    }
    assert line[..k] == line;
    s := Scan(minX, maxX, minY, maxY, found);
  }

  /** The middle loop, over the lines of one list. */
  method ScanLines(s0: Scan, lines: seq<Line>) returns (s: Scan)
    ensures s == VisitAll(s0, Flatten(lines))
  {
    s := s0;
    var j := 0;
    while j < |lines|
      invariant 0 <= j <= |lines|
      invariant s == VisitAll(s0, Flatten(lines[..j]))
    {
      assert lines[..j + 1][..j] == lines[..j];
      VisitAllAppend(s0, Flatten(lines[..j]), lines[j]);
      s := ScanLine(s, lines[j]);
      j := j + 1;
    }
    assert lines[..j] == lines;
  }

  /** `bounds_from_segments(*segments_lists)`: RuntimeError when no list
      holds a coordinate, else (min_x, max_x, min_y, max_y) — an order
      unlike `line_bbox`'s. */
  method BoundsFromSegments(lists: seq<seq<Line>>) returns (r: Result<(real, real, real, real)>)
    ensures r.Err? <==> AllPoints(lists) == []
    ensures r.Err? ==> r.error == "RuntimeError"
    ensures r.Ok? ==> IsBounds(AllPoints(lists), r.value)
  {
    var s := Start;
    var i := 0;
    while i < |lists|
      invariant 0 <= i <= |lists|
      invariant s == VisitAll(Start, AllPoints(lists[..i]))
    {
      assert lists[..i + 1][..i] == lists[..i];
      VisitAllAppend(Start, AllPoints(lists[..i]), Flatten(lists[i]));
      s := ScanLines(s, lists[i]);
      i := i + 1;
    }
    assert lists[..i] == lists;
    VisitAllMeaning(AllPoints(lists));
    if !s.found {
      return Err("RuntimeError");
    }
    r := Ok((s.minX.v, s.maxX.v, s.minY.v, s.maxY.v));
  }

  /** The bounds of a point set are unique: any two tuples that both bound
      the points and are attained coincide, so `IsBounds` pins down the
      minima and maxima. */
  lemma BoundsUnique(pts: seq<Point>, a: (real, real, real, real), b: (real, real, real, real))
    requires IsBounds(pts, a) && IsBounds(pts, b)
    ensures a == b
  {
    var p0 :| p0 in pts && p0.lon == a.0;
    var q0 :| q0 in pts && q0.lon == b.0;
    var p1 :| p1 in pts && p1.lon == a.1;
    var q1 :| q1 in pts && q1.lon == b.1;
    var p2 :| p2 in pts && p2.lat == a.2;
    var q2 :| q2 in pts && q2.lat == b.2;
    var p3 :| p3 in pts && p3.lat == a.3;
    var q3 :| q3 in pts && q3.lat == b.3;
  }

  /** A coordinate is scanned exactly when it lies on some line of some
      list. */
  lemma {:induction false} AllPointsMembers(lists: seq<seq<Line>>, p: Point)
    ensures p in AllPoints(lists) <==>
            exists i, j :: 0 <= i < |lists| && 0 <= j < |lists[i]| && p in lists[i][j]
  {
    if lists != [] {
      var n := |lists|;
      AllPointsMembers(lists[..n - 1], p);
      FlattenMembers(lists[n - 1], p);
      if p in AllPoints(lists[..n - 1]) {
        var i, j :| 0 <= i < n - 1 && 0 <= j < |lists[..n - 1][i]| && p in lists[..n - 1][i][j];
        assert lists[i] == lists[..n - 1][i];
      }
      if exists i, j :: 0 <= i < |lists| && 0 <= j < |lists[i]| && p in lists[i][j] {
        var i, j :| 0 <= i < |lists| && 0 <= j < |lists[i]| && p in lists[i][j];
        if i < n - 1 {
          assert lists[..n - 1][i] == lists[i];
        }
      }
    }
  }

  lemma {:induction false} FlattenMembers(lines: seq<Line>, p: Point)
    ensures p in Flatten(lines) <==> exists j :: 0 <= j < |lines| && p in lines[j]
  {
    if lines != [] {
      var n := |lines|;
      var init, last := lines[..n - 1], lines[n - 1];
      assert Flatten(lines) == Flatten(init) + last;
      FlattenMembers(init, p);
      if p in Flatten(init) {
        var j :| 0 <= j < n - 1 && p in init[j];
        assert lines[j] == init[j];
      } else if p in last {
        assert p in lines[n - 1];
      }
      if exists j :: 0 <= j < |lines| && p in lines[j] {
        var j :| 0 <= j < |lines| && p in lines[j];
        if j < n - 1 {
          assert init[j] == lines[j];
        }
      }
    }
  }

  /** A list of lines of two or more points has coordinates once it has a
      line. */
  lemma FlattenNonEmpty(lines: seq<Line>)
    requires lines != [] && |lines[0]| >= 2
    ensures Flatten(lines) != []
  {
    FlattenMembers(lines, lines[0][0]);
  }

  /** `main` up to the plot: both files must yield segments (RuntimeError
      otherwise), and then the bounds scan over both cannot fail. */
  method CompareBounds(base: FeatureCollection, overlay: FeatureCollection)
    returns (r: Result<(real, real, real, real)>, baseSegs: seq<Line>, overlaySegs: seq<Line>)
    ensures baseSegs == IterLines(base.features) && overlaySegs == IterLines(overlay.features)
    ensures r.Err? <==> baseSegs == [] || overlaySegs == []
    ensures r.Err? ==> r.error == "RuntimeError"
    ensures r.Ok? ==> IsBounds(AllPoints([baseSegs, overlaySegs]), r.value)
  {
    baseSegs := CollectSegments(base);
    overlaySegs := CollectSegments(overlay);
    if baseSegs == [] {
      return Err("RuntimeError"), baseSegs, overlaySegs;
    }
    if overlaySegs == [] {
      return Err("RuntimeError"), baseSegs, overlaySegs;
    }
    FlattenNonEmpty(baseSegs);
    assert [baseSegs, overlaySegs][..1] == [baseSegs];
    assert AllPoints([baseSegs]) == Flatten(baseSegs) by {
      assert [baseSegs][..0] == [];
    }
    r := BoundsFromSegments([baseSegs, overlaySegs]);
  }
}
