/** The shoreline geometry pipeline of `coastline_tools/coastline_pipeline.py`:
    reading polylines out of GeoJSON, the bounding-box reject test, greedy
    point thinning, path lengths, the length filter, length-bounded
    splitting and feature emission. Every `*_degrees`/plain variant is the
    `*_meters` variant over `DegreePlane()`. */
module CoastlinePipeline {
  import opened Wrappers
  import opened Geometry

  // ---------------------------------------------------------------- GeoJSON

  /** The `geometry` member of a feature; `NoGeometry` is a missing or null
      geometry, `OtherGeometry` any other `type`. */
  datatype Geom =
    | NoGeometry
    | LineString(coords: Line)
    | MultiLineString(lines: seq<Line>)
    | OtherGeometry

  /** The `properties` the tools write: the source tag and, in the chunked
      viewer output, a segment id and a bbox. */
  datatype Properties = Properties(source: string, segmentId: Option<nat>, bbox: Option<BBox>)

  datatype Feature = Feature(props: Properties, geom: Geom)

  /** A FeatureCollection; a missing `features` member is the empty list. */
  datatype FeatureCollection = FeatureCollection(name: string, features: seq<Feature>)

  const CollectionName: string := "shoreline_puget"

  /** The lines of `ls` with at least two points, in order. */
  function AtLeastTwo(ls: seq<Line>): (r: seq<Line>)
    ensures forall k :: 0 <= k < |r| ==> |r[k]| >= 2
    ensures forall l :: l in r <==> l in ls && |l| >= 2
  {
    if ls == [] then []
    else
      var rest := AtLeastTwo(ls[1..]);
      assert forall l :: l in ls <==> l == ls[0] || l in ls[1..];
      if |ls[0]| >= 2 then [ls[0]] + rest else rest
  }

  /** The polylines one geometry contributes. */
  function LinesOf(g: Geom): seq<Line> {
    match g
    case LineString(c) => if |c| >= 2 then [c] else []
    case MultiLineString(ls) => AtLeastTwo(ls)
    case _ => []
  }

  /** `iter_lines_from_geojson`: every LineString and every MultiLineString
      part with at least two points, in feature order. */
  function IterLines(fs: seq<Feature>): (r: seq<Line>)
    ensures forall k :: 0 <= k < |r| ==> |r[k]| >= 2
  {
    if fs == [] then [] else LinesOf(fs[0].geom) + IterLines(fs[1..])
  }

  /** Reading two feature lists one after the other. */
  lemma {:induction false} IterLinesAppend(a: seq<Feature>, b: seq<Feature>)
    ensures IterLines(a + b) == IterLines(a) + IterLines(b)
  {
    if a != [] {
      assert (a + b)[1..] == a[1..] + b;
      IterLinesAppend(a[1..], b);
    } else {
      assert a + b == b;
    }
  }

  /** A line is read iff it has two or more points and is some feature's
      LineString or one part of some feature's MultiLineString. */
  lemma {:induction false} IterLinesMembers(fs: seq<Feature>, l: Line)
    ensures l in IterLines(fs) <==>
      |l| >= 2 && exists k :: (0 <= k < |fs| &&
        (fs[k].geom == LineString(l) || (fs[k].geom.MultiLineString? && l in fs[k].geom.lines)))
  {
    if fs != [] {
      IterLinesMembers(fs[1..], l);
      assert forall k :: 1 <= k < |fs| ==> fs[k] == fs[1..][k - 1];
      if l in IterLines(fs[1..]) {
        var k :| 0 <= k < |fs[1..]| &&
          (fs[1..][k].geom == LineString(l) || (fs[1..][k].geom.MultiLineString? && l in fs[1..][k].geom.lines));
        assert fs[k + 1] == fs[1..][k];
      }
    }
  }

  // ------------------------------------------------------------ subsequence

  /** `a` is obtained from `b` by deleting elements, keeping order. */
  predicate IsSubseq<T(==)>(a: seq<T>, b: seq<T>)
    decreases |b|
  {
    |a| <= |b| &&
    (a == [] || (a[0] == b[0] && IsSubseq(a[1..], b[1..])) || IsSubseq(a, b[1..]))
  }

  lemma {:induction false} SubseqRefl<T>(a: seq<T>)
    ensures IsSubseq(a, a)
  {
    if a != [] {
      SubseqRefl(a[1..]);
    }
  }

  lemma SubseqCons<T>(x: T, a: seq<T>, b: seq<T>)
    requires IsSubseq(a, b)
    ensures IsSubseq([x] + a, [x] + b)
  {
    assert ([x] + a)[1..] == a && ([x] + b)[1..] == b;
  }

  lemma SubseqSkip<T>(a: seq<T>, x: T, b: seq<T>)
    requires IsSubseq(a, b)
    ensures IsSubseq(a, [x] + b)
  {
    assert ([x] + b)[1..] == b;
  }

  lemma {:induction false} SubseqExtend<T>(a: seq<T>, b: seq<T>, y: T)
    requires IsSubseq(a, b)
    ensures IsSubseq(a, b + [y])
  {
    if a != [] {
      assert (b + [y])[1..] == b[1..] + [y];
      if a[0] == b[0] && IsSubseq(a[1..], b[1..]) {
        SubseqExtend(a[1..], b[1..], y);
      } else {
        SubseqExtend(a, b[1..], y);
      }
    }
  }

  lemma {:induction false} SubseqSnoc<T>(a: seq<T>, b: seq<T>, y: T)
    requires IsSubseq(a, b)
    ensures IsSubseq(a + [y], b + [y])
  {
    if b == [] {
      assert a == [];
      assert (a + [y])[1..] == [] && (b + [y])[1..] == [];
    } else if a == [] {
      assert IsSubseq(a, b[1..]);
      SubseqSnoc(a, b[1..], y);
      assert (b + [y])[1..] == b[1..] + [y];
    } else if a[0] == b[0] && IsSubseq(a[1..], b[1..]) {
      SubseqSnoc(a[1..], b[1..], y);
      assert (a + [y])[1..] == a[1..] + [y];
      assert (b + [y])[1..] == b[1..] + [y];
    } else {
      SubseqSnoc(a, b[1..], y);
      assert (b + [y])[1..] == b[1..] + [y];
    }
  }

  // ----------------------------------------------------------- bbox reject

  predicate WhollyWest(line: Line, b: BBox) { forall k :: 0 <= k < |line| ==> line[k].lon < b.lonMin }
  predicate WhollyEast(line: Line, b: BBox) { forall k :: 0 <= k < |line| ==> line[k].lon > b.lonMax }
  predicate WhollySouth(line: Line, b: BBox) { forall k :: 0 <= k < |line| ==> line[k].lat < b.latMin }
  predicate WhollyNorth(line: Line, b: BBox) { forall k :: 0 <= k < |line| ==> line[k].lat > b.latMax }

  /** The test `clip_lines_to_bbox` keeps a line by: it has a point and its
      own bbox is not entirely beyond one side of the query box. */
  predicate Intersects(line: Line, b: BBox) {
    |line| >= 1 &&
    var bb := LineBbox(line);
    !(bb.lonMax < b.lonMin || bb.lonMin > b.lonMax || bb.latMax < b.latMin || bb.latMin > b.latMax)
  }

  /** The reject test drops a non-empty line exactly when all its points lie
      west, east, south or north of the box. */
  lemma IntersectsMeaning(line: Line, b: BBox)
    requires |line| >= 1
    ensures Intersects(line, b) <==>
      !(WhollyWest(line, b) || WhollyEast(line, b) || WhollySouth(line, b) || WhollyNorth(line, b))
  {
    var bb := LineBbox(line);
    LineBboxTight(line);
    var i0 :| 0 <= i0 < |line| && line[i0].lon == bb.lonMin;
    var i1 :| 0 <= i1 < |line| && line[i1].lat == bb.latMin;
    var i2 :| 0 <= i2 < |line| && line[i2].lon == bb.lonMax;
    var i3 :| 0 <= i3 < |line| && line[i3].lat == bb.latMax;
  }

  /** The lines `clip_lines_to_bbox` keeps, in input order. */
  function Clipped(lines: seq<Line>, b: BBox): (r: seq<Line>)
    ensures |r| <= |lines|
  {
    if lines == [] then []
    else
      var n := |lines|;
      Clipped(lines[..n - 1], b) + (if Intersects(lines[n - 1], b) then [lines[n - 1]] else [])
  }

  /** Clipping keeps a line, unmodified, iff it intersects the box, and the
      kept lines are a subsequence of the input. */
  lemma {:induction false} ClippedMeaning(lines: seq<Line>, b: BBox)
    ensures forall l :: l in Clipped(lines, b) <==> l in lines && Intersects(l, b)
    ensures IsSubseq(Clipped(lines, b), lines)
  {
    if lines != [] {
      var n := |lines|;
      var init := lines[..n - 1];
      ClippedMeaning(init, b);
      assert lines == init + [lines[n - 1]];
      assert forall l :: l in lines <==> l in init || l == lines[n - 1];
      if Intersects(lines[n - 1], b) {
        SubseqSnoc(Clipped(init, b), init, lines[n - 1]);
      } else {
        assert Clipped(lines, b) == Clipped(init, b);
        SubseqExtend(Clipped(init, b), init, lines[n - 1]);
      }
    }
  }

  /** `clip_lines_to_bbox`. */
  method ClipLinesToBbox(lines: seq<Line>, lonMin: real, latMin: real, lonMax: real, latMax: real)
    returns (kept: seq<Line>)
    ensures kept == Clipped(lines, BBox(lonMin, latMin, lonMax, latMax))
  {
    var b := BBox(lonMin, latMin, lonMax, latMax);
    kept := [];
    var i := 0;
    while i < |lines|
      invariant 0 <= i <= |lines|
      invariant kept == Clipped(lines[..i], b)
    {
      var line := lines[i];
      assert lines[..i + 1][..i] == lines[..i];
      if |line| == 0 {
        i := i + 1;
        continue;
      }
      var bb := LineBbox(line);
      if bb.lonMax < lonMin || bb.lonMin > lonMax || bb.latMax < latMin || bb.latMin > latMax {
        i := i + 1;
        continue;
      }
      kept := kept + [line];
      i := i + 1;
    }
    assert lines[..i] == lines;
  }

  // ---------------------------------------------------------------- length

  /** `line_length_meters` (and, over `DegreePlane()`,
      `line_length_degrees`): the sum of the projected edge lengths. */
  method LineLengthMeters(line: Line, proj: Projection, hypot: Hypot) returns (total: real)
    ensures total == PathLength(proj, hypot, line)
  {
    if |line| < 2 {
      return 0.0;
    }
    total := 0.0;
    var i := 1;
    while i < |line|
      invariant 1 <= i <= |line|
      invariant total == PathLength(proj, hypot, line[..i])
    {
      var a := proj.fwd(line[i - 1]);
      var b := proj.fwd(line[i]);
      PathLengthSnoc(proj, hypot, line[..i], line[i]);
      assert line[..i + 1] == line[..i] + [line[i]];
      total := total + hypot(b.x - a.x, b.y - a.y);
      i := i + 1;
    }
    assert line[..i] == line;
  }

  method LineLengthDegrees(line: Line, hypot: Hypot) returns (total: real)
    ensures total == PathLength(DegreePlane(), hypot, line)
  {
    total := LineLengthMeters(line, DegreePlane(), hypot);
  }

  // -------------------------------------------------------------- thinning

  /** The interior points thinning keeps, given the last kept projected
      position: a point is kept when its squared distance from the last kept
      point is at least `tol2`, and then becomes the last kept point. */
  function Keep(proj: Projection, tol2: real, last: XY, rest: Line): (r: Line)
    ensures |r| <= |rest|
    decreases |rest|
  {
    if rest == [] then []
    else
      var q := proj.fwd(rest[0]);
      if Dist2(q, last) >= tol2 then [rest[0]] + Keep(proj, tol2, q, rest[1..])
      else Keep(proj, tol2, last, rest[1..])
  }

  lemma {:induction false} KeepSubseq(proj: Projection, tol2: real, last: XY, rest: Line)
    ensures IsSubseq(Keep(proj, tol2, last, rest), rest)
    decreases |rest|
  {
    if rest != [] {
      var q := proj.fwd(rest[0]);
      assert rest == [rest[0]] + rest[1..];
      if Dist2(q, last) >= tol2 {
        KeepSubseq(proj, tol2, q, rest[1..]);
        SubseqCons(rest[0], Keep(proj, tol2, q, rest[1..]), rest[1..]);
      } else {
        KeepSubseq(proj, tol2, last, rest[1..]);
        SubseqSkip(Keep(proj, tol2, last, rest[1..]), rest[0], rest[1..]);
      }
    }
  }

  /** The result of `simplify_line_meters`: lines of at most two points are
      returned as they are; otherwise the first point, the kept interior
      points and the last point. */
  function Simplified(proj: Projection, tol: real, line: Line): (r: Line)
  {
    if |line| <= 2 then line
    else [line[0]] + Keep(proj, tol * tol, proj.fwd(line[0]), line[1..|line| - 1]) + [line[|line| - 1]]
  }

  /** `simplify_line_meters`. */
  method SimplifyLineMeters(line: Line, tol: real, proj: Projection) returns (out: Line)
    ensures out == Simplified(proj, tol, line)
  {
    if |line| <= 2 {
      return line;
    }
    var n := |line|;
    out := [line[0]];
    var last := proj.fwd(line[0]);
    var tol2 := tol * tol;
    var i := 1;
    while i < n - 1
      invariant 1 <= i <= n - 1
      invariant out + Keep(proj, tol2, last, line[i..n - 1])
             == [line[0]] + Keep(proj, tol2, proj.fwd(line[0]), line[1..n - 1])
    {
      var q := proj.fwd(line[i]);
      assert line[i..n - 1][1..] == line[i + 1..n - 1];
      if Dist2(q, last) >= tol2 {
        out := out + [line[i]];
        last := q;
      }
      i := i + 1;
    }
    out := out + [line[n - 1]];
  }

  /** `simplify_line`: thinning with the tolerance in degrees. */
  method SimplifyLine(line: Line, tol: real) returns (out: Line)
    ensures out == Simplified(DegreePlane(), tol, line)
  {
    out := SimplifyLineMeters(line, tol, DegreePlane());
  }

  /** Thinning returns short lines unchanged; otherwise it keeps the first
      and the last point and deletes only interior points. */
  lemma SimplifiedShape(proj: Projection, tol: real, line: Line)
    ensures var r := Simplified(proj, tol, line);
      IsSubseq(r, line) &&
      (|line| <= 2 ==> r == line) &&
      (|line| > 2 ==> 2 <= |r| <= |line| && r[0] == line[0] && r[|r| - 1] == line[|line| - 1])
  {
    var r := Simplified(proj, tol, line);
    if |line| <= 2 {
      SubseqRefl(line);
    } else {
      var n := |line|;
      var mid := line[1..n - 1];
      var k := Keep(proj, tol * tol, proj.fwd(line[0]), mid);
      KeepSubseq(proj, tol * tol, proj.fwd(line[0]), mid);
      SubseqSnoc(k, mid, line[n - 1]);
      SubseqCons(line[0], k + [line[n - 1]], mid + [line[n - 1]]);
      assert [line[0]] + k + [line[n - 1]] == [line[0]] + (k + [line[n - 1]]);
      assert line == [line[0]] + (mid + [line[n - 1]]);
    }
  }

  /** Every point `Keep` keeps is at squared distance at least `tol2` from
      the point kept before it (the first from `last`). */
  lemma {:induction false} KeepSpacing(proj: Projection, tol2: real, last: XY, rest: Line)
    decreases |rest|
    ensures var r := Keep(proj, tol2, last, rest);
      (|r| > 0 ==> Dist2(proj.fwd(r[0]), last) >= tol2) &&
      forall k :: 1 <= k < |r| ==> Dist2(proj.fwd(r[k]), proj.fwd(r[k - 1])) >= tol2
  {
    if rest != [] {
      var q := proj.fwd(rest[0]);
      if Dist2(q, last) >= tol2 {
        KeepSpacing(proj, tol2, q, rest[1..]);
      } else {
        KeepSpacing(proj, tol2, last, rest[1..]);
      }
    }
  }

  /** One step of thinning spelled out: nothing is kept iff every point is
      closer than the tolerance to `last`; otherwise the first kept point is
      the first point at least that far, every point before it is dropped
      because it is closer, and thinning resumes from it. */
  lemma {:induction false} KeepUnfold(proj: Projection, tol2: real, last: XY, rest: Line)
    decreases |rest|
    ensures var r := Keep(proj, tol2, last, rest);
      (r == [] <==> forall i :: 0 <= i < |rest| ==> Dist2(proj.fwd(rest[i]), last) < tol2) &&
      (r != [] ==> exists j :: (0 <= j < |rest| &&
         Dist2(proj.fwd(rest[j]), last) >= tol2 &&
         (forall i :: 0 <= i < j ==> Dist2(proj.fwd(rest[i]), last) < tol2) &&
         r == [rest[j]] + Keep(proj, tol2, proj.fwd(rest[j]), rest[j + 1..])))
  {
    if rest != [] {
      var q := proj.fwd(rest[0]);
      if Dist2(q, last) < tol2 {
        KeepUnfold(proj, tol2, last, rest[1..]);
        assert forall i :: 1 <= i < |rest| ==> rest[i] == rest[1..][i - 1];
        var r := Keep(proj, tol2, last, rest);
        if r != [] {
          var j :| 0 <= j < |rest[1..]| &&
            Dist2(proj.fwd(rest[1..][j]), last) >= tol2 &&
            (forall i :: 0 <= i < j ==> Dist2(proj.fwd(rest[1..][i]), last) < tol2) &&
            r == [rest[1..][j]] + Keep(proj, tol2, proj.fwd(rest[1..][j]), rest[1..][j + 1..]);
          assert rest[1..][j + 1..] == rest[j + 2..];
          assert Dist2(proj.fwd(rest[j + 1]), last) >= tol2;
        }
      } else {
        assert Dist2(proj.fwd(rest[0]), last) >= tol2;
      }
    }
  }

  /** An example: points 0, 1, 2, 3, 4 on a line with
      tolerance 2 keep 0, 2 and 4. */
  lemma ThinningExample()
    ensures Simplified(DegreePlane(), 2.0,
      [Point(0.0, 0.0), Point(1.0, 0.0), Point(2.0, 0.0), Point(3.0, 0.0), Point(4.0, 0.0)])
      == [Point(0.0, 0.0), Point(2.0, 0.0), Point(4.0, 0.0)]
  {
    var line := [Point(0.0, 0.0), Point(1.0, 0.0), Point(2.0, 0.0), Point(3.0, 0.0), Point(4.0, 0.0)];
    var d := DegreePlane();
    assert line[1..4] == [Point(1.0, 0.0), Point(2.0, 0.0), Point(3.0, 0.0)];
    assert Keep(d, 4.0, XY(2.0, 0.0), [Point(3.0, 0.0)]) == [];
    assert Keep(d, 4.0, XY(0.0, 0.0), [Point(2.0, 0.0), Point(3.0, 0.0)]) == [Point(2.0, 0.0)];
    assert Keep(d, 4.0, XY(0.0, 0.0), line[1..4]) == [Point(2.0, 0.0)];
  }

  // ------------------------------------------- simplify and filter many lines

  /** What `simplify_lines_meters` keeps: each line thinned, then dropped if
      it has fewer than two points or is shorter than `minLen`. */
  function SimplifiedLines(proj: Projection, hypot: Hypot, tol: real, minLen: real, lines: seq<Line>)
    : (r: seq<Line>)
    ensures |r| <= |lines|
    ensures forall k :: 0 <= k < |r| ==> LongEnough(proj, hypot, minLen, r[k])
  {
    if lines == [] then []
    else
      var n := |lines|;
      var s := Simplified(proj, tol, lines[n - 1]);
      SimplifiedLines(proj, hypot, tol, minLen, lines[..n - 1])
        + (if LongEnough(proj, hypot, minLen, s) then [s] else [])
  }

  /** Every surviving line is the thinned form of an input line. */
  lemma {:induction false} SimplifiedLinesFrom(proj: Projection, hypot: Hypot, tol: real, minLen: real, lines: seq<Line>)
    ensures forall l :: l in SimplifiedLines(proj, hypot, tol, minLen, lines) ==>
      exists i :: 0 <= i < |lines| && l == Simplified(proj, tol, lines[i])
  {
    if lines != [] {
      var n := |lines|;
      SimplifiedLinesFrom(proj, hypot, tol, minLen, lines[..n - 1]);
      assert forall i :: 0 <= i < n - 1 ==> lines[i] == lines[..n - 1][i];
    }
  }

  lemma SimplifiedLinesStep(proj: Projection, hypot: Hypot, tol: real, minLen: real, lines: seq<Line>, i: nat)
    requires i < |lines|
    ensures var s := Simplified(proj, tol, lines[i]);
      SimplifiedLines(proj, hypot, tol, minLen, lines[..i + 1])
      == SimplifiedLines(proj, hypot, tol, minLen, lines[..i])
         + (if LongEnough(proj, hypot, minLen, s) then [s] else [])
  {
    assert lines[..i + 1][..i] == lines[..i];
  }

  /** `simplify_lines_meters`. */
  method SimplifyLinesMeters(lines: seq<Line>, tol: real, minLen: real, proj: Projection, hypot: Hypot)
    returns (out: seq<Line>)
    ensures out == SimplifiedLines(proj, hypot, tol, minLen, lines)
  {
    out := [];
    var i := 0;
    while i < |lines|
      invariant 0 <= i <= |lines|
      invariant out == SimplifiedLines(proj, hypot, tol, minLen, lines[..i])
    {
      var slim := SimplifyLineMeters(lines[i], tol, proj);
      SimplifiedLinesStep(proj, hypot, tol, minLen, lines, i);
      if |slim| >= 2 {
        var len := LineLengthMeters(slim, proj, hypot);
        if len >= minLen {
          out := out + [slim];
        }
      }
      i := i + 1;
    }
    assert lines[..i] == lines;
  }

  /** `simplify_lines`: the same in degree space. */
  method SimplifyLines(lines: seq<Line>, tol: real, minLen: real, hypot: Hypot) returns (out: seq<Line>)
    ensures out == SimplifiedLines(DegreePlane(), hypot, tol, minLen, lines)
  {
    out := SimplifyLinesMeters(lines, tol, minLen, DegreePlane(), hypot);
  }

  /** The lines with at least two points and length at least `minLen`. */
  function LongLines(proj: Projection, hypot: Hypot, minLen: real, lines: seq<Line>): (r: seq<Line>)
    ensures |r| <= |lines|
  {
    if lines == [] then []
    else
      var n := |lines|;
      LongLines(proj, hypot, minLen, lines[..n - 1])
        + (if LongEnough(proj, hypot, minLen, lines[n - 1]) then [lines[n - 1]] else [])
  }

  /** A line passes the length filter: two or more points, at least
      `minLen` long. */
  predicate LongEnough(proj: Projection, hypot: Hypot, minLen: real, l: Line) {
    |l| >= 2 && PathLength(proj, hypot, l) >= minLen
  }

  /** The length filter keeps, in order, exactly the lines with two or more
      points that are at least `minLen` long. */
  lemma {:induction false} LongLinesMembers(proj: Projection, hypot: Hypot, minLen: real, lines: seq<Line>, l: Line)
    ensures l in LongLines(proj, hypot, minLen, lines) <==> l in lines && LongEnough(proj, hypot, minLen, l)
  {
    if lines != [] {
      var n := |lines|;
      LongLinesMembers(proj, hypot, minLen, lines[..n - 1], l);
      assert lines == lines[..n - 1] + [lines[n - 1]];
      assert l in lines <==> l in lines[..n - 1] || l == lines[n - 1];
    }
  }

  lemma {:induction false} LongLinesSubseq(proj: Projection, hypot: Hypot, minLen: real, lines: seq<Line>)
    ensures IsSubseq(LongLines(proj, hypot, minLen, lines), lines)
  {
    if lines != [] {
      var n := |lines|;
      var init := lines[..n - 1];
      LongLinesSubseq(proj, hypot, minLen, init);
      var t := LongLines(proj, hypot, minLen, init);
      assert lines == init + [lines[n - 1]];
      if LongEnough(proj, hypot, minLen, lines[n - 1]) {
        SubseqSnoc(t, init, lines[n - 1]);
      } else {
        assert LongLines(proj, hypot, minLen, lines) == t;
        SubseqExtend(t, init, lines[n - 1]);
      }
    }
  }

  /** `filter_lines_min_length_meters`: the input itself when `minLen <= 0`,
      the long lines otherwise. */
  method FilterLinesMinLengthMeters(lines: seq<Line>, minLen: real, proj: Projection, hypot: Hypot)
    returns (out: seq<Line>)
    ensures minLen <= 0.0 ==> out == lines
    ensures minLen > 0.0 ==> out == LongLines(proj, hypot, minLen, lines)
  {
    if minLen <= 0.0 {
      return lines;
    }
    out := [];
    var i := 0;
    while i < |lines|
      invariant 0 <= i <= |lines|
      invariant out == LongLines(proj, hypot, minLen, lines[..i])
    {
      assert lines[..i + 1][..i] == lines[..i];
      var line := lines[i];
      i := i + 1;
      if |line| < 2 {
        continue;
      }
      var len := LineLengthMeters(line, proj, hypot);
      if len >= minLen {
        out := out + [line];
      }
    }
    assert lines[..i] == lines;
  }

  /** With a positive threshold, every line left is long enough; with
      none the filter changes nothing, so a line of fewer than two points
      can survive it. */
  lemma FilterOutputLong(proj: Projection, hypot: Hypot, minLen: real, lines: seq<Line>)
    requires minLen > 0.0
    ensures forall l :: l in LongLines(proj, hypot, minLen, lines) ==>
      |l| >= 2 && PathLength(proj, hypot, l) >= minLen
  {
    forall l | l in LongLines(proj, hypot, minLen, lines) {
      LongLinesMembers(proj, hypot, minLen, lines, l);
    }
  }

  // ------------------------------------------------- length-bounded splitting

  /** The number of points of the first part when splitting `line`, searching
      from `k`: the part grows one vertex at a time until the next vertex
      would take its length above `maxLen` (a two-point part always takes
      its second vertex). */
  function CutAt(proj: Projection, hypot: Hypot, maxLen: real, line: Line, k: nat): (c: nat)
    requires 2 <= k <= |line|
    ensures k <= c <= |line|
    decreases |line| - k
  {
    if k == |line| || PathLength(proj, hypot, line[..k + 1]) > maxLen then k
    else CutAt(proj, hypot, maxLen, line, k + 1)
  }

  /** The cut is the first prefix whose extension by one vertex is too long. */
  lemma {:induction false} CutAtMeaning(proj: Projection, hypot: Hypot, maxLen: real, line: Line, k: nat)
    requires 2 <= k <= |line|
    ensures var c := CutAt(proj, hypot, maxLen, line, k);
      (forall j :: k < j <= c ==> PathLength(proj, hypot, line[..j]) <= maxLen) &&
      (c < |line| ==> PathLength(proj, hypot, line[..c + 1]) > maxLen)
    decreases |line| - k
  {
    if !(k == |line| || PathLength(proj, hypot, line[..k + 1]) > maxLen) {
      CutAtMeaning(proj, hypot, maxLen, line, k + 1);
    }
  }

  /** Any `c` with the two properties of `CutAtMeaning` is the cut. */
  lemma {:induction false} CutAtIs(proj: Projection, hypot: Hypot, maxLen: real, line: Line, k: nat, c: nat)
    requires 2 <= k <= c <= |line|
    requires forall j :: k < j <= c ==> PathLength(proj, hypot, line[..j]) <= maxLen
    requires c < |line| ==> PathLength(proj, hypot, line[..c + 1]) > maxLen
    ensures CutAt(proj, hypot, maxLen, line, k) == c
    decreases |line| - k
  {
    if k < c {
      assert PathLength(proj, hypot, line[..k + 1]) <= maxLen;
      CutAtIs(proj, hypot, maxLen, line, k + 1, c);
    }
  }

  /** The parts `split_line_max_length_meters` returns: none for fewer than
      two points; otherwise the first part as cut by `CutAt`, followed by the
      parts of the rest of the line starting again at the first part's last
      vertex. */
  function Chunks(proj: Projection, hypot: Hypot, maxLen: real, line: Line): seq<Line>
    decreases |line|
  {
    if |line| < 2 then []
    else
      var c := CutAt(proj, hypot, maxLen, line, 2);
      if c == |line| then [line]
      else [line[..c]] + Chunks(proj, hypot, maxLen, line[c - 1..])
  }

  /** The loop state of `split_line_max_length_meters` after visiting
      vertices `0..i-1`: `parts` are the closed parts, the open part `cur`
      runs from vertex `s` to `i-1` with length `accum`, no prefix of it of
      three or more points was too long, and chunking the rest of the line
      from `s` completes `parts`. */
  ghost predicate SplitState(proj: Projection, hypot: Hypot, maxLen: real, line: Line,
                             parts: seq<Line>, cur: Line, accum: real, s: nat, i: nat) {
    1 <= i <= |line| && s < i && (i > 1 ==> i - s >= 2) &&
    cur == line[s..i] && accum == PathLength(proj, hypot, cur) &&
    (forall j :: s + 3 <= j <= i ==> PathLength(proj, hypot, line[s..j]) <= maxLen) &&
    parts + Chunks(proj, hypot, maxLen, line[s..]) == Chunks(proj, hypot, maxLen, line)
  }

  lemma SplitStateInit(proj: Projection, hypot: Hypot, maxLen: real, line: Line)
    requires |line| >= 2
    ensures SplitState(proj, hypot, maxLen, line, [], [line[0]], 0.0, 0, 1)
  {
    assert line[0..] == line;
    assert line[0..1] == [line[0]];
  }

  /** The loop closes the open part when it has two or more points and the
      next edge would take it over the limit; the new open part is that
      edge. */
  lemma SplitStateCut(proj: Projection, hypot: Hypot, maxLen: real, line: Line,
                      parts: seq<Line>, cur: Line, accum: real, s: nat, i: nat, segLen: real)
    requires SplitState(proj, hypot, maxLen, line, parts, cur, accum, s, i)
    requires i < |line| && segLen == EdgeLen(proj, hypot, line[i - 1], line[i])
    requires |cur| > 1 && accum + segLen > maxLen
    ensures SplitState(proj, hypot, maxLen, line, parts + [cur], [line[i - 1], line[i]], segLen, i - 1, i + 1)
  {
    PathLengthSnoc(proj, hypot, cur, line[i]);
    assert line[s..i + 1] == cur + [line[i]];
    SplitCutHere(proj, hypot, maxLen, line, s, i);
    var edge := [line[i - 1], line[i]];
    assert line[i - 1..i + 1] == edge;
    assert edge[1..] == [line[i]];
    assert PathLength(proj, hypot, edge) == segLen;
    var tail := Chunks(proj, hypot, maxLen, line[i - 1..]);
    assert parts + ([cur] + tail) == (parts + [cur]) + tail;
  }

  /** Otherwise the next vertex joins the open part. */
  lemma SplitStateGrow(proj: Projection, hypot: Hypot, maxLen: real, line: Line,
                       parts: seq<Line>, cur: Line, accum: real, s: nat, i: nat, segLen: real)
    requires SplitState(proj, hypot, maxLen, line, parts, cur, accum, s, i)
    requires i < |line| && segLen == EdgeLen(proj, hypot, line[i - 1], line[i])
    requires !(|cur| > 1 && accum + segLen > maxLen)
    ensures SplitState(proj, hypot, maxLen, line, parts, cur + [line[i]], accum + segLen, s, i + 1)
  {
    PathLengthSnoc(proj, hypot, cur, line[i]);
    assert line[s..i + 1] == cur + [line[i]];
  }

  /** After the last vertex the open part is the last part. */
  lemma SplitStateDone(proj: Projection, hypot: Hypot, maxLen: real, line: Line,
                       parts: seq<Line>, cur: Line, accum: real, s: nat)
    requires |line| >= 2
    requires SplitState(proj, hypot, maxLen, line, parts, cur, accum, s, |line|)
    ensures |cur| >= 2 && parts + [cur] == Chunks(proj, hypot, maxLen, line)
  {
    SplitLastPart(proj, hypot, maxLen, line, s);
    assert cur == line[s..];
  }

  /** `split_line_max_length_meters`. */
  method SplitLineMaxLengthMeters(line: Line, maxLen: real, proj: Projection, hypot: Hypot)
    returns (parts: seq<Line>)
    ensures parts == Chunks(proj, hypot, maxLen, line)
  {
    if |line| < 2 {
      return [];
    }
    parts := [];
    var cur := [line[0]];
    var accum := 0.0;
    ghost var s := 0;
    SplitStateInit(proj, hypot, maxLen, line);
    var i := 1;
    while i < |line|
      invariant SplitState(proj, hypot, maxLen, line, parts, cur, accum, s, i)
      decreases |line| - i
    {
      var segLen := EdgeLen(proj, hypot, line[i - 1], line[i]);
      if |cur| > 1 && accum + segLen > maxLen {
        SplitStateCut(proj, hypot, maxLen, line, parts, cur, accum, s, i, segLen);
        parts := parts + [cur];
        cur := [line[i - 1], line[i]];
        accum := segLen;
        s := i - 1;
      } else {
        SplitStateGrow(proj, hypot, maxLen, line, parts, cur, accum, s, i, segLen);
        cur := cur + [line[i]];
        accum := accum + segLen;
      }
      i := i + 1;
    }
    SplitStateDone(proj, hypot, maxLen, line, parts, cur, accum, s);
    if |cur| >= 2 {
      parts := parts + [cur];
    }
  }

  /** Where the loop closes a part: the part so far is the first chunk of
      the rest of the line, and chunking resumes at its last vertex. */
  lemma SplitCutHere(proj: Projection, hypot: Hypot, maxLen: real, line: Line, s: nat, i: nat)
    requires s + 2 <= i < |line|
    requires forall j :: s + 3 <= j <= i ==> PathLength(proj, hypot, line[s..j]) <= maxLen
    requires PathLength(proj, hypot, line[s..i + 1]) > maxLen
    ensures Chunks(proj, hypot, maxLen, line[s..]) == [line[s..i]] + Chunks(proj, hypot, maxLen, line[i - 1..])
  {
    var rest := line[s..];
    forall j | 2 < j <= i - s
      ensures PathLength(proj, hypot, rest[..j]) <= maxLen
    {
      assert rest[..j] == line[s..s + j];
    }
    assert rest[..i - s + 1] == line[s..i + 1];
    CutAtIs(proj, hypot, maxLen, rest, 2, i - s);
    assert rest[..i - s] == line[s..i];
    assert rest[i - s - 1..] == line[i - 1..];
  }

  /** At the end of the loop the open part is the whole rest of the line. */
  lemma SplitLastPart(proj: Projection, hypot: Hypot, maxLen: real, line: Line, s: nat)
    requires s + 2 <= |line|
    requires forall j :: s + 3 <= j <= |line| ==> PathLength(proj, hypot, line[s..j]) <= maxLen
    ensures Chunks(proj, hypot, maxLen, line[s..]) == [line[s..]]
  {
    var rest := line[s..];
    forall j | 2 < j <= |rest|
      ensures PathLength(proj, hypot, rest[..j]) <= maxLen
    {
      assert rest[..j] == line[s..s + j];
    }
    CutAtIs(proj, hypot, maxLen, rest, 2, |rest|);
  }

  /** `split_line_max_length`: the same in degree space. */
  method SplitLineMaxLength(line: Line, maxLen: real, hypot: Hypot) returns (parts: seq<Line>)
    ensures parts == Chunks(DegreePlane(), hypot, maxLen, line)
  {
    parts := SplitLineMaxLengthMeters(line, maxLen, DegreePlane(), hypot);
  }

  /** Every part has at least two points, starts where the previous part
      ends, and the first starts at the line's first point; a line of two or
      more points gives at least one part, and a shorter one none. */
  lemma {:induction false} ChunksShape(proj: Projection, hypot: Hypot, maxLen: real, line: Line)
    ensures var parts := Chunks(proj, hypot, maxLen, line);
      (|line| < 2 <==> parts == []) &&
      (parts != [] ==> parts[0][0] == line[0]) &&
      (forall k :: 0 <= k < |parts| ==> |parts[k]| >= 2) &&
      (forall k :: 0 <= k < |parts| - 1 ==> parts[k][|parts[k]| - 1] == parts[k + 1][0])
    decreases |line|
  {
    if |line| >= 2 {
      var c := CutAt(proj, hypot, maxLen, line, 2);
      if c < |line| {
        var rest := line[c - 1..];
        ChunksShape(proj, hypot, maxLen, rest);
        var parts := Chunks(proj, hypot, maxLen, line);
        assert parts == [line[..c]] + Chunks(proj, hypot, maxLen, rest);
        assert forall k :: 1 <= k < |parts| ==> parts[k] == Chunks(proj, hypot, maxLen, rest)[k - 1];
      }
    }
  }

  /** Every part of three or more points is at most `maxLen` long; only a
      single two-point edge can exceed the limit. */
  lemma {:induction false} ChunksBounded(proj: Projection, hypot: Hypot, maxLen: real, line: Line)
    ensures var parts := Chunks(proj, hypot, maxLen, line);
      forall k :: 0 <= k < |parts| && |parts[k]| >= 3 ==> PathLength(proj, hypot, parts[k]) <= maxLen
    decreases |line|
  {
    if |line| >= 2 {
      var c := CutAt(proj, hypot, maxLen, line, 2);
      CutAtMeaning(proj, hypot, maxLen, line, 2);
      assert line[..|line|] == line;
      if c < |line| {
        var rest := line[c - 1..];
        ChunksBounded(proj, hypot, maxLen, rest);
        var parts := Chunks(proj, hypot, maxLen, line);
        assert forall k :: 1 <= k < |parts| ==> parts[k] == Chunks(proj, hypot, maxLen, rest)[k - 1];
      }
    }
  }

  /** The first part of a line is a prefix of it, a whole line when there is
      a single part. */
  lemma FirstChunk(proj: Projection, hypot: Hypot, maxLen: real, line: Line)
    requires |line| >= 2
    ensures var parts := Chunks(proj, hypot, maxLen, line);
      parts != [] && parts[0] == line[..CutAt(proj, hypot, maxLen, line, 2)]
  {
    assert line[..|line|] == line;
  }

  /** Parts are as long as they can be: a part followed by another would be
      longer than `maxLen` if it took the next part's second vertex too. */
  lemma {:induction false} ChunksMaximal(proj: Projection, hypot: Hypot, maxLen: real, line: Line)
    ensures var parts := Chunks(proj, hypot, maxLen, line);
      forall k :: 1 <= k < |parts| ==>
        |parts[k]| >= 2 && PathLength(proj, hypot, parts[k - 1] + [parts[k][1]]) > maxLen
    decreases |line|
  {
    if |line| >= 2 {
      var c := CutAt(proj, hypot, maxLen, line, 2);
      if c < |line| {
        var rest := line[c - 1..];
        CutAtMeaning(proj, hypot, maxLen, line, 2);
        ChunksMaximal(proj, hypot, maxLen, rest);
        FirstChunk(proj, hypot, maxLen, rest);
        ChunksShape(proj, hypot, maxLen, rest);
        var parts := Chunks(proj, hypot, maxLen, line);
        var tail := Chunks(proj, hypot, maxLen, rest);
        var c2 := CutAt(proj, hypot, maxLen, rest, 2);
        assert tail[0] == rest[..c2];
        assert tail[0][1] == line[c];
        assert line[..c] + [line[c]] == line[..c + 1];
        assert forall k :: 1 <= k < |parts| ==> parts[k] == tail[k - 1];
      }
    }
  }

  /** `parts[0] + parts[1][1..] + parts[2][1..] + ...`. */
  function GlueTail(parts: seq<Line>): Line {
    if parts == [] then [] else (if parts[0] == [] then [] else parts[0][1..]) + GlueTail(parts[1..])
  }

  function Glue(parts: seq<Line>): Line {
    if parts == [] then [] else parts[0] + GlueTail(parts[1..])
  }

  lemma {:induction false} ChunksGlueTail(proj: Projection, hypot: Hypot, maxLen: real, line: Line)
    requires |line| >= 2
    ensures GlueTail(Chunks(proj, hypot, maxLen, line)) == line[1..]
    decreases |line|
  {
    var c := CutAt(proj, hypot, maxLen, line, 2);
    if c == |line| {
      assert Chunks(proj, hypot, maxLen, line) == [line];
    } else {
      var rest := line[c - 1..];
      ChunksGlueTail(proj, hypot, maxLen, rest);
      var parts := Chunks(proj, hypot, maxLen, line);
      assert parts[1..] == Chunks(proj, hypot, maxLen, rest);
      assert line[..c][1..] + rest[1..] == line[1..];
    }
  }

  /** Gluing the parts back together, dropping the shared first point of
      every later part, gives the input line exactly. */
  lemma ChunksGlue(proj: Projection, hypot: Hypot, maxLen: real, line: Line)
    requires |line| >= 2
    ensures Glue(Chunks(proj, hypot, maxLen, line)) == line
  {
    ChunksGlueTail(proj, hypot, maxLen, line);
    ChunksShape(proj, hypot, maxLen, line);
    GlueFirst(Chunks(proj, hypot, maxLen, line), line);
  }

  /** Parts whose first starts the line and whose glued tail is the rest of
      the line glue back into the line. */
  lemma GlueFirst(parts: seq<Line>, line: Line)
    requires parts != [] && parts[0] != [] && line != [] && parts[0][0] == line[0]
    requires GlueTail(parts) == line[1..]
    ensures Glue(parts) == line
  {
    var first := parts[0];
    assert GlueTail(parts) == first[1..] + GlueTail(parts[1..]);
    assert first == [line[0]] + first[1..];
    calc {
      Glue(parts);
      first + GlueTail(parts[1..]);
      [line[0]] + (first[1..] + GlueTail(parts[1..]));
      [line[0]] + line[1..];
    }
    assert [line[0]] + line[1..] == line;
  }

  /** The parts of every line, line after line. */
  function SplitAll(proj: Projection, hypot: Hypot, maxLen: real, lines: seq<Line>): seq<Line> {
    if lines == [] then []
    else SplitAll(proj, hypot, maxLen, lines[..|lines| - 1]) + Chunks(proj, hypot, maxLen, lines[|lines| - 1])
  }

  /** `split_lines_max_length_meters`. */
  method SplitLinesMaxLengthMeters(lines: seq<Line>, maxLen: real, proj: Projection, hypot: Hypot)
    returns (out: seq<Line>)
    ensures out == SplitAll(proj, hypot, maxLen, lines)
  {
    out := [];
    var i := 0;
    while i < |lines|
      invariant 0 <= i <= |lines|
      invariant out == SplitAll(proj, hypot, maxLen, lines[..i])
    {
      var parts := SplitLineMaxLengthMeters(lines[i], maxLen, proj, hypot);
      assert lines[..i + 1][..i] == lines[..i];
      out := out + parts;
      i := i + 1;
    }
    assert lines[..i] == lines;
  }

  /** `split_lines_max_length`: the same in degree space. */
  method SplitLinesMaxLength(lines: seq<Line>, maxLen: real, hypot: Hypot) returns (out: seq<Line>)
    ensures out == SplitAll(DegreePlane(), hypot, maxLen, lines)
  {
    out := SplitLinesMaxLengthMeters(lines, maxLen, DegreePlane(), hypot);
  }

  /** Every part of every line has at least two points and, with three or
      more, is at most `maxLen` long; each is a part of some input line. */
  lemma {:induction false} SplitAllParts(proj: Projection, hypot: Hypot, maxLen: real, lines: seq<Line>)
    ensures var out := SplitAll(proj, hypot, maxLen, lines);
      forall p :: p in out ==>
        |p| >= 2 && (|p| >= 3 ==> PathLength(proj, hypot, p) <= maxLen) &&
        exists i :: 0 <= i < |lines| && p in Chunks(proj, hypot, maxLen, lines[i])
  {
    if lines != [] {
      var n := |lines|;
      SplitAllParts(proj, hypot, maxLen, lines[..n - 1]);
      ChunksShape(proj, hypot, maxLen, lines[n - 1]);
      ChunksBounded(proj, hypot, maxLen, lines[n - 1]);
      assert forall i :: 0 <= i < n - 1 ==> lines[..n - 1][i] == lines[i];
    }
  }

  // ---------------------------------------------------------------- features

  /** `lines_to_feature_collection`: one MultiLineString feature holding all
      the lines, tagged with their source. */
  function LinesToFeatureCollection(lines: seq<Line>, source: string): (fc: FeatureCollection) {
    FeatureCollection(CollectionName,
      [Feature(Properties(source, None, None), MultiLineString(lines))])
  }

  /** Reading such a collection back yields every line of two or more
      points, in order. */
  lemma FeatureCollectionRoundTrip(lines: seq<Line>, source: string)
    ensures IterLines(LinesToFeatureCollection(lines, source).features) == AtLeastTwo(lines)
  {
    var fs := LinesToFeatureCollection(lines, source).features;
    assert fs[1..] == [];
  }

  /** The LineString feature emitted for input line `id`. */
  function BboxFeature(line: Line, id: nat, source: string): Feature
    requires |line| >= 1
  {
    Feature(Properties(source, Some(id), Some(LineBbox(line))), LineString(line))
  }

  /** A feature's `segment_id`, or -1 when it has none. */
  function SegmentId(f: Feature): int {
    if f.props.segmentId.Some? then f.props.segmentId.value else -1
  }

  /** The features `lines_to_feature_collection_with_bboxes` emits. */
  function BboxFeatures(lines: seq<Line>, source: string): seq<Feature> {
    if lines == [] then []
    else
      var n := |lines|;
      BboxFeatures(lines[..n - 1], source)
        + (if |lines[n - 1]| >= 2 then [BboxFeature(lines[n - 1], n - 1, source)] else [])
  }

  /** Each feature is the bbox feature of an input line of two or more
      points, identified by that line's index, and ids strictly increase. */
  lemma {:induction false} BboxFeaturesIds(lines: seq<Line>, source: string)
    ensures forall k :: 0 <= k < |BboxFeatures(lines, source)| ==>
      var f := BboxFeatures(lines, source)[k];
      0 <= SegmentId(f) < |lines| && |lines[SegmentId(f)]| >= 2 &&
      f == BboxFeature(lines[SegmentId(f)], SegmentId(f), source)
    ensures forall k, l :: 0 <= k < l < |BboxFeatures(lines, source)| ==>
      SegmentId(BboxFeatures(lines, source)[k]) < SegmentId(BboxFeatures(lines, source)[l])
  {
    if lines != [] {
      var n := |lines|;
      var init := lines[..n - 1];
      BboxFeaturesIds(init, source);
      var fi := BboxFeatures(init, source);
      var all := BboxFeatures(lines, source);
      var extra := if |lines[n - 1]| >= 2 then [BboxFeature(lines[n - 1], n - 1, source)] else [];
      assert all == fi + extra;
      forall k | 0 <= k < |all|
        ensures 0 <= SegmentId(all[k]) < |lines| && |lines[SegmentId(all[k])]| >= 2
        ensures all[k] == BboxFeature(lines[SegmentId(all[k])], SegmentId(all[k]), source)
        ensures k < |fi| ==> SegmentId(all[k]) < n - 1
        ensures k >= |fi| ==> SegmentId(all[k]) == n - 1
      {
        if k < |fi| {
          assert all[k] == fi[k];
          assert init[SegmentId(fi[k])] == lines[SegmentId(fi[k])];
        } else {
          assert all[k] == extra[0];
        }
      }
    }
  }

  /** Every input line of two or more points has a feature. */
  lemma {:induction false} BboxFeaturesCover(lines: seq<Line>, source: string)
    ensures forall i: nat :: i < |lines| && |lines[i]| >= 2 ==>
      exists k :: 0 <= k < |BboxFeatures(lines, source)| && SegmentId(BboxFeatures(lines, source)[k]) == i
  {
    if lines != [] {
      var n := |lines|;
      var init := lines[..n - 1];
      BboxFeaturesCover(init, source);
      var fi := BboxFeatures(init, source);
      var extra := if |lines[n - 1]| >= 2 then [BboxFeature(lines[n - 1], n - 1, source)] else [];
      assert BboxFeatures(lines, source) == fi + extra;
      assert forall k :: 0 <= k < |fi| ==> BboxFeatures(lines, source)[k] == fi[k];
      forall i: nat | i < |lines| && |lines[i]| >= 2
        ensures exists k :: 0 <= k < |BboxFeatures(lines, source)| && SegmentId(BboxFeatures(lines, source)[k]) == i
      {
        if i < n - 1 {
          assert init[i] == lines[i];
          var k :| 0 <= k < |fi| && SegmentId(fi[k]) == i;
          assert BboxFeatures(lines, source)[k] == fi[k];
        } else {
          assert BboxFeatures(lines, source)[|fi|] == extra[0];
          assert SegmentId(BboxFeatures(lines, source)[|fi|]) == n - 1;
        }
      }
    }
  }

  /** The bbox of every feature contains the feature's points and each of
      its four bounds is attained by one of them. */
  lemma BboxFeatureBox(line: Line, id: nat, source: string)
    requires |line| >= 2
    ensures var f := BboxFeature(line, id, source);
      f.geom.LineString? && f.props.bbox.Some? &&
      var b := f.props.bbox.value;
      (forall k :: 0 <= k < |f.geom.coords| ==> Inside(f.geom.coords[k], b)) &&
      (exists k :: 0 <= k < |line| && line[k].lon == b.lonMin) &&
      (exists k :: 0 <= k < |line| && line[k].lat == b.latMin) &&
      (exists k :: 0 <= k < |line| && line[k].lon == b.lonMax) &&
      (exists k :: 0 <= k < |line| && line[k].lat == b.latMax)
  {
    LineBboxTight(line);
  }

  /** Reading the emitted collection back yields every line of two or more
      points, in order. */
  lemma {:induction false} BboxFeaturesRoundTrip(lines: seq<Line>, source: string)
    ensures IterLines(BboxFeatures(lines, source)) == AtLeastTwo(lines)
  {
    if lines != [] {
      var n := |lines|;
      BboxFeaturesRoundTrip(lines[..n - 1], source);
      BboxFeaturesLast(lines, source);
      AtLeastTwoSnoc(lines);
    }
  }

  lemma AtLeastTwoSnoc(lines: seq<Line>)
    requires lines != []
    ensures AtLeastTwo(lines) == AtLeastTwo(lines[..|lines| - 1]) + AtLeastTwo([lines[|lines| - 1]])
  {
    var n := |lines|;
    var a, b := lines[..n - 1], [lines[n - 1]];
    assert lines == a + b;
    AtLeastTwoAppend(a, b);
  }

  lemma BboxFeaturesLast(lines: seq<Line>, source: string)
    requires lines != []
    ensures IterLines(BboxFeatures(lines, source))
         == IterLines(BboxFeatures(lines[..|lines| - 1], source)) + AtLeastTwo([lines[|lines| - 1]])
  {
    var n := |lines|;
    var last := lines[n - 1];
    var fi := BboxFeatures(lines[..n - 1], source);
    if |last| >= 2 {
      var f := BboxFeature(last, n - 1, source);
      IterLinesAppend(fi, [f]);
      assert [f][1..] == [];
      assert IterLines([f]) == [last];
      assert AtLeastTwo([last]) == [last];
    } else {
      assert BboxFeatures(lines, source) == fi;
      assert AtLeastTwo([last]) == [];
    }
  }

  lemma {:induction false} AtLeastTwoAppend(a: seq<Line>, b: seq<Line>)
    ensures AtLeastTwo(a + b) == AtLeastTwo(a) + AtLeastTwo(b)
  {
    if a == [] {
      assert a + b == b;
    } else {
      assert (a + b)[1..] == a[1..] + b;
      AtLeastTwoAppend(a[1..], b);
    }
  }

  /** `lines_to_feature_collection_with_bboxes`. */
  method LinesToFeatureCollectionWithBboxes(lines: seq<Line>, source: string)
    returns (fc: FeatureCollection)
    ensures fc == FeatureCollection(CollectionName, BboxFeatures(lines, source))
  {
    var features: seq<Feature> := [];
    var i := 0;
    while i < |lines|
      invariant 0 <= i <= |lines|
      invariant features == BboxFeatures(lines[..i], source)
    {
      var line := lines[i];
      assert lines[..i + 1][..i] == lines[..i];
      if |line| >= 2 {
        var bbox := LineBbox(line);
        features := features + [Feature(Properties(source, Some(i), Some(bbox)), LineString(line))];
      }
      i := i + 1;
    }
    assert lines[..i] == lines;
    fc := FeatureCollection(CollectionName, features);
  }
}
