/** Points, lines, projections, bounding boxes and path lengths shared by the
    coastline tools. Coordinates are reals; the UTM projection and
    `math.hypot` are opaque parameters, so no floating-point or map
    projection formula is modelled. */
module Geometry {

  /** A WGS84 vertex, `(lon, lat)` in degrees. */
  datatype Point = Point(lon: real, lat: real)

  /** A vertex projected into a metric plane, `(x, y)` in meters. */
  datatype XY = XY(x: real, y: real)

  /** A polyline: an ordered list of vertices. */
  type Line = seq<Point>

  type NonNeg = r: real | 0.0 <= r

  /** The forward and inverse transformers of one coordinate reference system
      (the pair `_get_utm_transformers` returns); deterministic, otherwise
      unconstrained. */
  datatype Projection = Projection(fwd: Point -> XY, inv: XY -> Point)

  /** `math.hypot`: some non-negative function of the two differences. */
  type Hypot = (real, real) -> NonNeg

  /** Degree space used as a plane; the `*_degrees` variants of the tools
      measure in it. */
  function DegreePlane(): Projection {
    Projection((p: Point) => XY(p.lon, p.lat), (q: XY) => Point(q.x, q.y))
  }

  /** Squared planar distance, `dx * dx + dy * dy`. */
  function Dist2(a: XY, b: XY): (d: real)
    ensures d >= 0.0
  {
    (a.x - b.x) * (a.x - b.x) + (a.y - b.y) * (a.y - b.y)
  }

  /** Length of the edge `p -> q` measured in the projected plane. */
  function EdgeLen(proj: Projection, hypot: Hypot, p: Point, q: Point): NonNeg {
    var a := proj.fwd(p);
    var b := proj.fwd(q);
    hypot(b.x - a.x, b.y - a.y)
  }

  /** Sum of the edge lengths along the line (0 for fewer than two points). */
  function PathLength(proj: Projection, hypot: Hypot, line: Line): (len: real)
    ensures len >= 0.0
  {
    if |line| < 2 then 0.0
    else EdgeLen(proj, hypot, line[0], line[1]) + PathLength(proj, hypot, line[1..])
  }

  /** Appending a vertex adds exactly the length of the new last edge. */
  lemma {:induction false} PathLengthSnoc(proj: Projection, hypot: Hypot, line: Line, q: Point)
    requires |line| >= 1
    ensures PathLength(proj, hypot, line + [q])
         == PathLength(proj, hypot, line) + EdgeLen(proj, hypot, line[|line| - 1], q)
  {
    if |line| >= 2 {
      assert (line + [q])[1..] == line[1..] + [q];
      PathLengthSnoc(proj, hypot, line[1..], q);
    } else {
      assert line + [q] == [line[0], q];
    }
  }

  /** Lengths add up when two lines share their junction vertex. */
  lemma {:induction false} PathLengthJoin(proj: Projection, hypot: Hypot, a: Line, b: Line)
    requires |a| >= 1 && |b| >= 1 && a[|a| - 1] == b[0]
    ensures PathLength(proj, hypot, a + b[1..])
         == PathLength(proj, hypot, a) + PathLength(proj, hypot, b)
  {
    if |a| == 1 {
      assert a + b[1..] == b;
    } else {
      assert (a + b[1..])[1..] == a[1..] + b[1..];
      PathLengthJoin(proj, hypot, a[1..], b);
    }
  }

  // ------------------------------------------------------------ min / max

  /** Python's `min` of a non-empty list. */
  function SeqMin(s: seq<real>): real
    requires |s| >= 1
  {
    if |s| == 1 then s[0]
    else
      var t := SeqMin(s[1..]);
      if s[0] <= t then s[0] else t
  }

  /** Python's `max` of a non-empty list. */
  function SeqMax(s: seq<real>): real
    requires |s| >= 1
  {
    if |s| == 1 then s[0]
    else
      var t := SeqMax(s[1..]);
      if t <= s[0] then s[0] else t
  }

  /** `min` is an element of the list and no element is smaller. */
  lemma {:induction false} SeqMinIsMin(s: seq<real>)
    requires |s| >= 1
    ensures SeqMin(s) in s && forall k :: 0 <= k < |s| ==> SeqMin(s) <= s[k]
  {
    if |s| > 1 {
      SeqMinIsMin(s[1..]);
      assert forall k :: 1 <= k < |s| ==> s[k] == s[1..][k - 1];
    }
  }

  /** `max` is an element of the list and no element is larger. */
  lemma {:induction false} SeqMaxIsMax(s: seq<real>)
    requires |s| >= 1
    ensures SeqMax(s) in s && forall k :: 0 <= k < |s| ==> s[k] <= SeqMax(s)
  {
    if |s| > 1 {
      SeqMaxIsMax(s[1..]);
      assert forall k :: 1 <= k < |s| ==> s[k] == s[1..][k - 1];
    }
  }

  function Lons(line: Line): seq<real> {
    seq(|line|, k requires 0 <= k < |line| => line[k].lon)
  }

  function Lats(line: Line): seq<real> {
    seq(|line|, k requires 0 <= k < |line| => line[k].lat)
  }

  // ---------------------------------------------------------- bounding box

  /** `(lon_min, lat_min, lon_max, lat_max)`. */
  datatype BBox = BBox(lonMin: real, latMin: real, lonMax: real, latMax: real)

  predicate Inside(p: Point, b: BBox) {
    b.lonMin <= p.lon <= b.lonMax && b.latMin <= p.lat <= b.latMax
  }

  /** `line_bbox`: the tightest box around the line's own vertices; every
      vertex lies inside and each of the four bounds is attained by one. */
  function LineBbox(line: Line): BBox
    requires |line| >= 1
  {
    BBox(SeqMin(Lons(line)), SeqMin(Lats(line)), SeqMax(Lons(line)), SeqMax(Lats(line)))
  }

  /** The box of `LineBbox` is tight: every vertex lies inside it and each
      of the four bounds is attained by a vertex. */
  lemma LineBboxTight(line: Line)
    requires |line| >= 1
    ensures var b := LineBbox(line);
      (forall k :: 0 <= k < |line| ==> Inside(line[k], b)) &&
      (exists k :: 0 <= k < |line| && line[k].lon == b.lonMin) &&
      (exists k :: 0 <= k < |line| && line[k].lat == b.latMin) &&
      (exists k :: 0 <= k < |line| && line[k].lon == b.lonMax) &&
      (exists k :: 0 <= k < |line| && line[k].lat == b.latMax)
  {
    var xs, ys := Lons(line), Lats(line);
    SeqMinIsMin(xs);
    SeqMinIsMin(ys);
    SeqMaxIsMax(xs);
    SeqMaxIsMax(ys);
    var b := LineBbox(line);
    assert forall k :: 0 <= k < |line| ==> xs[k] == line[k].lon && ys[k] == line[k].lat;
    var i0 :| 0 <= i0 < |xs| && xs[i0] == b.lonMin;
    var i1 :| 0 <= i1 < |ys| && ys[i1] == b.latMin;
    var i2 :| 0 <= i2 < |xs| && xs[i2] == b.lonMax;
    var i3 :| 0 <= i3 < |ys| && ys[i3] == b.latMax;
    assert line[i0].lon == b.lonMin && line[i1].lat == b.latMin;
    assert line[i2].lon == b.lonMax && line[i3].lat == b.latMax;
  }
}
