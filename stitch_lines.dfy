/** `stitch_lines` of `coastline_tools/stitch_coastline.py`: the endpoints of
    every line are snapped with the endpoint clusterer, and segments that
    share an endpoint cluster are greedily joined into chains through a
    start index, an end index and a per-segment `used` flag. */
module Stitching {
  import opened Wrappers
  import opened Geometry
  import opened StitchCoastline
  import CoastlinePipeline

  // ---------------------------------------------------------------- segments

  /** One entry of `segs`: a line whose first and last points were replaced
      by cluster centres, with its start and end cluster ids. The `used`
      flag lives in `SegmentIndex.used`. */
  datatype Seg = Seg(coords: Line, start: int, end: int)

  /** A segment as it appears in a chain: as stored, or reversed. */
  datatype Piece = Piece(seg: int, asIs: bool)

  /** How one output chain was built: the pieces the backward extension
      prepended (in chain order), the seed segment, and the pieces the
      forward extension appended. */
  datatype ChainInfo = ChainInfo(left: seq<Piece>, seed: int, right: seq<Piece>)

  /** `list(reversed(s))`. */
  function Reverse(s: Line): (r: Line)
    ensures |r| == |s|
    ensures forall k :: 0 <= k < |s| ==> r[k] == s[|s| - 1 - k]
  {
    if s == [] then [] else Reverse(s[1..]) + [s[0]]
  }

  /** Every segment has at least two points (shorter lines are skipped). */
  predicate SegsOk(segs: seq<Seg>) {
    forall j :: 0 <= j < |segs| ==> |segs[j].coords| >= 2
  }

  predicate PiecesIn(ps: seq<Piece>, n: int) {
    forall k :: 0 <= k < |ps| ==> 0 <= ps[k].seg < n
  }

  predicate InfoIn(ci: ChainInfo, n: int) {
    PiecesIn(ci.left, n) && 0 <= ci.seed < n && PiecesIn(ci.right, n)
  }

  /** The coordinates a piece contributes, in chain direction. */
  function Oriented(segs: seq<Seg>, p: Piece): (l: Line)
    requires 0 <= p.seg < |segs|
    ensures |l| == |segs[p.seg].coords|
  {
    if p.asIs then segs[p.seg].coords else Reverse(segs[p.seg].coords)
  }

  /** The cluster at the beginning of a piece, in chain direction. */
  function OStart(segs: seq<Seg>, p: Piece): int
    requires 0 <= p.seg < |segs|
  {
    if p.asIs then segs[p.seg].start else segs[p.seg].end
  }

  /** The cluster at the end of a piece, in chain direction. */
  function OEnd(segs: seq<Seg>, p: Piece): int
    requires 0 <= p.seg < |segs|
  {
    if p.asIs then segs[p.seg].end else segs[p.seg].start
  }

  /** What the forward extension appends: each piece without its first
      point, which duplicates the chain's last one. */
  function RightGlue(segs: seq<Seg>, ps: seq<Piece>): Line
    requires SegsOk(segs) && PiecesIn(ps, |segs|)
  {
    if ps == [] then []
    else RightGlue(segs, ps[..|ps| - 1]) + Oriented(segs, ps[|ps| - 1])[1..]
  }

  /** `l[:-1]`. */
  function DropLast(l: Line): Line
    requires l != []
  {
    l[..|l| - 1]
  }

  /** What the backward extension prepends: each piece without its last
      point, which duplicates the chain's first one. */
  function LeftGlue(segs: seq<Seg>, ps: seq<Piece>): Line
    requires SegsOk(segs) && PiecesIn(ps, |segs|)
  {
    if ps == [] then []
    else
      DropLast(Oriented(segs, ps[0])) + LeftGlue(segs, ps[1..])
  }

  /** The pieces of a chain from its first point to its last. */
  function Path(ci: ChainInfo): seq<Piece> {
    ci.left + [Piece(ci.seed, true)] + ci.right
  }

  /** The coordinates of the chain `ci` describes. */
  function ChainCoords(segs: seq<Seg>, ci: ChainInfo): Line
    requires SegsOk(segs) && InfoIn(ci, |segs|)
  {
    LeftGlue(segs, ci.left) + segs[ci.seed].coords + RightGlue(segs, ci.right)
  }

  /** Consecutive pieces meet at a shared cluster. */
  predicate Connected(segs: seq<Seg>, path: seq<Piece>)
    requires PiecesIn(path, |segs|)
  {
    forall k :: 0 <= k < |path| - 1 ==> OEnd(segs, path[k]) == OStart(segs, path[k + 1])
  }

  /** `start_c` and `end_c` of a finished chain. */
  function StartC(segs: seq<Seg>, ci: ChainInfo): int
    requires InfoIn(ci, |segs|)
  {
    if ci.left == [] then segs[ci.seed].start else OStart(segs, ci.left[0])
  }

  function EndC(segs: seq<Seg>, ci: ChainInfo): int
    requires InfoIn(ci, |segs|)
  {
    if ci.right == [] then segs[ci.seed].end else OEnd(segs, ci.right[|ci.right| - 1])
  }

  /** The points a list of pieces adds beyond the seed: one less per piece
      than its length. */
  function Extra(segs: seq<Seg>, ps: seq<Piece>): int
    requires PiecesIn(ps, |segs|)
  {
    if ps == [] then 0 else |segs[ps[0].seg].coords| - 1 + Extra(segs, ps[1..])
  }

  function SegIds(ps: seq<Piece>): seq<int> {
    if ps == [] then [] else [ps[0].seg] + SegIds(ps[1..])
  }

  /** The segment indices a chain consumed, in chain order. */
  function Members(ci: ChainInfo): seq<int> {
    SegIds(ci.left) + [ci.seed] + SegIds(ci.right)
  }

  /** The members of all chains, chain after chain. */
  function Flat(infos: seq<ChainInfo>): seq<int> {
    if infos == [] then [] else Flat(infos[..|infos| - 1]) + Members(infos[|infos| - 1])
  }

  /** A well-formed chain: its pieces exist, its coordinates are the glued
      pieces and consecutive pieces share a cluster. */
  ghost predicate ChainOk(segs: seq<Seg>, ci: ChainInfo, chain: Line) {
    SegsOk(segs) && InfoIn(ci, |segs|) && PiecesIn(Path(ci), |segs|) &&
    chain == ChainCoords(segs, ci) && Connected(segs, Path(ci))
  }

  lemma {:induction false} SegIdsSnoc(ps: seq<Piece>, p: Piece)
    ensures SegIds(ps + [p]) == SegIds(ps) + [p.seg]
  {
    if ps != [] {
      assert (ps + [p])[1..] == ps[1..] + [p];
      SegIdsSnoc(ps[1..], p);
    }
  }

  lemma {:induction false} SegIdsIn(ps: seq<Piece>, n: int)
    requires PiecesIn(ps, n)
    ensures |SegIds(ps)| == |ps|
    ensures forall t :: 0 <= t < |ps| ==> SegIds(ps)[t] == ps[t].seg
  {
    if ps != [] {
      SegIdsIn(ps[1..], n);
    }
  }

  lemma MembersIn(ci: ChainInfo, n: int)
    requires InfoIn(ci, n)
    ensures forall t :: 0 <= t < |Members(ci)| ==> 0 <= Members(ci)[t] < n
    ensures ci.seed in Members(ci)
  {
    SegIdsIn(ci.left, n);
    SegIdsIn(ci.right, n);
    assert Members(ci)[|SegIds(ci.left)|] == ci.seed;
  }

  lemma {:induction false} ExtraSnoc(segs: seq<Seg>, ps: seq<Piece>, p: Piece)
    requires PiecesIn(ps, |segs|) && 0 <= p.seg < |segs|
    ensures PiecesIn(ps + [p], |segs|)
    ensures Extra(segs, ps + [p]) == Extra(segs, ps) + |segs[p.seg].coords| - 1
  {
    if ps != [] {
      assert (ps + [p])[1..] == ps[1..] + [p];
      ExtraSnoc(segs, ps[1..], p);
    }
  }

  lemma {:induction false} RightGlueLength(segs: seq<Seg>, ps: seq<Piece>)
    requires SegsOk(segs) && PiecesIn(ps, |segs|)
    ensures |RightGlue(segs, ps)| == Extra(segs, ps)
  {
    if ps != [] {
      var n := |ps|;
      var init, p := ps[..n - 1], ps[n - 1];
      assert init + [p] == ps;
      assert |RightGlue(segs, ps)| == |RightGlue(segs, init)| + |Oriented(segs, p)| - 1;
      RightGlueLength(segs, init);
      ExtraSnoc(segs, init, p);
    }
  }

  lemma {:induction false} LeftGlueLength(segs: seq<Seg>, ps: seq<Piece>)
    requires SegsOk(segs) && PiecesIn(ps, |segs|)
    ensures |LeftGlue(segs, ps)| == Extra(segs, ps)
  {
    if ps != [] {
      LeftGlueLength(segs, ps[1..]);
    }
  }

  /** A chain has the seed's points plus, for every absorbed segment, its
      points less the one shared with the chain. */
  lemma ChainLength(segs: seq<Seg>, ci: ChainInfo, chain: Line)
    requires ChainOk(segs, ci, chain)
    ensures |chain| == |segs[ci.seed].coords| + Extra(segs, ci.left) + Extra(segs, ci.right)
  {
    LeftGlueLength(segs, ci.left);
    RightGlueLength(segs, ci.right);
  }

  // ---------------------------------------------------------------- index

  /** `starts.get(c, ())` for a dict of sets. */
  function Get(m: map<int, set<int>>, c: int): set<int> {
    if c in m then m[c] else {}
  }

  /** `starts` and `ends` list exactly the unused segments by their start
      and end clusters. */
  ghost predicate IndexOk(segs: seq<Seg>, used: seq<bool>, starts: map<int, set<int>>, ends: map<int, set<int>>) {
    |used| == |segs| &&
    (forall c, j {:trigger j in Get(starts, c)} :: j in Get(starts, c) ==> 0 <= j < |segs| && !used[j] && segs[j].start == c) &&
    (forall j :: 0 <= j < |segs| && !used[j] ==> j in Get(starts, segs[j].start)) &&
    (forall c, j {:trigger j in Get(ends, c)} :: j in Get(ends, c) ==> 0 <= j < |segs| && !used[j] && segs[j].end == c) &&
    (forall j :: 0 <= j < |segs| && !used[j] ==> j in Get(ends, segs[j].end))
  }

  lemma GetUpdate(m: map<int, set<int>>, a: int, v: set<int>)
    ensures forall c {:trigger Get(m[a := v], c)} :: Get(m[a := v], c) == if c == a then v else Get(m, c)
  {
    forall c ensures Get(m[a := v], c) == if c == a then v else Get(m, c) {
    }
  }

  function Unused(n: nat): (u: seq<bool>)
    ensures |u| == n && forall j :: 0 <= j < n ==> !u[j]
  {
    seq(n, _ => false)
  }

  /** The number of unused segments, which every extension step lowers. */
  function CountFalse(s: seq<bool>): nat {
    if s == [] then 0 else (if s[0] then 0 else 1) + CountFalse(s[1..])
  }

  lemma {:induction false} CountFalseSet(s: seq<bool>, j: int)
    requires 0 <= j < |s| && !s[j]
    ensures CountFalse(s[j := true]) == CountFalse(s) - 1
  {
    if j > 0 {
      assert s[j := true][1..] == s[1..][j - 1 := true];
      CountFalseSet(s[1..], j - 1);
    }
  }

  /** The dict-of-sets construction loop of `stitch_lines`. */
  method BuildIndex(segs: seq<Seg>) returns (starts: map<int, set<int>>, ends: map<int, set<int>>)
    ensures IndexOk(segs, Unused(|segs|), starts, ends)
  {
    starts, ends := map[], map[];
    var i := 0;
    while i < |segs|
      invariant 0 <= i <= |segs|
      invariant forall c, j {:trigger j in Get(starts, c)} :: j in Get(starts, c) ==> 0 <= j < i && segs[j].start == c
      invariant forall j :: 0 <= j < i ==> j in Get(starts, segs[j].start)
      invariant forall c, j {:trigger j in Get(ends, c)} :: j in Get(ends, c) ==> 0 <= j < i && segs[j].end == c
      invariant forall j :: 0 <= j < i ==> j in Get(ends, segs[j].end)
    {
      GetUpdate(starts, segs[i].start, Get(starts, segs[i].start) + {i});
      GetUpdate(ends, segs[i].end, Get(ends, segs[i].end) + {i});
      starts := starts[segs[i].start := Get(starts, segs[i].start) + {i}];
      ends := ends[segs[i].end := Get(ends, segs[i].end) + {i}];
      i := i + 1;
    }
  }

  /** No unused segment starts or ends at cluster `c`. */
  predicate Untouched(segs: seq<Seg>, used: seq<bool>, c: int)
    requires |used| == |segs|
  {
    forall j :: 0 <= j < |segs| && !used[j] ==> segs[j].start != c && segs[j].end != c
  }

  // ---------------------------------------------------------------- one chain

  /** Flags only ever go from unused to used. */
  predicate Grown(used0: seq<bool>, used: seq<bool>)
    requires |used0| == |used|
  {
    forall j :: 0 <= j < |used| && used0[j] ==> used[j]
  }

  /** `members` lists exactly the segments marked used since `used0`, each
      once. */
  ghost predicate Counts(used0: seq<bool>, used: seq<bool>, members: seq<int>)
    requires |used0| == |used|
  {
    forall j :: 0 <= j < |used| ==> multiset(members)[j] == if used[j] && !used0[j] then 1 else 0
  }

  /** A chain under construction: `used0` are the flags before its seed was
      taken; its members are exactly the segments marked used since. */
  ghost predicate Building(segs: seq<Seg>, used0: seq<bool>, used: seq<bool>, ci: ChainInfo,
                           chain: Line, startC: int, endC: int) {
    ChainOk(segs, ci, chain) && |used0| == |segs| && |used| == |segs| &&
    startC == StartC(segs, ci) && endC == EndC(segs, ci) &&
    Grown(used0, used) && Counts(used0, used, Members(ci))
  }

  /** Marking one more segment used and listing it once more. */
  lemma CountsAdd(used0: seq<bool>, used: seq<bool>, members: seq<int>, x: int, members': seq<int>)
    requires |used0| == |used| && 0 <= x < |used| && !used[x]
    requires Grown(used0, used) && Counts(used0, used, members)
    requires multiset(members') == multiset(members) + multiset{x}
    ensures Grown(used0, used[x := true]) && Counts(used0, used[x := true], members')
  {
  }

  /** Taking the seed: the chain is the seed's own coordinates. */
  lemma BuildingSeed(segs: seq<Seg>, used: seq<bool>, i: int)
    requires SegsOk(segs) && |used| == |segs| && 0 <= i < |segs| && !used[i]
    ensures Building(segs, used, used[i := true], ChainInfo([], i, []), segs[i].coords, segs[i].start, segs[i].end)
  {
    var ci := ChainInfo([], i, []);
    assert Members(ci) == [i];
    assert Path(ci) == [Piece(i, true)];
    assert ChainCoords(segs, ci) == segs[i].coords;
  }

  /** Appending a piece to the right of a chain. */
  lemma AppendCoords(segs: seq<Seg>, ci: ChainInfo, p: Piece)
    requires SegsOk(segs) && InfoIn(ci, |segs|) && 0 <= p.seg < |segs|
    ensures InfoIn(ci.(right := ci.right + [p]), |segs|)
    ensures ChainCoords(segs, ci.(right := ci.right + [p])) == ChainCoords(segs, ci) + Oriented(segs, p)[1..]
  {
    RightGlueSnoc(segs, ci.right, p);
    Assoc3R(LeftGlue(segs, ci.left), segs[ci.seed].coords, RightGlue(segs, ci.right), Oriented(segs, p)[1..]);
  }

  lemma PiecesSnoc(ps: seq<Piece>, p: Piece, n: int)
    requires PiecesIn(ps, n) && 0 <= p.seg < n
    ensures PiecesIn(ps + [p], n) && (ps + [p])[|ps|] == p && (ps + [p])[..|ps|] == ps
  {
  }

  lemma RightGlueSnoc(segs: seq<Seg>, ps: seq<Piece>, p: Piece)
    requires SegsOk(segs) && PiecesIn(ps, |segs|) && 0 <= p.seg < |segs|
    ensures PiecesIn(ps + [p], |segs|)
    ensures RightGlue(segs, ps + [p]) == RightGlue(segs, ps) + Oriented(segs, p)[1..]
  {
    PiecesSnoc(ps, p, |segs|);
  }

  lemma Assoc3R(a: Line, b: Line, c: Line, d: Line)
    ensures a + b + (c + d) == a + b + c + d
  {
  }

  lemma AppendConnected(segs: seq<Seg>, path: seq<Piece>, p: Piece)
    requires path != [] && PiecesIn(path, |segs|) && Connected(segs, path) && 0 <= p.seg < |segs|
    requires OStart(segs, p) == OEnd(segs, path[|path| - 1])
    ensures PiecesIn(path + [p], |segs|) && Connected(segs, path + [p])
  {
    forall k | 0 <= k < |path + [p]| - 1
      ensures OEnd(segs, (path + [p])[k]) == OStart(segs, (path + [p])[k + 1])
    {
      if k < |path| - 1 {
        assert (path + [p])[k] == path[k] && (path + [p])[k + 1] == path[k + 1];
      }
    }
  }

  /** The last piece of a chain's path ends at `EndC`, the first begins at
      `StartC`. */
  lemma PathEnds(segs: seq<Seg>, ci: ChainInfo)
    requires InfoIn(ci, |segs|) && PiecesIn(Path(ci), |segs|)
    ensures OEnd(segs, Path(ci)[|Path(ci)| - 1]) == EndC(segs, ci)
    ensures OStart(segs, Path(ci)[0]) == StartC(segs, ci)
  {
  }

  /** The shape of one forward step: a piece that begins at the chain's end
      cluster is appended without its first point, and the end cluster
      advances to the piece's far end. */
  lemma AppendShape(segs: seq<Seg>, ci: ChainInfo, chain: Line, p: Piece)
    requires ChainOk(segs, ci, chain) && 0 <= p.seg < |segs| && OStart(segs, p) == EndC(segs, ci)
    ensures ChainOk(segs, ci.(right := ci.right + [p]), chain + Oriented(segs, p)[1..])
    ensures StartC(segs, ci.(right := ci.right + [p])) == StartC(segs, ci)
    ensures EndC(segs, ci.(right := ci.right + [p])) == OEnd(segs, p)
    ensures Members(ci.(right := ci.right + [p])) == Members(ci) + [p.seg]
  {
    AppendCoords(segs, ci, p);
    PathEnds(segs, ci);
    AppendPath(ci, p);
    AppendConnected(segs, Path(ci), p);
  }

  lemma AppendPath(ci: ChainInfo, p: Piece)
    ensures Path(ci.(right := ci.right + [p])) == Path(ci) + [p]
    ensures Members(ci.(right := ci.right + [p])) == Members(ci) + [p.seg]
  {
    SegIdsSnoc(ci.right, p);
  }

  /** Prepending a piece to the left of a chain. */
  lemma PrependCoords(segs: seq<Seg>, ci: ChainInfo, p: Piece)
    requires SegsOk(segs) && InfoIn(ci, |segs|) && 0 <= p.seg < |segs|
    ensures InfoIn(ci.(left := [p] + ci.left), |segs|)
    ensures ChainCoords(segs, ci.(left := [p] + ci.left)) == DropLast(Oriented(segs, p)) + ChainCoords(segs, ci)
  {
    LeftGlueCons(segs, ci.left, p);
    Assoc3(DropLast(Oriented(segs, p)), LeftGlue(segs, ci.left), segs[ci.seed].coords, RightGlue(segs, ci.right));
  }

  lemma Assoc3(a: Line, b: Line, c: Line, d: Line)
    ensures (a + b) + c + d == a + (b + c + d)
  {
  }

  lemma PiecesCons(ps: seq<Piece>, p: Piece, n: int)
    requires PiecesIn(ps, n) && 0 <= p.seg < n
    ensures PiecesIn([p] + ps, n) && ([p] + ps)[0] == p && ([p] + ps)[1..] == ps
  {
  }

  lemma LeftGlueCons(segs: seq<Seg>, ps: seq<Piece>, p: Piece)
    requires SegsOk(segs) && PiecesIn(ps, |segs|) && 0 <= p.seg < |segs|
    ensures PiecesIn([p] + ps, |segs|)
    ensures LeftGlue(segs, [p] + ps) == DropLast(Oriented(segs, p)) + LeftGlue(segs, ps)
  {
    PiecesCons(ps, p, |segs|);
  }

  lemma PrependConnected(segs: seq<Seg>, path: seq<Piece>, p: Piece)
    requires path != [] && PiecesIn(path, |segs|) && Connected(segs, path) && 0 <= p.seg < |segs|
    requires OEnd(segs, p) == OStart(segs, path[0])
    ensures PiecesIn([p] + path, |segs|) && Connected(segs, [p] + path)
  {
    forall k | 0 <= k < |[p] + path| - 1
      ensures OEnd(segs, ([p] + path)[k]) == OStart(segs, ([p] + path)[k + 1])
    {
      if k > 0 {
        assert ([p] + path)[k] == path[k - 1] && ([p] + path)[k + 1] == path[k];
      }
    }
  }

  /** The shape of one backward step: a piece that ends at the chain's start
      cluster is prepended without its last point. */
  lemma PrependShape(segs: seq<Seg>, ci: ChainInfo, chain: Line, p: Piece)
    requires ChainOk(segs, ci, chain) && 0 <= p.seg < |segs| && OEnd(segs, p) == StartC(segs, ci)
    ensures ChainOk(segs, ci.(left := [p] + ci.left), DropLast(Oriented(segs, p)) + chain)
    ensures StartC(segs, ci.(left := [p] + ci.left)) == OStart(segs, p)
    ensures EndC(segs, ci.(left := [p] + ci.left)) == EndC(segs, ci)
    ensures Members(ci.(left := [p] + ci.left)) == [p.seg] + Members(ci)
  {
    PrependCoords(segs, ci, p);
    PathEnds(segs, ci);
    PrependPath(ci, p);
    PrependConnected(segs, Path(ci), p);
  }

  lemma PrependPath(ci: ChainInfo, p: Piece)
    ensures Path(ci.(left := [p] + ci.left)) == [p] + Path(ci)
    ensures Members(ci.(left := [p] + ci.left)) == [p.seg] + Members(ci)
  {
    assert ([p] + ci.left)[1..] == ci.left;
  }

  lemma BuildingAppend(segs: seq<Seg>, used0: seq<bool>, used: seq<bool>, ci: ChainInfo,
                       chain: Line, startC: int, endC: int, p: Piece)
    requires Building(segs, used0, used, ci, chain, startC, endC)
    requires 0 <= p.seg < |segs| && !used[p.seg] && OStart(segs, p) == endC
    ensures Building(segs, used0, used[p.seg := true], ci.(right := ci.right + [p]),
                     chain + Oriented(segs, p)[1..], startC, OEnd(segs, p))
  {
    AppendShape(segs, ci, chain, p);
    CountsAdd(used0, used, Members(ci), p.seg, Members(ci) + [p.seg]);
  }

  lemma BuildingPrepend(segs: seq<Seg>, used0: seq<bool>, used: seq<bool>, ci: ChainInfo,
                        chain: Line, startC: int, endC: int, p: Piece)
    requires Building(segs, used0, used, ci, chain, startC, endC)
    requires 0 <= p.seg < |segs| && !used[p.seg] && OEnd(segs, p) == startC
    ensures Building(segs, used0, used[p.seg := true], ci.(left := [p] + ci.left),
                     DropLast(Oriented(segs, p)) + chain, OStart(segs, p), endC)
  {
    PrependShape(segs, ci, chain, p);
    CountsAdd(used0, used, Members(ci), p.seg, [p.seg] + Members(ci));
  }

  lemma GrownSet(used0: seq<bool>, used: seq<bool>, j: int)
    requires |used0| == |used| && 0 <= j < |used| && Grown(used0, used)
    ensures Grown(used0, used[j := true])
  {
  }

  lemma UntouchedGrown(segs: seq<Seg>, used: seq<bool>, used': seq<bool>, c: int)
    requires |used| == |segs| && |used'| == |segs| && Untouched(segs, used, c) && Grown(used, used')
    ensures Untouched(segs, used', c)
  {
  }

  // ---------------------------------------------------------------- the join rule

  /** No segment starts at cluster `c` among those unused before the chain
      (`used0`) and not yet in it (`taken`). */
  predicate NoneStarts(segs: seq<Seg>, used0: seq<bool>, taken: seq<int>, c: int)
    requires |used0| == |segs|
  {
    forall j :: 0 <= j < |segs| && !used0[j] && j !in taken ==> segs[j].start != c
  }

  /** No segment starts or ends at cluster `c` among those unused before
      the chain and not yet in it. */
  predicate NoneTouches(segs: seq<Seg>, used0: seq<bool>, taken: seq<int>, c: int)
    requires |used0| == |segs|
  {
    forall j :: 0 <= j < |segs| && !used0[j] && j !in taken ==> segs[j].start != c && segs[j].end != c
  }

  /** The forward phase's choices: the `k`-th appended piece is reversed
      only when no segment left after the seed and the first `k` pieces
      starts at the chain's end cluster. */
  ghost predicate GreedyRight(segs: seq<Seg>, used0: seq<bool>, seed: int, right: seq<Piece>)
    requires |used0| == |segs| && PiecesIn(right, |segs|)
  {
    forall k :: 0 <= k < |right| && !right[k].asIs ==>
      NoneStarts(segs, used0, [seed] + SegIds(right[..k]), OStart(segs, right[k]))
  }

  /** The forward phase ran to exhaustion before the backward phase began:
      once the seed and the appended pieces are taken, no segment left
      touches the end cluster. */
  ghost predicate ForwardDone(segs: seq<Seg>, used0: seq<bool>, seed: int, right: seq<Piece>)
    requires |used0| == |segs| && 0 <= seed < |segs| && PiecesIn(right, |segs|)
  {
    NoneTouches(segs, used0, [seed] + SegIds(right), EndC(segs, ChainInfo([], seed, right)))
  }

  /** The backward phase's choices: a piece prepended as stored (ending at
      the chain's start cluster) was taken only when no segment left after
      the pieces in front of it were placed starts at that cluster.
      `left[k + 1..]` are the pieces prepended before `left[k]`. */
  ghost predicate GreedyLeft(segs: seq<Seg>, used0: seq<bool>, ci: ChainInfo)
    requires |used0| == |segs| && InfoIn(ci, |segs|)
  {
    forall k :: 0 <= k < |ci.left| && ci.left[k].asIs ==>
      NoneStarts(segs, used0, Members(ci.(left := ci.left[k + 1..])), OEnd(segs, ci.left[k]))
  }

  /** `pick_next`'s preference and the order of the two phases, step by
      step: the chain seeded at `ci.seed` is the one greedy stitching
      builds from the segments unused before it (`used0`), up to which of
      several candidates each step picks. */
  ghost predicate Greedy(segs: seq<Seg>, used0: seq<bool>, ci: ChainInfo)
    requires |used0| == |segs| && InfoIn(ci, |segs|)
  {
    GreedyRight(segs, used0, ci.seed, ci.right) && ForwardDone(segs, used0, ci.seed, ci.right) &&
    GreedyLeft(segs, used0, ci)
  }

  /** The segments still unused during a chain's construction are those
      unused before it and not among its members. */
  lemma FreeIff(used0: seq<bool>, used: seq<bool>, members: seq<int>)
    requires |used0| == |used| && Grown(used0, used) && Counts(used0, used, members)
    ensures forall j :: 0 <= j < |used| ==> (!used[j] <==> !used0[j] && j !in members)
  {
    forall j | 0 <= j < |used|
      ensures !used[j] <==> !used0[j] && j !in members
    {
      assert j in members <==> multiset(members)[j] > 0;
    }
  }

  /** One forward step keeps the forward rule: a reversed piece is appended
      only when nothing left starts at the end cluster. */
  lemma GreedyRightSnoc(segs: seq<Seg>, used0: seq<bool>, seed: int, right: seq<Piece>, p: Piece)
    requires |used0| == |segs| && PiecesIn(right, |segs|) && 0 <= p.seg < |segs|
    requires GreedyRight(segs, used0, seed, right)
    requires !p.asIs ==> NoneStarts(segs, used0, [seed] + SegIds(right), OStart(segs, p))
    ensures PiecesIn(right + [p], |segs|) && GreedyRight(segs, used0, seed, right + [p])
  {
    var right' := right + [p];
    forall k | 0 <= k < |right'| && !right'[k].asIs
      ensures NoneStarts(segs, used0, [seed] + SegIds(right'[..k]), OStart(segs, right'[k]))
    {
      if k < |right| {
        assert right'[..k] == right[..k] && right'[k] == right[k];
      } else {
        assert right'[..k] == right;
      }
    }
  }

  /** One backward step keeps the backward rule. */
  lemma GreedyLeftCons(segs: seq<Seg>, used0: seq<bool>, ci: ChainInfo, p: Piece)
    requires |used0| == |segs| && InfoIn(ci, |segs|) && 0 <= p.seg < |segs|
    requires GreedyLeft(segs, used0, ci)
    requires p.asIs ==> NoneStarts(segs, used0, Members(ci), OEnd(segs, p))
    ensures InfoIn(ci.(left := [p] + ci.left), |segs|) && GreedyLeft(segs, used0, ci.(left := [p] + ci.left))
  {
    var ci' := ci.(left := [p] + ci.left);
    forall k | 0 <= k < |ci'.left| && ci'.left[k].asIs
      ensures NoneStarts(segs, used0, Members(ci'.(left := ci'.left[k + 1..])), OEnd(segs, ci'.left[k]))
    {
      if k == 0 {
        assert ci'.(left := ci'.left[1..]) == ci;
      } else {
        assert ci'.left[k] == ci.left[k - 1] && ci'.left[k + 1..] == ci.left[k..];
      }
    }
  }

  /** A forward step of a chain whose backward phase has not begun keeps
      the forward rule; `PickNext` supplies the premise. */
  lemma ForwardStep(segs: seq<Seg>, used0: seq<bool>, used: seq<bool>, ci: ChainInfo,
                    chain: Line, startC: int, endC: int, p: Piece)
    requires Building(segs, used0, used, ci, chain, startC, endC) && ci.left == []
    requires GreedyRight(segs, used0, ci.seed, ci.right) && 0 <= p.seg < |segs|
    requires !p.asIs ==> forall j :: 0 <= j < |segs| && !used[j] ==> segs[j].start != OStart(segs, p)
    ensures PiecesIn(ci.right + [p], |segs|) && GreedyRight(segs, used0, ci.seed, ci.right + [p])
  {
    FreeIff(used0, used, Members(ci));
    assert Members(ci) == [ci.seed] + SegIds(ci.right);
    GreedyRightSnoc(segs, used0, ci.seed, ci.right, p);
  }

  /** The forward phase stops only when nothing left touches the end
      cluster. */
  lemma ForwardEnd(segs: seq<Seg>, used0: seq<bool>, used: seq<bool>, ci: ChainInfo,
                   chain: Line, startC: int, endC: int)
    requires Building(segs, used0, used, ci, chain, startC, endC) && ci.left == []
    requires Untouched(segs, used, endC)
    ensures ForwardDone(segs, used0, ci.seed, ci.right)
  {
    FreeIff(used0, used, Members(ci));
    assert Members(ci) == [ci.seed] + SegIds(ci.right);
    assert ci == ChainInfo([], ci.seed, ci.right);
  }

  /** A backward step keeps the backward rule; `PickNext` supplies the
      premise. */
  lemma BackwardStep(segs: seq<Seg>, used0: seq<bool>, used: seq<bool>, ci: ChainInfo,
                     chain: Line, startC: int, endC: int, p: Piece)
    requires Building(segs, used0, used, ci, chain, startC, endC)
    requires GreedyLeft(segs, used0, ci) && 0 <= p.seg < |segs|
    requires p.asIs ==> forall j :: 0 <= j < |segs| && !used[j] ==> segs[j].start != OEnd(segs, p)
    ensures InfoIn(ci.(left := [p] + ci.left), |segs|) && GreedyLeft(segs, used0, ci.(left := [p] + ci.left))
  {
    FreeIff(used0, used, Members(ci));
    GreedyLeftCons(segs, used0, ci, p);
  }

  /** The join rule pins down orientation and phase order. With segments
      A→B and B→A seeded at the first, the chain must append the second
      as stored; prepending it instead breaks the rule. With A→B, B→C and
      C→B, the chain must take B→C as stored before C→B, not C→B reversed
      first. */
  lemma JoinRuleExample()
    ensures var segs := [Seg([], 0, 1), Seg([], 1, 0)];
            Greedy(segs, [false, false], ChainInfo([], 0, [Piece(1, true)])) &&
            !Greedy(segs, [false, false], ChainInfo([Piece(1, true)], 0, []))
    ensures var segs := [Seg([], 0, 1), Seg([], 1, 2), Seg([], 2, 1)];
            Greedy(segs, [false, false, false], ChainInfo([], 0, [Piece(1, true), Piece(2, true)])) &&
            !Greedy(segs, [false, false, false], ChainInfo([], 0, [Piece(2, false), Piece(1, false)]))
  {
    var segs := [Seg([], 0, 1), Seg([], 1, 0)];
    assert !NoneTouches(segs, [false, false], [0], 1) by {
      assert segs[1].start == 1;
    }
    assert [0] + SegIds([Piece(1, true)]) == [0, 1];
    var segs3 := [Seg([], 0, 1), Seg([], 1, 2), Seg([], 2, 1)];
    var right := [Piece(1, true), Piece(2, true)];
    assert right[..1] == [Piece(1, true)] && right[..0] == [];
    assert [0] + SegIds(right) == [0, 1, 2];
    var bad := [Piece(2, false), Piece(1, false)];
    assert bad[..0] == [] && [0] + SegIds(bad[..0]) == [0];
    assert !NoneStarts(segs3, [false, false, false], [0], 1) by {
      assert segs3[1].start == 1;
    }
  }

  // ---------------------------------------------------------------- all chains

  /** No segment of chain `later` touches an endpoint cluster of chain
      `earlier`: when `earlier` was finished, every segment that could have
      continued it was already taken. */
  predicate Apart(segs: seq<Seg>, earlier: ChainInfo, later: ChainInfo)
    requires InfoIn(earlier, |segs|)
  {
    forall m :: m in Members(later) && 0 <= m < |segs| ==>
      segs[m].start != StartC(segs, earlier) && segs[m].end != StartC(segs, earlier) &&
      segs[m].start != EndC(segs, earlier) && segs[m].end != EndC(segs, earlier)
  }

  /** Every emitted chain is well formed. */
  ghost predicate AllOk(segs: seq<Seg>, infos: seq<ChainInfo>, stitched: seq<Line>) {
    |stitched| == |infos| && forall k :: 0 <= k < |infos| ==> ChainOk(segs, infos[k], stitched[k])
  }

  /** Chains come out in increasing order of their seed segment. */
  predicate SeedsIncrease(infos: seq<ChainInfo>) {
    forall a, b :: 0 <= a < b < |infos| ==> infos[a].seed < infos[b].seed
  }

  /** Every earlier chain is apart from every later one. */
  ghost predicate AllApart(segs: seq<Seg>, infos: seq<ChainInfo>)
    requires forall k :: 0 <= k < |infos| ==> InfoIn(infos[k], |segs|)
  {
    forall a, b :: 0 <= a < b < |infos| ==> Apart(segs, infos[a], infos[b])
  }

  /** The flags of `n` segments with exactly those in `taken` used. */
  function Marked(n: nat, taken: seq<int>): (u: seq<bool>)
    ensures |u| == n && forall j :: 0 <= j < n ==> (u[j] <==> j in taken)
  {
    seq(n, j => j in taken)
  }

  /** Every chain follows the join rule against the segments the earlier
      chains left unused. */
  ghost predicate AllGreedy(segs: seq<Seg>, infos: seq<ChainInfo>)
    requires forall k :: 0 <= k < |infos| ==> InfoIn(infos[k], |segs|)
  {
    forall k :: 0 <= k < |infos| ==> Greedy(segs, Marked(|segs|, Flat(infos[..k])), infos[k])
  }

  /** The state of the outer loop of `stitch_lines` before seed `i`: the
      chains so far are well formed, every segment below `i` is used, the
      used segments are exactly the chains' members, each once, no unused
      segment touches a finished chain's ends, the seeds increase and each
      chain followed the join rule. */
  ghost predicate Done(segs: seq<Seg>, used: seq<bool>, infos: seq<ChainInfo>, stitched: seq<Line>, i: int) {
    SegsOk(segs) && |used| == |segs| && 0 <= i <= |segs| &&
    AllOk(segs, infos, stitched) &&
    (forall j :: 0 <= j < i ==> used[j]) &&
    Counts(Unused(|segs|), used, Flat(infos)) &&
    (forall k :: 0 <= k < |infos| ==>
       Untouched(segs, used, StartC(segs, infos[k])) && Untouched(segs, used, EndC(segs, infos[k]))) &&
    AllApart(segs, infos) &&
    (forall k :: 0 <= k < |infos| ==> infos[k].seed < i) &&
    SeedsIncrease(infos) && SeedsLowest(infos) && AllGreedy(segs, infos)
  }

  /** Each chain is seeded by the lowest-index segment that no earlier
      chain took. */
  ghost predicate SeedsLowest(infos: seq<ChainInfo>) {
    forall k, j :: 0 <= k < |infos| && 0 <= j < infos[k].seed ==> j in Flat(infos[..k])
  }

  /** What `stitch_lines` returns, read against the segments it built:
      well-formed chains that together use every segment exactly once,
      pairwise apart, in increasing seed order, each seeded by the lowest
      segment the earlier chains left unused and grown from it by the join
      rule, no more chains than segments. */
  ghost predicate Stitched(segs: seq<Seg>, infos: seq<ChainInfo>, stitched: seq<Line>) {
    SegsOk(segs) && AllOk(segs, infos, stitched) &&
    (forall x :: x in Flat(infos) ==> 0 <= x < |segs|) &&
    (forall j :: 0 <= j < |segs| ==> multiset(Flat(infos))[j] == 1) &&
    AllApart(segs, infos) && SeedsIncrease(infos) && SeedsLowest(infos) && AllGreedy(segs, infos) &&
    |stitched| <= |segs|
  }

  lemma DoneInit(segs: seq<Seg>)
    requires SegsOk(segs)
    ensures Done(segs, Unused(|segs|), [], [], 0)
  {
  }

  /** The outer loop skips a segment some earlier chain already took. */
  lemma DoneSkip(segs: seq<Seg>, used: seq<bool>, infos: seq<ChainInfo>, stitched: seq<Line>, i: int)
    requires Done(segs, used, infos, stitched, i) && i < |segs| && used[i]
    ensures Done(segs, used, infos, stitched, i + 1)
  {
  }

  lemma FlatSnoc(infos: seq<ChainInfo>, ci: ChainInfo)
    ensures Flat(infos + [ci]) == Flat(infos) + Members(ci)
  {
    assert (infos + [ci])[..|infos|] == infos;
  }

  lemma AddAllOk(segs: seq<Seg>, infos: seq<ChainInfo>, stitched: seq<Line>, ci: ChainInfo, chain: Line)
    requires AllOk(segs, infos, stitched) && ChainOk(segs, ci, chain)
    ensures AllOk(segs, infos + [ci], stitched + [chain])
  {
  }

  lemma AddCounts(usedB: seq<bool>, usedA: seq<bool>, flat: seq<int>, members: seq<int>)
    requires |usedB| == |usedA| && Grown(usedB, usedA)
    requires Counts(Unused(|usedB|), usedB, flat) && Counts(usedB, usedA, members)
    ensures Counts(Unused(|usedB|), usedA, flat + members)
  {
  }

  lemma AddOpen(segs: seq<Seg>, usedB: seq<bool>, usedA: seq<bool>, infos: seq<ChainInfo>, ci: ChainInfo)
    requires |usedB| == |segs| && |usedA| == |segs| && Grown(usedB, usedA)
    requires forall k :: 0 <= k < |infos| ==> InfoIn(infos[k], |segs|)
    requires forall k :: 0 <= k < |infos| ==>
               Untouched(segs, usedB, StartC(segs, infos[k])) && Untouched(segs, usedB, EndC(segs, infos[k]))
    requires InfoIn(ci, |segs|)
    requires Untouched(segs, usedA, StartC(segs, ci)) && Untouched(segs, usedA, EndC(segs, ci))
    ensures forall k :: 0 <= k < |infos + [ci]| ==> InfoIn((infos + [ci])[k], |segs|)
    ensures forall k :: 0 <= k < |infos + [ci]| ==>
               Untouched(segs, usedA, StartC(segs, (infos + [ci])[k])) &&
               Untouched(segs, usedA, EndC(segs, (infos + [ci])[k]))
  {
    forall k | 0 <= k < |infos + [ci]|
      ensures Untouched(segs, usedA, StartC(segs, (infos + [ci])[k])) &&
              Untouched(segs, usedA, EndC(segs, (infos + [ci])[k]))
    {
      if k < |infos| {
        assert (infos + [ci])[k] == infos[k];
        UntouchedGrown(segs, usedB, usedA, StartC(segs, infos[k]));
        UntouchedGrown(segs, usedB, usedA, EndC(segs, infos[k]));
      }
    }
  }

  /** A new chain's members were all unused before it, so none touches the
      ends of an earlier chain. */
  lemma AddApartNew(segs: seq<Seg>, usedB: seq<bool>, usedA: seq<bool>, earlier: ChainInfo, ci: ChainInfo)
    requires |usedB| == |segs| && |usedA| == |segs| && InfoIn(earlier, |segs|)
    requires Untouched(segs, usedB, StartC(segs, earlier)) && Untouched(segs, usedB, EndC(segs, earlier))
    requires Counts(usedB, usedA, Members(ci))
    ensures Apart(segs, earlier, ci)
  {
    forall m | m in Members(ci) && 0 <= m < |segs|
      ensures segs[m].start != StartC(segs, earlier) && segs[m].end != StartC(segs, earlier) &&
              segs[m].start != EndC(segs, earlier) && segs[m].end != EndC(segs, earlier)
    {
      assert multiset(Members(ci))[m] > 0;
      assert !usedB[m];
    }
  }

  lemma AddApart(segs: seq<Seg>, usedB: seq<bool>, usedA: seq<bool>, infos: seq<ChainInfo>, ci: ChainInfo)
    requires |usedB| == |segs| && |usedA| == |segs|
    requires forall k :: 0 <= k < |infos| ==> InfoIn(infos[k], |segs|)
    requires forall k :: 0 <= k < |infos| ==>
               Untouched(segs, usedB, StartC(segs, infos[k])) && Untouched(segs, usedB, EndC(segs, infos[k]))
    requires AllApart(segs, infos) && InfoIn(ci, |segs|) && Counts(usedB, usedA, Members(ci))
    ensures forall k :: 0 <= k < |infos + [ci]| ==> InfoIn((infos + [ci])[k], |segs|)
    ensures AllApart(segs, infos + [ci])
  {
    var infos' := infos + [ci];
    assert forall k :: 0 <= k < |infos| ==> infos'[k] == infos[k];
    forall a, b | 0 <= a < b < |infos'| ensures Apart(segs, infos'[a], infos'[b]) {
      if b == |infos| {
        AddApartNew(segs, usedB, usedA, infos[a], ci);
      }
    }
  }

  lemma AddSeeds(infos: seq<ChainInfo>, ci: ChainInfo, i: int)
    requires SeedsIncrease(infos) && (forall k :: 0 <= k < |infos| ==> infos[k].seed < i) && ci.seed == i
    ensures SeedsIncrease(infos + [ci]) && forall k :: 0 <= k < |infos + [ci]| ==> (infos + [ci])[k].seed < i + 1
  {
  }

  lemma AddUsed(segs: seq<Seg>, usedB: seq<bool>, usedA: seq<bool>, ci: ChainInfo, i: int)
    requires |usedB| == |segs| && |usedA| == |segs| && 0 <= i < |segs| && Grown(usedB, usedA)
    requires (forall j :: 0 <= j < i ==> usedB[j]) && ci.seed == i && InfoIn(ci, |segs|)
    requires Counts(usedB, usedA, Members(ci))
    ensures forall j :: 0 <= j < i + 1 ==> usedA[j]
  {
    MembersIn(ci, |segs|);
    assert multiset(Members(ci))[i] > 0;
  }

  /** Every segment below the new seed is used, so an earlier chain took
      it. */
  lemma AddLowest(segs: seq<Seg>, used: seq<bool>, infos: seq<ChainInfo>, ci: ChainInfo, i: int)
    requires |used| == |segs| && 0 <= i <= |segs| && (forall j :: 0 <= j < i ==> used[j])
    requires Counts(Unused(|segs|), used, Flat(infos)) && SeedsLowest(infos) && ci.seed == i
    ensures SeedsLowest(infos + [ci])
  {
    var infos' := infos + [ci];
    forall k, j | 0 <= k < |infos'| && 0 <= j < infos'[k].seed
      ensures j in Flat(infos'[..k])
    {
      if k < |infos| {
        assert infos'[..k] == infos[..k];
      } else {
        assert infos'[..k] == infos;
        assert used[j] && !Unused(|segs|)[j];
      }
    }
  }

  /** The flags before a new chain mark exactly the earlier chains'
      members. */
  lemma UsedMarked(used: seq<bool>, flat: seq<int>)
    requires Counts(Unused(|used|), used, flat)
    ensures used == Marked(|used|, flat)
  {
    forall j | 0 <= j < |used|
      ensures used[j] == Marked(|used|, flat)[j]
    {
      assert j in flat <==> multiset(flat)[j] > 0;
    }
  }

  /** So a new chain's join rule carries over to `AllGreedy`. */
  lemma AddGreedy(segs: seq<Seg>, infos: seq<ChainInfo>, ci: ChainInfo)
    requires forall k :: 0 <= k < |infos| ==> InfoIn(infos[k], |segs|)
    requires AllGreedy(segs, infos) && InfoIn(ci, |segs|) && Greedy(segs, Marked(|segs|, Flat(infos)), ci)
    ensures AllGreedy(segs, infos + [ci])
  {
    var infos' := infos + [ci];
    forall k | 0 <= k < |infos'|
      ensures Greedy(segs, Marked(|segs|, Flat(infos'[..k])), infos'[k])
    {
      if k < |infos| {
        assert infos'[..k] == infos[..k] && infos'[k] == infos[k];
      } else {
        assert infos'[..k] == infos;
      }
    }
  }

  /** The conjuncts of `Done`, one by one. */
  lemma DoneIntro(segs: seq<Seg>, used: seq<bool>, infos: seq<ChainInfo>, stitched: seq<Line>, i: int)
    requires SegsOk(segs) && |used| == |segs| && 0 <= i <= |segs|
    requires AllOk(segs, infos, stitched)
    requires forall j :: 0 <= j < i ==> used[j]
    requires Counts(Unused(|segs|), used, Flat(infos))
    requires forall k :: 0 <= k < |infos| ==> InfoIn(infos[k], |segs|)
    requires forall k :: 0 <= k < |infos| ==>
               Untouched(segs, used, StartC(segs, infos[k])) && Untouched(segs, used, EndC(segs, infos[k]))
    requires AllApart(segs, infos)
    requires forall k :: 0 <= k < |infos| ==> infos[k].seed < i
    requires SeedsIncrease(infos) && SeedsLowest(infos) && AllGreedy(segs, infos)
    ensures Done(segs, used, infos, stitched, i)
  {
  }

  /** One seed handled: its chain joins the finished ones. */
  lemma DoneAdd(segs: seq<Seg>, usedB: seq<bool>, usedA: seq<bool>, infos: seq<ChainInfo>,
                stitched: seq<Line>, ci: ChainInfo, chain: Line, i: int)
    requires Done(segs, usedB, infos, stitched, i) && i < |segs| && !usedB[i]
    requires ci.seed == i && InfoIn(ci, |segs|)
    requires Building(segs, usedB, usedA, ci, chain, StartC(segs, ci), EndC(segs, ci))
    requires Untouched(segs, usedA, StartC(segs, ci)) && Untouched(segs, usedA, EndC(segs, ci))
    requires Greedy(segs, usedB, ci)
    ensures Done(segs, usedA, infos + [ci], stitched + [chain], i + 1)
  {
    AddAllOk(segs, infos, stitched, ci, chain);
    FlatSnoc(infos, ci);
    AddCounts(usedB, usedA, Flat(infos), Members(ci));
    AddOpen(segs, usedB, usedA, infos, ci);
    AddApart(segs, usedB, usedA, infos, ci);
    AddSeeds(infos, ci, i);
    AddUsed(segs, usedB, usedA, ci, i);
    AddLowest(segs, usedB, infos, ci, i);
    UsedMarked(usedB, Flat(infos));
    AddGreedy(segs, infos, ci);
    DoneIntro(segs, usedA, infos + [ci], stitched + [chain], i + 1);
  }

  lemma {:induction false} FlatIn(segs: seq<Seg>, infos: seq<ChainInfo>)
    requires forall k :: 0 <= k < |infos| ==> InfoIn(infos[k], |segs|)
    ensures forall x :: x in Flat(infos) ==> 0 <= x < |segs|
  {
    if infos != [] {
      var n := |infos|;
      FlatIn(segs, infos[..n - 1]);
      MembersIn(infos[n - 1], |segs|);
    }
  }

  lemma {:induction false} SeedsAtLeast(infos: seq<ChainInfo>, k: int)
    requires SeedsIncrease(infos) && 0 <= k < |infos|
    requires forall t :: 0 <= t < |infos| ==> infos[t].seed >= 0
    ensures infos[k].seed >= k
  {
    if k > 0 {
      SeedsAtLeast(infos, k - 1);
    }
  }

  /** After the last seed every segment is used, so every segment lies in
      exactly one chain. */
  lemma DoneFinal(segs: seq<Seg>, used: seq<bool>, infos: seq<ChainInfo>, stitched: seq<Line>)
    requires Done(segs, used, infos, stitched, |segs|)
    ensures Stitched(segs, infos, stitched)
  {
    FlatIn(segs, infos);
    forall j | 0 <= j < |segs|
      ensures multiset(Flat(infos))[j] == 1
    {
      assert used[j] && !Unused(|segs|)[j];
    }
    if infos != [] {
      SeedsAtLeast(infos, |infos| - 1);
      assert infos[|infos| - 1].seed < |segs|;
    }
  }

  // ---------------------------------------------------------------- segments from lines

  /** `seg` was built from `line`: same length, the same interior points,
      and endpoint cluster ids below `n`. */
  predicate SegFor(seg: Seg, line: Line, n: int) {
    |line| >= 2 && |seg.coords| == |line| &&
    seg.coords[1..|line| - 1] == line[1..|line| - 1] &&
    0 <= seg.start < n && 0 <= seg.end < n
  }

  /** `segs` are the lines `kept`, one segment each, in order. */
  predicate SegsFor(segs: seq<Seg>, kept: seq<Line>, n: int) {
    |segs| == |kept| && forall k :: 0 <= k < |segs| ==> SegFor(segs[k], kept[k], n)
  }

  lemma SegsForOk(segs: seq<Seg>, kept: seq<Line>, n: int)
    requires SegsFor(segs, kept, n)
    ensures SegsOk(segs)
  {
  }

  /** Snapping a segment's start point `p` and then its end point `q`: the
      clusterer after both, and the two cluster ids. */
  function AssignPair(cell: real, tol: real, st: ClusterState, p: XY, q: XY): (r: (ClusterState, int, int))
    requires cell != 0.0 && Scannable(st)
    ensures Scannable(r.0) && |st.centers| <= |r.0.centers|
    ensures 0 <= r.1 < |r.0.centers| && 0 <= r.2 < |r.0.centers|
  {
    var tol2 := tol * tol;
    AssignStepScannable(cell, tol2, st, p);
    var (mid, s) := AssignStep(cell, tol2, st, p);
    AssignStepScannable(cell, tol2, mid, q);
    var (st', e) := AssignStep(cell, tol2, mid, q);
    (st', s, e)
  }

  /** Both `assign` calls keep the clusterer's grid invariant. */
  lemma AssignPairValid(cell: real, tol: real, st: ClusterState, p: XY, q: XY)
    requires cell != 0.0 && ClusterOk(cell, st)
    ensures ClusterOk(cell, AssignPair(cell, tol, st, p, q).0)
  {
    var tol2 := tol * tol;
    AssignStepValid(cell, tol2, st, p);
    AssignStepValid(cell, tol2, AssignStep(cell, tol2, st, p).0, q);
  }

  /** The clusterer before any `assign`. */
  const NoClusters: ClusterState := ClusterState([], map[], map[])

  /** `center(cid)` read from a clusterer state. */
  function CenterIn(proj: Projection, st: ClusterState, cid: int): Point
    requires 0 <= cid < |st.centers|
  {
    proj.inv(XY(st.centers[cid].x, st.centers[cid].y))
  }

  /** The segment a line of at least two points becomes once `assign` has
      given its endpoints the clusters `pr.1` and `pr.2`, `pr.0` being the
      clusterer afterwards: both endpoints replaced by those clusters'
      centres. */
  function SnapSeg(proj: Projection, pr: (ClusterState, int, int), line: Line): (seg: Seg)
    requires 0 <= pr.1 < |pr.0.centers| && 0 <= pr.2 < |pr.0.centers| && |line| >= 2
    ensures |seg.coords| == |line| && seg.coords[1..|line| - 1] == line[1..|line| - 1]
    ensures seg.coords[0] == CenterIn(proj, pr.0, pr.1) && seg.coords[|line| - 1] == CenterIn(proj, pr.0, pr.2)
    ensures seg.start == pr.1 && seg.end == pr.2
  {
    Seg([CenterIn(proj, pr.0, pr.1)] + line[1..|line| - 1] + [CenterIn(proj, pr.0, pr.2)], pr.1, pr.2)
  }

  /** One pass of the segment loop on a line of at least two points, from
      the clusterer state `st`: `assign` takes the line's first and then its
      last point, and the line becomes the segment whose endpoints are the
      centres of those two clusters as they stand after both calls. The
      result is the clusterer afterwards and the segment. Only valid states
      with a non-zero cell reach it; on any other state it changes nothing
      and gives the ids -1. */
  ghost function SnapOne(cell: real, tol: real, proj: Projection, st: ClusterState, line: Line): (r: (ClusterState, Seg))
    requires |line| >= 2
  {
    if cell != 0.0 && Scannable(st) then
      var pr := AssignPair(cell, tol, st, proj.fwd(line[0]), proj.fwd(line[|line| - 1]));
      (pr.0, SnapSeg(proj, pr, line))
    else (st, Seg(line, -1, -1))
  }

  /** The segment loop of `stitch_lines` run from the clusterer state `st`
      over the lines `kept`, each of at least two points, in order: the
      clusterer afterwards and the segments built. */
  ghost function SnapAll(cell: real, tol: real, proj: Projection, st: ClusterState, kept: seq<Line>)
    : (r: (ClusterState, seq<Seg>))
    requires forall k :: 0 <= k < |kept| ==> |kept[k]| >= 2
    ensures |r.1| == |kept|
    decreases |kept|
  {
    if kept == [] then (st, [])
    else
      var n := |kept|;
      var prev := SnapAll(cell, tol, proj, st, kept[..n - 1]);
      var one := SnapOne(cell, tol, proj, prev.0, kept[n - 1]);
      (one.0, prev.1 + [one.1])
  }

  /** A state `assign` is defined on, with a non-zero cell, snaps as
      `assign` does. */
  lemma SnapOneIs(cell: real, tol: real, proj: Projection, st: ClusterState, line: Line, st': ClusterState, seg: Seg)
    requires cell != 0.0 && Scannable(st) && |line| >= 2
    requires (st', seg.start, seg.end) == AssignPair(cell, tol, st, proj.fwd(line[0]), proj.fwd(line[|line| - 1]))
    requires seg == SnapSeg(proj, (st', seg.start, seg.end), line)
    ensures SnapOne(cell, tol, proj, st, line) == (st', seg)
  {
  }

  /** The clusterer stays valid all along the loop. */
  lemma {:induction false} SnapAllValid(cell: real, tol: real, proj: Projection, st: ClusterState, kept: seq<Line>)
    requires cell != 0.0 && ClusterOk(cell, st)
    requires forall k :: 0 <= k < |kept| ==> |kept[k]| >= 2
    ensures ClusterOk(cell, SnapAll(cell, tol, proj, st, kept).0)
    decreases |kept|
  {
    if kept != [] {
      var n := |kept|;
      SnapAllValid(cell, tol, proj, st, kept[..n - 1]);
      var prev := SnapAll(cell, tol, proj, st, kept[..n - 1]).0;
      var line := kept[n - 1];
      OkScannable(cell, prev);
      AssignPairValid(cell, tol, prev, proj.fwd(line[0]), proj.fwd(line[|line| - 1]));
    }
  }

  /** Segment `k` is what snapping line `k` makes of it, from the clusterer
      as it stood after the lines before `k`. */
  lemma {:induction false} SnapAllAt(cell: real, tol: real, proj: Projection, st: ClusterState, kept: seq<Line>, k: int)
    requires forall j :: 0 <= j < |kept| ==> |kept[j]| >= 2
    requires 0 <= k < |kept|
    ensures SnapAll(cell, tol, proj, st, kept).1[k] ==
            SnapOne(cell, tol, proj, SnapAll(cell, tol, proj, st, kept[..k]).0, kept[k]).1
    ensures SnapAll(cell, tol, proj, st, kept[..k + 1]).0 ==
            SnapOne(cell, tol, proj, SnapAll(cell, tol, proj, st, kept[..k]).0, kept[k]).0
    decreases |kept|
  {
    var n := |kept|;
    assert kept[..k + 1][..k] == kept[..k];
    if k < n - 1 {
      var front := kept[..n - 1];
      SnapAllAt(cell, tol, proj, st, front, k);
      assert front[..k] == kept[..k] && front[k] == kept[k] && front[..k + 1] == kept[..k + 1];
    } else {
      assert kept[..k + 1] == kept;
    }
  }

  /** The clusterer only gains clusters as the loop goes on. */
  lemma {:induction false} SnapAllGrows(cell: real, tol: real, proj: Projection, st: ClusterState, kept: seq<Line>, j: int)
    requires forall k :: 0 <= k < |kept| ==> |kept[k]| >= 2
    requires 0 <= j <= |kept|
    ensures |SnapAll(cell, tol, proj, st, kept[..j]).0.centers| <= |SnapAll(cell, tol, proj, st, kept).0.centers|
    decreases |kept|
  {
    var n := |kept|;
    if j < n {
      var front := kept[..n - 1];
      SnapAllGrows(cell, tol, proj, st, front, j);
      assert front[..j] == kept[..j];
    } else {
      assert kept[..j] == kept;
    }
  }

  /** Snapped from a valid state with a non-zero cell, segment `k` comes
      from the two `assign` calls on line `k`'s endpoints, made on the
      clusterer as the lines before it left it: its ids are the clusters
      they return, and its coordinates are the line with both endpoints
      replaced by those clusters' centres as they stand right after. */
  lemma SnapAllEnds(cell: real, tol: real, proj: Projection, st: ClusterState, kept: seq<Line>, k: int,
                    before: ClusterState, after: ClusterState, seg: Seg)
    requires cell != 0.0
    requires forall j :: 0 <= j < |kept| ==> |kept[j]| >= 2
    requires 0 <= k < |kept|
    requires before == SnapAll(cell, tol, proj, st, kept[..k]).0
    requires after == SnapAll(cell, tol, proj, st, kept[..k + 1]).0
    requires seg == SnapAll(cell, tol, proj, st, kept).1[k]
    requires Scannable(before)
    ensures var line := kept[k];
            var pr := AssignPair(cell, tol, before, proj.fwd(line[0]), proj.fwd(line[|line| - 1]));
            after == pr.0 && seg.start == pr.1 && seg.end == pr.2 &&
            seg.coords == [CenterIn(proj, pr.0, pr.1)] + line[1..|line| - 1] + [CenterIn(proj, pr.0, pr.2)]
  {
    SnapAllAt(cell, tol, proj, st, kept, k);
    SnapOneEnds(cell, tol, proj, before, kept[k]);
  }

  lemma {:induction false} SnapAllScannable(cell: real, tol: real, proj: Projection, st: ClusterState, kept: seq<Line>)
    requires cell != 0.0 && Scannable(st)
    requires forall k :: 0 <= k < |kept| ==> |kept[k]| >= 2
    ensures Scannable(SnapAll(cell, tol, proj, st, kept).0)
    decreases |kept|
  {
    if kept != [] {
      SnapAllScannable(cell, tol, proj, st, kept[..|kept| - 1]);
    }
  }

  /** The same for one line. */
  lemma SnapOneEnds(cell: real, tol: real, proj: Projection, st: ClusterState, line: Line)
    requires cell != 0.0 && Scannable(st) && |line| >= 2
    ensures var pr := AssignPair(cell, tol, st, proj.fwd(line[0]), proj.fwd(line[|line| - 1]));
            var one := SnapOne(cell, tol, proj, st, line);
            one.0 == pr.0 && one.1.start == pr.1 && one.1.end == pr.2 &&
            one.1.coords == [CenterIn(proj, pr.0, pr.1)] + line[1..|line| - 1] + [CenterIn(proj, pr.0, pr.2)]
  {
  }

  /** Snapped from a valid state with a non-zero cell, each segment keeps
      its line's length and interior points, and its cluster ids are below
      the final cluster count. */
  lemma {:induction false} SnapAllSegsFor(cell: real, tol: real, proj: Projection, st: ClusterState, kept: seq<Line>)
    requires cell != 0.0 && Scannable(st)
    requires forall k :: 0 <= k < |kept| ==> |kept[k]| >= 2
    ensures SegsFor(SnapAll(cell, tol, proj, st, kept).1, kept, |SnapAll(cell, tol, proj, st, kept).0.centers|)
    decreases |kept|
  {
    if kept != [] {
      var front := kept[..|kept| - 1];
      var line := kept[|kept| - 1];
      SnapAllSegsFor(cell, tol, proj, st, front);
      SnapAllScannable(cell, tol, proj, st, front);
      var prev := SnapAll(cell, tol, proj, st, front);
      SnapOneSegFor(cell, tol, proj, prev.0, line);
      var one := SnapOne(cell, tol, proj, prev.0, line);
      SegsForSnoc(prev.1, front, |prev.0.centers|, one.1, line, |one.0.centers|);
      SnapAllPush(cell, tol, proj, st, front, line);
      assert kept == front + [line];
    }
  }

  /** One line's segment keeps its length and interior, with ids below the
      cluster count afterwards, which is at least the count before. */
  lemma SnapOneSegFor(cell: real, tol: real, proj: Projection, st: ClusterState, line: Line)
    requires cell != 0.0 && Scannable(st) && |line| >= 2
    ensures var one := SnapOne(cell, tol, proj, st, line);
            SegFor(one.1, line, |one.0.centers|) && |st.centers| <= |one.0.centers|
  {
    SnapOneEnds(cell, tol, proj, st, line);
  }

  /** A segment for one more line, with the id bound raised to `m`. */
  lemma SegsForSnoc(segs: seq<Seg>, kept: seq<Line>, n: int, seg: Seg, line: Line, m: int)
    requires SegsFor(segs, kept, n) && n <= m && SegFor(seg, line, m)
    ensures SegsFor(segs + [seg], kept + [line], m)
  {
  }

  /** One more line at the end of the loop adds its segment. */
  lemma SnapAllPush(cell: real, tol: real, proj: Projection, st: ClusterState, kept: seq<Line>, line: Line)
    requires forall k :: 0 <= k < |kept| ==> |kept[k]| >= 2
    requires |line| >= 2
    ensures var prev := SnapAll(cell, tol, proj, st, kept);
            var one := SnapOne(cell, tol, proj, prev.0, line);
            SnapAll(cell, tol, proj, st, kept + [line]) == (one.0, prev.1 + [one.1])
  {
    assert (kept + [line])[..|kept|] == kept;
  }

  /** One more line of the loop: a short line adds nothing, and a line of
      at least two points adds its segment. */
  lemma SnapAllSnoc(cell: real, tol: real, proj: Projection, st: ClusterState, lines: seq<Line>, i: int)
    requires 0 <= i < |lines|
    ensures var prev := SnapAll(cell, tol, proj, st, CoastlinePipeline.AtLeastTwo(lines[..i]));
            SnapAll(cell, tol, proj, st, CoastlinePipeline.AtLeastTwo(lines[..i + 1])) ==
              if |lines[i]| < 2 then prev
              else
                var one := SnapOne(cell, tol, proj, prev.0, lines[i]);
                (one.0, prev.1 + [one.1])
  {
    AtLeastTwoPrefix(lines, i);
    var kept := CoastlinePipeline.AtLeastTwo(lines[..i]);
    var kept' := CoastlinePipeline.AtLeastTwo(lines[..i + 1]);
    if |lines[i]| >= 2 {
      assert kept' == kept + [lines[i]];
      SnapAllPush(cell, tol, proj, st, kept, lines[i]);
    } else {
      assert kept' == kept;
    }
  }

  /** No clusters yet: the invariant holds trivially. */
  lemma NoClustersOk(cell: real)
    ensures ClusterOk(cell, NoClusters)
  {
  }

  /** The two `assign` calls of the segment loop: the start point `a`,
      then the end point `b`. */
  method SnapPair(c: EndpointClusterer, a: Point, b: Point) returns (s: nat, e: nat)
    requires c.Valid() && c.cell != 0.0
    modifies c
    ensures c.Valid()
    ensures (c.State(), s as int, e as int) == AssignPair(c.cell, c.tol, old(c.State()), c.proj.fwd(a), c.proj.fwd(b))
    ensures old(|c.centers|) <= |c.centers| && s < |c.centers| && e < |c.centers|
  {
    ghost var tol2 := c.tol * c.tol;
    ghost var st0 := c.State();
    s := c.Assign(a.lon, a.lat);
    ghost var mid := c.State();
    assert (mid, s as int) == AssignStep(c.cell, tol2, st0, c.proj.fwd(a));
    assert c.tol * c.tol == tol2;
    e := c.Assign(b.lon, b.lat);
    assert (c.State(), e as int) == AssignStep(c.cell, tol2, mid, c.proj.fwd(b));
  }

  /** One pass of the segment loop of `stitch_lines` over a line of at least
      two points: both endpoints are snapped, start first, and then replaced
      by the centres of their clusters as they stand after both snaps. */
  method MakeSegment(c: EndpointClusterer, line: Line) returns (seg: Seg)
    requires c.Valid() && c.cell != 0.0 && |line| >= 2
    modifies c
    ensures c.Valid()
    ensures (c.State(), seg.start, seg.end) ==
            AssignPair(c.cell, c.tol, old(c.State()), c.proj.fwd(line[0]), c.proj.fwd(line[|line| - 1]))
    ensures old(|c.centers|) <= |c.centers| && 0 <= seg.start < |c.centers| && 0 <= seg.end < |c.centers|
    ensures seg.coords == [c.Center(seg.start)] + line[1..|line| - 1] + [c.Center(seg.end)]
    ensures seg == SnapSeg(c.proj, (c.State(), seg.start, seg.end), line)
  {
    var s, e := SnapPair(c, line[0], line[|line| - 1]);
    var sxy := c.Center(s);
    var exy := c.Center(e);
    var coords := line[0 := sxy][|line| - 1 := exy];
    SnapEnds(line, sxy, exy);
    seg := Seg(coords, s, e);
  }

  /** `coords[0] = a; coords[-1] = b` on a copy of a line of at least two
      points. */
  lemma SnapEnds(line: Line, a: Point, b: Point)
    requires |line| >= 2
    ensures line[0 := a][|line| - 1 := b] == [a] + line[1..|line| - 1] + [b]
  {
  }

  lemma AtLeastTwoPrefix(lines: seq<Line>, i: int)
    requires 0 <= i < |lines|
    ensures CoastlinePipeline.AtLeastTwo(lines[..i + 1]) ==
            CoastlinePipeline.AtLeastTwo(lines[..i]) + (if |lines[i]| >= 2 then [lines[i]] else [])
  {
    CoastlinePipeline.AtLeastTwoSnoc(lines[..i + 1]);
    assert lines[..i + 1][..i] == lines[..i];
    assert [lines[i]][1..] == [];
  }

  /** The segment loop of `stitch_lines`: lines of fewer than two points are
      skipped and every other line becomes a segment, as `SnapAll` from the
      clusterer's state on entry says, which also gives its state on exit. A
      zero tolerance makes `_bucket_id` divide by zero at the first line it
      snaps, before that line changes anything, so the loop fails exactly
      when some line has two points or more. */
  method BuildSegments(c: EndpointClusterer, lines: seq<Line>) returns (r: Result<seq<Seg>>)
    requires c.Valid()
    modifies c
    ensures c.Valid()
    ensures r.Err? <==> c.cell == 0.0 && CoastlinePipeline.AtLeastTwo(lines) != []
    ensures r.Err? ==> r.error == "ZeroDivisionError"
    ensures r.Ok? ==> (c.State(), r.value) == SnapAll(c.cell, c.tol, c.proj, old(c.State()),
                                                      CoastlinePipeline.AtLeastTwo(lines))
  {
    if c.cell == 0.0 {
      if CoastlinePipeline.AtLeastTwo(lines) != [] {
        return Err("ZeroDivisionError");
      }
      return Ok([]);
    }
    var segs := SnapEach(c, lines);
    return Ok(segs);
  }

  /** The segment loop with a non-zero cell size. */
  method SnapEach(c: EndpointClusterer, lines: seq<Line>) returns (segs: seq<Seg>)
    requires c.Valid() && c.cell != 0.0
    modifies c
    ensures c.Valid()
    ensures (c.State(), segs) == SnapAll(c.cell, c.tol, c.proj, old(c.State()), CoastlinePipeline.AtLeastTwo(lines))
  {
    ghost var st0 := c.State();
    segs := [];
    var i := 0;
    while i < |lines|
      invariant 0 <= i <= |lines| && c.Valid()
      invariant (c.State(), segs) == SnapAll(c.cell, c.tol, c.proj, st0, CoastlinePipeline.AtLeastTwo(lines[..i]))
    {
      segs := SnapLine(c, lines, i, st0, segs);
      i := i + 1;
    }
    assert lines[..i] == lines;
  }

  /** One pass of the segment loop on line `i`: a line of fewer than two
      points is skipped, any other is snapped into the next segment. */
  method SnapLine(c: EndpointClusterer, lines: seq<Line>, i: int, ghost st0: ClusterState, segs: seq<Seg>)
    returns (segs': seq<Seg>)
    requires c.Valid() && c.cell != 0.0 && 0 <= i < |lines|
    requires (c.State(), segs) == SnapAll(c.cell, c.tol, c.proj, st0, CoastlinePipeline.AtLeastTwo(lines[..i]))
    modifies c
    ensures c.Valid()
    ensures (c.State(), segs') == SnapAll(c.cell, c.tol, c.proj, st0, CoastlinePipeline.AtLeastTwo(lines[..i + 1]))
  {
    if |lines[i]| < 2 {
      SnapAllSnoc(c.cell, c.tol, c.proj, st0, lines, i);
      return segs;
    }
    ghost var st := c.State();
    OkScannable(c.cell, st);
    var seg := MakeSegment(c, lines[i]);
    SnapAllExtend(c.cell, c.tol, c.proj, st0, lines, i, st, segs, c.State(), seg);
    segs' := segs + [seg];
  }

  /** The loop's step on a line of at least two points: the segment and
      the state that `MakeSegment` gives extend the fold by that line. */
  lemma SnapAllExtend(cell: real, tol: real, proj: Projection, st0: ClusterState, lines: seq<Line>, i: int,
                      st: ClusterState, segs: seq<Seg>, st': ClusterState, seg: Seg)
    requires 0 <= i < |lines| && |lines[i]| >= 2
    requires (st, segs) == SnapAll(cell, tol, proj, st0, CoastlinePipeline.AtLeastTwo(lines[..i]))
    requires cell != 0.0 && Scannable(st)
    requires (st', seg.start, seg.end) == AssignPair(cell, tol, st, proj.fwd(lines[i][0]), proj.fwd(lines[i][|lines[i]| - 1]))
    requires seg == SnapSeg(proj, (st', seg.start, seg.end), lines[i])
    ensures (st', segs + [seg]) == SnapAll(cell, tol, proj, st0, CoastlinePipeline.AtLeastTwo(lines[..i + 1]))
  {
    SnapOneIs(cell, tol, proj, st, lines[i], st', seg);
    SnapAllSnoc(cell, tol, proj, st0, lines, i);
  }

  /** What `stitch_lines` computes from `lines` with tolerance `snapTol`:
      `segs` are the segments its loop builds from an empty clusterer over
      the lines of at least two points, with cluster ids below the final
      cluster count, and `stitched` are the chains the seed loop builds
      from them under the join rule (`Stitched`, `AllGreedy`), as `infos`
      records; only which of several equally good candidates a step takes
      is left open. */
  ghost predicate StitchedFrom(lines: seq<Line>, snapTol: real, proj: Projection,
                               segs: seq<Seg>, infos: seq<ChainInfo>, stitched: seq<Line>)
  {
    var kept := CoastlinePipeline.AtLeastTwo(lines);
    var snapped := SnapAll(snapTol, snapTol, proj, NoClusters, kept);
    segs == snapped.1 && SegsFor(segs, kept, |snapped.0.centers|) && Stitched(segs, infos, stitched)
  }

  /** The segments the loop builds from an empty clusterer correspond to
      the lines they come from, and are fit to be stitched. */
  lemma SnappedSegs(lines: seq<Line>, snapTol: real, proj: Projection, st: ClusterState, segs: seq<Seg>)
    requires snapTol != 0.0 || CoastlinePipeline.AtLeastTwo(lines) == []
    requires (st, segs) == SnapAll(snapTol, snapTol, proj, NoClusters, CoastlinePipeline.AtLeastTwo(lines))
    ensures SegsFor(segs, CoastlinePipeline.AtLeastTwo(lines), |st.centers|) && SegsOk(segs)
  {
    var kept := CoastlinePipeline.AtLeastTwo(lines);
    if snapTol != 0.0 {
      NoClustersOk(snapTol);
      OkScannable(snapTol, NoClusters);
      SnapAllSegsFor(snapTol, snapTol, proj, NoClusters, kept);
    }
    SegsForOk(segs, kept, |st.centers|);
  }

  /** The first half of `stitch_lines`: a fresh clusterer with cell size
      `snapTol` and the segment loop over `lines`. */
  method SnapLines(lines: seq<Line>, snapTol: real, proj: Projection) returns (r: Result<seq<Seg>>)
    ensures r.Err? <==> snapTol == 0.0 && CoastlinePipeline.AtLeastTwo(lines) != []
    ensures r.Err? ==> r.error == "ZeroDivisionError"
    ensures r.Ok? ==> var snapped := SnapAll(snapTol, snapTol, proj, NoClusters, CoastlinePipeline.AtLeastTwo(lines));
                      r.value == snapped.1 && SegsFor(r.value, CoastlinePipeline.AtLeastTwo(lines), |snapped.0.centers|)
    ensures r.Ok? ==> SegsOk(r.value)
  {
    var c := new EndpointClusterer(snapTol, proj);
    assert c.State() == NoClusters;
    r := BuildSegments(c, lines);
    if r.Ok? {
      SnappedSegs(lines, snapTol, proj, c.State(), r.value);
    }
  }

  /** `stitch_lines`: snap the endpoints of every line of at least two
      points, then greedily chain the segments through their shared
      clusters. The ghost outputs are the segments and how each chain was
      assembled from them. */
  method StitchLines(lines: seq<Line>, snapTol: real, proj: Projection)
    returns (r: Result<seq<Line>>, ghost segs: seq<Seg>, ghost infos: seq<ChainInfo>)
    ensures r.Err? <==> snapTol == 0.0 && exists k :: 0 <= k < |lines| && |lines[k]| >= 2
    ensures r.Err? ==> r.error == "ZeroDivisionError"
    ensures lines == [] ==> r == Ok([])
    ensures r.Ok? ==> StitchedFrom(lines, snapTol, proj, segs, infos, r.value)
  {
    AtLeastTwoSome(lines);
    if lines == [] {
      assert Stitched([], [], []);
      return Ok([]), [], [];
    }
    var built := SnapLines(lines, snapTol, proj);
    if built.Err? {
      return Err(built.error), [], [];
    }
    var built_segs := built.value;
    segs := built_segs;
    var index := new SegmentIndex(built_segs);
    var stitched;
    stitched, infos := index.ChainAll();
    r := Ok(stitched);
  }

  /** Some line has two or more points exactly when the filter keeps one. */
  lemma AtLeastTwoSome(lines: seq<Line>)
    ensures CoastlinePipeline.AtLeastTwo(lines) != [] <==> exists k :: 0 <= k < |lines| && |lines[k]| >= 2
  {
    var kept := CoastlinePipeline.AtLeastTwo(lines);
    if kept != [] {
      assert kept[0] in kept;
      var k :| 0 <= k < |lines| && lines[k] == kept[0];
    }
    if k :| 0 <= k < |lines| && |lines[k]| >= 2 {
      assert lines[k] in lines;
    }
  }

  /** The segments, the `used` flags and the `starts`/`ends` dicts that the
      closures `remove_idx` and `pick_next` share. */
  class SegmentIndex {
    const segs: seq<Seg>
    var used: seq<bool>
    var starts: map<int, set<int>>
    var ends: map<int, set<int>>

    ghost predicate Valid()
      reads this
    {
      SegsOk(segs) && IndexOk(segs, used, starts, ends)
    }

    constructor(segs: seq<Seg>)
      requires SegsOk(segs)
      ensures this.segs == segs && used == Unused(|segs|)
      ensures Valid()
    {
      this.segs := segs;
      var s, e := BuildIndex(segs);
      used := Unused(|segs|);
      starts := s;
      ends := e;
    }

    /** `remove_idx`: drop segment `i` from both indices and mark it used. */
    method RemoveIdx(i: int)
      requires Valid() && 0 <= i < |segs|
      modifies this
      ensures used == old(used)[i := true]
      ensures starts == old(starts)[segs[i].start := Get(old(starts), segs[i].start) - {i}]
      ensures ends == old(ends)[segs[i].end := Get(old(ends), segs[i].end) - {i}]
      ensures Valid()
    {
      GetUpdate(starts, segs[i].start, Get(starts, segs[i].start) - {i});
      GetUpdate(ends, segs[i].end, Get(ends, segs[i].end) - {i});
      starts := starts[segs[i].start := Get(starts, segs[i].start) - {i}];
      ends := ends[segs[i].end := Get(ends, segs[i].end) - {i}];
      used := used[i := true];
    }

    /** `pick_next`: an unused segment touching cluster `c`, oriented away
        from it; one that starts at `c` is preferred. Which member of the set
        is returned is left open, as Python's set order is. */
    method PickNext(c: int) returns (r: Option<(int, bool)>)
      requires Valid()
      ensures r.Some? ==> 0 <= r.value.0 < |segs| && !used[r.value.0]
      ensures r.Some? && r.value.1 ==> r.value.0 in Get(starts, c) && segs[r.value.0].start == c
      ensures r.Some? && !r.value.1 ==>
                r.value.0 in Get(ends, c) && segs[r.value.0].end == c &&
                forall j :: 0 <= j < |segs| && !used[j] ==> segs[j].start != c
      ensures r.None? <==> Untouched(segs, used, c)
    {
      var ss := Get(starts, c);
      if j :| j in ss && 0 <= j < |used| && !used[j] {
        return Some((j, true));
      }
      var es := Get(ends, c);
      if j :| j in es && 0 <= j < |used| && !used[j] {
        return Some((j, false));
      }
      return None;
    }
    /** The forward extension loop: keep appending an unused segment that
        touches the chain's end cluster until `pick_next` finds none. (The
        source's `if j == i: break` never fires: the seed is already used,
        and `pick_next` only returns unused segments.) */
    method ExtendForward(chain0: Line, startC: int, endC0: int, ghost used0: seq<bool>, ghost ci0: ChainInfo)
      returns (chain: Line, endC: int, ghost ci: ChainInfo)
      requires Valid() && Building(segs, used0, used, ci0, chain0, startC, endC0) && ci0.left == []
      requires GreedyRight(segs, used0, ci0.seed, ci0.right)
      modifies this
      ensures Valid() && Building(segs, used0, used, ci, chain, startC, endC)
      ensures ci.left == [] && ci.seed == ci0.seed
      ensures GreedyRight(segs, used0, ci.seed, ci.right) && ForwardDone(segs, used0, ci.seed, ci.right)
      ensures Untouched(segs, used, endC)
    {
      chain, endC, ci := chain0, endC0, ci0;
      while true
        invariant Valid() && Building(segs, used0, used, ci, chain, startC, endC)
        invariant ci.left == [] && ci.seed == ci0.seed
        invariant GreedyRight(segs, used0, ci.seed, ci.right)
        decreases CountFalse(used)
      {
        var nxt := PickNext(endC);
        if nxt.None? {
          ForwardEnd(segs, used0, used, ci, chain, startC, endC);
          break;
        }
        var j := nxt.value.0;
        var forward := nxt.value.1;
        var jseg := segs[j];
        ghost var p := Piece(j, forward);
        ForwardStep(segs, used0, used, ci, chain, startC, endC, p);
        BuildingAppend(segs, used0, used, ci, chain, startC, endC, p);
        if forward {
          chain := chain + jseg.coords[1..];
          endC := jseg.end;
        } else {
          var rev := Reverse(jseg.coords);
          chain := chain + rev[1..];
          endC := jseg.start;
        }
        CountFalseSet(used, j);
        RemoveIdx(j);
        ci := ci.(right := ci.right + [p]);
      }
    }

    /** The backward extension loop: keep prepending an unused segment that
        touches the chain's start cluster, until `pick_next` finds none. */
    method ExtendBackward(chain0: Line, startC0: int, endC: int, ghost used0: seq<bool>, ghost ci0: ChainInfo)
      returns (chain: Line, startC: int, ghost ci: ChainInfo)
      requires Valid() && Building(segs, used0, used, ci0, chain0, startC0, endC)
      requires GreedyLeft(segs, used0, ci0)
      modifies this
      ensures Valid() && Building(segs, used0, used, ci, chain, startC, endC)
      ensures ci.right == ci0.right && ci.seed == ci0.seed && GreedyLeft(segs, used0, ci)
      ensures Grown(old(used), used) && Untouched(segs, used, startC)
    {
      chain, startC, ci := chain0, startC0, ci0;
      while true
        invariant Valid() && Building(segs, used0, used, ci, chain, startC, endC)
        invariant ci.right == ci0.right && ci.seed == ci0.seed && GreedyLeft(segs, used0, ci)
        invariant Grown(old(used), used)
        decreases CountFalse(used)
      {
        var nxt := PickNext(startC);
        if nxt.None? {
          break;
        }
        BackwardStep(segs, used0, used, ci, chain, startC, endC, Piece(nxt.value.0, !nxt.value.1));
        CountFalseSet(used, nxt.value.0);
        GrownSet(old(used), used, nxt.value.0);
        chain, startC, ci := Prepend(chain, startC, endC, used0, ci, nxt.value.0, nxt.value.1);
      }
    }

    /** One step of the backward extension: segment `j`, which ends at the
        chain's start cluster (or starts there when `forward`), is prepended
        without its duplicate endpoint, as stored (or reversed). */
    method Prepend(chain0: Line, startC0: int, endC: int, ghost used0: seq<bool>, ghost ci0: ChainInfo,
                   j: int, forward: bool)
      returns (chain: Line, startC: int, ghost ci: ChainInfo)
      requires Valid() && Building(segs, used0, used, ci0, chain0, startC0, endC)
      requires 0 <= j < |segs| && !used[j]
      requires if forward then segs[j].start == startC0 else segs[j].end == startC0
      modifies this
      ensures used == old(used)[j := true]
      ensures Valid() && Building(segs, used0, used, ci, chain, startC, endC)
      ensures ci == ci0.(left := [Piece(j, !forward)] + ci0.left)
    {
      var jseg := segs[j];
      ghost var p := Piece(j, !forward);
      if !forward {
        chain := jseg.coords[..|jseg.coords| - 1] + chain0;
        startC := jseg.start;
      } else {
        var rev := Reverse(jseg.coords);
        chain := rev[..|rev| - 1] + chain0;
        startC := jseg.end;
      }
      assert chain == DropLast(Oriented(segs, p)) + chain0 && startC == OStart(segs, p);
      BuildingPrepend(segs, used0, used, ci0, chain0, startC0, endC, p);
      ci := ci0.(left := [p] + ci0.left);
      RemoveIdx(j);
    }

    /** One iteration of the outer loop of `stitch_lines` for an unused
        seed `i`: take it, extend forward, then backward. */
    method ChainFrom(i: int) returns (chain: Line, ghost ci: ChainInfo)
      requires Valid() && 0 <= i < |segs| && !used[i]
      modifies this
      ensures Valid() && ci.seed == i && InfoIn(ci, |segs|)
      ensures Building(segs, old(used), used, ci, chain, StartC(segs, ci), EndC(segs, ci))
      ensures Untouched(segs, used, StartC(segs, ci)) && Untouched(segs, used, EndC(segs, ci))
      ensures Greedy(segs, old(used), ci)
    {
      ghost var used0 := used;
      chain := segs[i].coords;
      var startC := segs[i].start;
      var endC := segs[i].end;
      BuildingSeed(segs, used, i);
      ci := ChainInfo([], i, []);
      RemoveIdx(i);
      chain, endC, ci := ExtendForward(chain, startC, endC, used0, ci);
      ghost var used1 := used;
      chain, startC, ci := ExtendBackward(chain, startC, endC, used0, ci);
      UntouchedGrown(segs, used1, used, endC);
    }

    /** The outer loop of `stitch_lines`: every segment not yet taken seeds
        one chain, in index order. */
    method ChainAll() returns (stitched: seq<Line>, ghost infos: seq<ChainInfo>)
      requires Valid() && used == Unused(|segs|)
      modifies this
      ensures Stitched(segs, infos, stitched)
    {
      stitched, infos := [], [];
      DoneInit(segs);
      var i := 0;
      while i < |segs|
        invariant Valid() && Done(segs, used, infos, stitched, i)
      {
        if used[i] {
          DoneSkip(segs, used, infos, stitched, i);
          i := i + 1;
          continue;
        }
        ghost var usedB := used;
        var chain;
        ghost var ci;
        chain, ci := ChainFrom(i);
        DoneAdd(segs, usedB, used, infos, stitched, ci, chain, i);
        stitched := stitched + [chain];
        infos := infos + [ci];
        i := i + 1;
      }
      DoneFinal(segs, used, infos, stitched);
    }
  }
}
