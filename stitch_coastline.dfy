/** Endpoint snapping and chain stitching of shoreline segments
    (`stitch_coastline.py`). Endpoints are clustered in a metric plane with a
    spatial hash; segments whose endpoints share a cluster are then merged
    into chains. */
module StitchCoastline {
  import opened Wrappers
  import opened Numeric
  import opened Geometry
  import CoastlinePipeline

  // ---------------------------------------------------------------------
  // Endpoint clusterer
  // ---------------------------------------------------------------------

  /** Spatial-hash cell key. */
  type Cell = (int, int)

  /** A cluster's running centroid in the metric plane and the number of
      endpoints merged into it (kept as a float by the source). */
  datatype Centroid = Centroid(x: real, y: real, count: real)

  /** `_bucket_id`: the hash cell of a metric point, `round` being Python's
      half-to-even rounding. */
  function BucketOf(cell: real, x: real, y: real): Cell
    requires cell != 0.0
  {
    (RoundHalfEven(x / cell), RoundHalfEven(y / cell))
  }

  /** `buckets.get(key, [])`: a missing cell holds no cluster. */
  function GetBucket(buckets: map<Cell, seq<int>>, b: Cell): seq<int> {
    if b in buckets then buckets[b] else []
  }

  /** The `k`-th of the nine neighbour offsets in scan order: `ox` outer,
      `oy` inner, each running -1, 0, 1. */
  function Offset(k: nat): (o: Cell)
    requires k < 9
    ensures o == (k / 3 - 1, k % 3 - 1)
    ensures -1 <= o.0 <= 1 && -1 <= o.1 <= 1
  {
    var ox := if k < 3 then -1 else if k < 6 then 0 else 1;
    (ox, k - 3 * (ox + 1) - 1)
  }

  /** Cluster ids met in the first `k` neighbour cells of `b`, in scan order. */
  function ScanPrefix(buckets: map<Cell, seq<int>>, b: Cell, k: nat): seq<int>
    requires k <= 9
  {
    if k == 0 then []
    else ScanPrefix(buckets, b, k - 1) + GetBucket(buckets, (b.0 + Offset(k - 1).0, b.1 + Offset(k - 1).1))
  }

  lemma ScanPrefixStep(buckets: map<Cell, seq<int>>, b: Cell, k: nat)
    requires k < 9
    ensures ScanPrefix(buckets, b, k + 1) ==
            ScanPrefix(buckets, b, k) + GetBucket(buckets, (b.0 + Offset(k).0, b.1 + Offset(k).1))
  {
  }

  /** Every cluster id the 3x3 neighbourhood scan of `assign` visits. */
  function ScanList(buckets: map<Cell, seq<int>>, b: Cell): seq<int> {
    ScanPrefix(buckets, b, 9)
  }

  /** Squared metric distance from `p` to a centroid. */
  function D2(p: XY, c: Centroid): real {
    Dist2(p, XY(c.x, c.y))
  }

  predicate IdsBelow(cands: seq<int>, n: nat) {
    forall k :: 0 <= k < |cands| ==> 0 <= cands[k] < n
  }

  lemma IdsSnoc(s: seq<int>, x: int, n: nat)
    requires IdsBelow(s, n) && 0 <= x < n
    ensures IdsBelow(s + [x], n)
  {
  }

  /** The running `(best_id, best_d2)` pair after scanning `cands`: a candidate
      replaces the best one when it is within tolerance and strictly nearer.
      `best_id == -1` stands for "none yet", whose distance is infinite. */
  function BestFold(centers: seq<Centroid>, p: XY, tol2: real, cands: seq<int>): (r: (int, real))
    requires IdsBelow(cands, |centers|)
    ensures -1 <= r.0 < |centers|
  {
    if cands == [] then (-1, 0.0)
    else
      var n := |cands|;
      var prev := BestFold(centers, p, tol2, cands[..n - 1]);
      var cid := cands[n - 1];
      var d2 := D2(p, centers[cid]);
      if d2 <= tol2 && (prev.0 < 0 || d2 < prev.1) then (cid as int, d2) else prev
  }

  /** The scan finds no cluster exactly when no scanned cluster is within
      tolerance. */
  lemma {:induction false} BestFoldNone(centers: seq<Centroid>, p: XY, tol2: real, cands: seq<int>)
    requires IdsBelow(cands, |centers|)
    ensures BestFold(centers, p, tol2, cands).0 == -1 <==>
              forall k :: 0 <= k < |cands| ==> D2(p, centers[cands[k]]) > tol2
  {
    if cands != [] {
      var n := |cands|;
      BestFoldNone(centers, p, tol2, cands[..n - 1]);
      assert forall k :: 0 <= k < n - 1 ==> cands[..n - 1][k] == cands[k];
    }
  }

  /** When the scan finds a cluster, it sits at some position `pos` of the
      scan: within tolerance, nearest among the scanned clusters within
      tolerance, and strictly nearer than every earlier candidate within
      tolerance (ties go to the first one scanned). */
  lemma {:induction false} BestFoldFound(centers: seq<Centroid>, p: XY, tol2: real, cands: seq<int>)
    returns (pos: nat)
    requires IdsBelow(cands, |centers|)
    requires BestFold(centers, p, tol2, cands).0 >= 0
    ensures pos < |cands| && cands[pos] as int == BestFold(centers, p, tol2, cands).0
    ensures BestFold(centers, p, tol2, cands).1 == D2(p, centers[cands[pos]]) <= tol2
    ensures forall k :: 0 <= k < pos && D2(p, centers[cands[k]]) <= tol2 ==>
              D2(p, centers[cands[k]]) > D2(p, centers[cands[pos]])
    ensures forall k :: 0 <= k < |cands| && D2(p, centers[cands[k]]) <= tol2 ==>
              D2(p, centers[cands[pos]]) <= D2(p, centers[cands[k]])
  {
    var n := |cands|;
    var init := cands[..n - 1];
    assert forall k :: 0 <= k < n - 1 ==> init[k] == cands[k];
    var prev := BestFold(centers, p, tol2, init);
    var d2 := D2(p, centers[cands[n - 1]]);
    if d2 <= tol2 && (prev.0 < 0 || d2 < prev.1) {
      pos := n - 1;
      if prev.0 >= 0 {
        var q := BestFoldFound(centers, p, tol2, init);
      } else {
        BestFoldNone(centers, p, tol2, init);
      }
    } else {
      pos := BestFoldFound(centers, p, tol2, init);
    }
  }

  /** The online centroid update of a matched cluster. */
  function Merge(c: Centroid, p: XY): (m: Centroid)
    requires c.count >= 1.0
  {
    var ncnt := c.count + 1.0;
    Centroid((c.x * c.count + p.x) / ncnt, (c.y * c.count + p.y) / ncnt, ncnt)
  }

  /** Sum of the x (resp. y) coordinates of metric points. */
  function SumX(ps: seq<XY>): real {
    if ps == [] then 0.0 else SumX(ps[..|ps| - 1]) + ps[|ps| - 1].x
  }

  function SumY(ps: seq<XY>): real {
    if ps == [] then 0.0 else SumY(ps[..|ps| - 1]) + ps[|ps| - 1].y
  }

  /** `c` is the arithmetic mean of the points `ps`, with `count == |ps|`. */
  predicate IsMean(c: Centroid, ps: seq<XY>) {
    |ps| >= 1 && c.count == |ps| as real &&
    c.x == SumX(ps) / |ps| as real && c.y == SumY(ps) / |ps| as real
  }

  /** The online update keeps a cluster's centre the exact mean of all the
      endpoints merged into it. */
  lemma MergeMean(c: Centroid, ps: seq<XY>, p: XY)
    requires IsMean(c, ps)
    ensures IsMean(Merge(c, p), ps + [p])
  {
    var n := |ps| as real;
    var qs := ps + [p];
    assert qs[..|qs| - 1] == ps;
    assert SumX(qs) == SumX(ps) + p.x;
    assert SumY(qs) == SumY(ps) + p.y;
    assert c.x * n == SumX(ps);
    assert c.y * n == SumY(ps);
  }

  /** `list.remove(x)`: drop the first occurrence of `x`. */
  function RemoveFirst(s: seq<int>, x: int): (r: seq<int>)
    ensures x in s ==> multiset(r) == multiset(s) - multiset{x}
    ensures x !in s ==> r == s
  {
    if s == [] then []
    else
      assert s == [s[0]] + s[1..];
      if s[0] == x then s[1..] else [s[0]] + RemoveFirst(s[1..], x)
  }

  predicate BucketIdsBelow(buckets: map<Cell, seq<int>>, n: nat) {
    forall b :: b in buckets ==> IdsBelow(buckets[b], n)
  }

  /** The clusterer's state invariant: ids are dense, every centroid counts at
      least one endpoint, `center_bucket` records each centroid's current
      hash cell, and every id is listed exactly once, in exactly that cell. */
  ghost predicate ValidState(cell: real, centers: seq<Centroid>, buckets: map<Cell, seq<int>>,
                             centerBucket: map<int, Cell>)
  {
    (centers != [] ==> cell != 0.0) &&
    (forall id :: 0 <= id < |centers| ==> centers[id].count >= 1.0) &&
    (forall id :: id in centerBucket <==> 0 <= id < |centers|) &&
    (forall id {:trigger centerBucket[id]} :: 0 <= id < |centers| ==> centerBucket[id] == BucketOf(cell, centers[id].x, centers[id].y)) &&
    BucketIdsBelow(buckets, |centers|) &&
    (forall b, id {:trigger multiset(buckets[b])[id]} :: b in buckets && 0 <= id < |centers| ==>
       multiset(buckets[b])[id] == (if b == centerBucket[id] then 1 else 0)) &&
    (forall id :: 0 <= id < |centers| ==> centerBucket[id] in buckets)
  }

  lemma ScanPrefixIds(buckets: map<Cell, seq<int>>, n: nat, b: Cell, k: nat)
    requires BucketIdsBelow(buckets, n)
    requires k <= 9
    ensures IdsBelow(ScanPrefix(buckets, b, k), n)
  {
    if k > 0 {
      ScanPrefixIds(buckets, n, b, k - 1);
    }
  }

  /** Opening a new cluster keeps the invariant. */
  lemma ValidAfterNew(cell: real, centers: seq<Centroid>, buckets: map<Cell, seq<int>>,
                      centerBucket: map<int, Cell>, p: XY)
    requires ValidState(cell, centers, buckets, centerBucket)
    requires cell != 0.0
    ensures var b := BucketOf(cell, p.x, p.y);
            var cid := |centers|;
            ValidState(cell, centers + [Centroid(p.x, p.y, 1.0)],
                       buckets[b := GetBucket(buckets, b) + [cid]], centerBucket[cid := b])
  {
    var b := BucketOf(cell, p.x, p.y);
    var cid := |centers|;
    var centers' := centers + [Centroid(p.x, p.y, 1.0)];
    var buckets' := buckets[b := GetBucket(buckets, b) + [cid]];
    var centerBucket' := centerBucket[cid := b];
    forall id | 0 <= id < |centers'|
      ensures centerBucket'[id] == BucketOf(cell, centers'[id].x, centers'[id].y)
      ensures centerBucket'[id] in buckets'
    {
      if id < cid {
        assert centers'[id] == centers[id];
      }
    }
    NewIds(buckets, cid, b);
    NewCounts(buckets, centerBucket, cid, b);
  }

  /** Listing the new id `n` in cell `b` keeps every listed id below `n + 1`. */
  lemma NewIds(buckets: map<Cell, seq<int>>, n: nat, b: Cell)
    requires BucketIdsBelow(buckets, n)
    ensures BucketIdsBelow(buckets[b := GetBucket(buckets, b) + [n]], n + 1)
  {
    var buckets' := buckets[b := GetBucket(buckets, b) + [n]];
    forall c | c in buckets'
      ensures IdsBelow(buckets'[c], n + 1)
    {
      if c == b {
        IdsSnoc(GetBucket(buckets, b), n, n + 1);
      } else {
        assert IdsBelow(buckets[c], n);
      }
    }
  }

  /** Listing the new id `n` once, in cell `b` only, keeps every id listed
      exactly once, in its recorded cell. */
  lemma NewCounts(buckets: map<Cell, seq<int>>, centerBucket: map<int, Cell>, n: nat, b: Cell)
    requires BucketIdsBelow(buckets, n)
    requires forall id :: 0 <= id < n ==> id in centerBucket
    requires forall c, id {:trigger multiset(buckets[c])[id]} :: c in buckets && 0 <= id < n ==>
               multiset(buckets[c])[id] == (if c == centerBucket[id] then 1 else 0)
    requires forall id :: 0 <= id < n ==> centerBucket[id] in buckets
    ensures var buckets' := buckets[b := GetBucket(buckets, b) + [n]];
            var centerBucket' := centerBucket[n := b];
            forall c, id {:trigger multiset(buckets'[c])[id]} :: c in buckets' && 0 <= id < n + 1 ==>
              multiset(buckets'[c])[id] == (if c == centerBucket'[id] then 1 else 0)
  {
    var buckets' := buckets[b := GetBucket(buckets, b) + [n]];
    var centerBucket' := centerBucket[n := b];
    forall c, id | c in buckets' && 0 <= id < n + 1
      ensures multiset(buckets'[c])[id] == (if c == centerBucket'[id] then 1 else 0)
    {
      if c in buckets {
        assert IdsBelow(buckets[c], n);
        assert n !in buckets[c];
      }
    }
  }

  /** A merged centroid that stays in its hash cell keeps the invariant. */
  lemma ValidAfterStay(cell: real, centers: seq<Centroid>, buckets: map<Cell, seq<int>>,
                       centerBucket: map<int, Cell>, cid: nat, m: Centroid)
    requires ValidState(cell, centers, buckets, centerBucket)
    requires cid < |centers| && m.count >= 1.0
    requires BucketOf(cell, m.x, m.y) == centerBucket[cid]
    ensures ValidState(cell, centers[cid := m], buckets, centerBucket)
  {
  }

  /** The precondition shared by the lemmas about moving cluster `cid`,
      whose merged centroid `m` hashes to `nb`, out of its cell `ob`. */
  ghost predicate MoveCase(cell: real, centers: seq<Centroid>, buckets: map<Cell, seq<int>>,
                           centerBucket: map<int, Cell>, cid: nat, m: Centroid, ob: Cell, nb: Cell)
  {
    ValidState(cell, centers, buckets, centerBucket) &&
    cid < |centers| && m.count >= 1.0 &&
    ob == centerBucket[cid] && nb == BucketOf(cell, m.x, m.y) && nb != ob
  }

  /** The bucket map after the move. */
  function Moved(buckets: map<Cell, seq<int>>, cid: nat, ob: Cell, nb: Cell): map<Cell, seq<int>>
    requires ob in buckets
  {
    var b1 := buckets[ob := RemoveFirst(buckets[ob], cid)];
    b1[nb := GetBucket(b1, nb) + [cid]]
  }

  lemma MoveOldCell(cell: real, centers: seq<Centroid>, buckets: map<Cell, seq<int>>,
                    centerBucket: map<int, Cell>, cid: nat, m: Centroid, ob: Cell, nb: Cell)
    requires MoveCase(cell, centers, buckets, centerBucket, cid, m, ob, nb)
    ensures ob in buckets && cid in buckets[ob]
    ensures multiset(RemoveFirst(buckets[ob], cid)) == multiset(buckets[ob]) - multiset{cid}
  {
    assert multiset(buckets[ob])[cid] == 1;
  }

  lemma MoveIds(cell: real, centers: seq<Centroid>, buckets: map<Cell, seq<int>>,
                centerBucket: map<int, Cell>, cid: nat, m: Centroid, ob: Cell, nb: Cell)
    requires MoveCase(cell, centers, buckets, centerBucket, cid, m, ob, nb)
    requires ob in buckets && cid in buckets[ob]
    ensures BucketIdsBelow(Moved(buckets, cid, ob, nb), |centers|)
  {
    var buckets' := Moved(buckets, cid, ob, nb);
    var rem := RemoveFirst(buckets[ob], cid);
    forall c | c in buckets'
      ensures IdsBelow(buckets'[c], |centers|)
    {
      if c == nb {
        if nb in buckets {
          assert IdsBelow(buckets[nb], |centers|);
        }
        IdsSnoc(GetBucket(buckets[ob := rem], nb), cid, |centers|);
      } else if c == ob {
        assert IdsBelow(buckets[ob], |centers|);
        forall k | 0 <= k < |rem| ensures 0 <= rem[k] < |centers| {
          assert rem[k] in multiset(rem);
          assert rem[k] in multiset(buckets[ob]);
        }
      } else {
        assert IdsBelow(buckets[c], |centers|);
      }
    }
  }

  lemma MoveCounts(buckets: map<Cell, seq<int>>, centerBucket: map<int, Cell>, n: nat, cid: nat, ob: Cell, nb: Cell)
    requires forall id :: 0 <= id < n ==> id in centerBucket
    requires cid < n && ob == centerBucket[cid] && nb != ob && ob in buckets
    requires forall c, id {:trigger multiset(buckets[c])[id]} :: c in buckets && 0 <= id < n ==>
               multiset(buckets[c])[id] == (if c == centerBucket[id] then 1 else 0)
    requires forall id :: 0 <= id < n ==> centerBucket[id] in buckets
    requires multiset(RemoveFirst(buckets[ob], cid)) == multiset(buckets[ob]) - multiset{cid}
    ensures var buckets' := Moved(buckets, cid, ob, nb);
            forall c, id {:trigger multiset(buckets'[c])[id]} :: c in buckets' && 0 <= id < n ==>
              multiset(buckets'[c])[id] == (if c == centerBucket[cid := nb][id] then 1 else 0)
  {
    var buckets' := Moved(buckets, cid, ob, nb);
    forall c, id | c in buckets' && 0 <= id < n
      ensures multiset(buckets'[c])[id] == (if c == centerBucket[cid := nb][id] then 1 else 0)
    {
      var want := if c == centerBucket[id] then 1 else 0;
      if c in buckets {
        assert multiset(buckets[c])[id] == want;
      }
      MoveCountAt(buckets, centerBucket, cid, ob, nb, c, id, if c in buckets then multiset(buckets[c])[id] else 0);
    }
  }

  /** One entry of the count invariant after the move, given its count
      before. */
  lemma MoveCountAt(buckets: map<Cell, seq<int>>, centerBucket: map<int, Cell>, cid: nat, ob: Cell, nb: Cell,
                    c: Cell, id: int, before: int)
    requires cid in centerBucket && id in centerBucket && ob == centerBucket[cid] && nb != ob && ob in buckets
    requires multiset(RemoveFirst(buckets[ob], cid)) == multiset(buckets[ob]) - multiset{cid}
    requires c in Moved(buckets, cid, ob, nb)
    requires before == (if c in buckets then multiset(buckets[c])[id] else 0)
    requires before == (if c == centerBucket[id] then 1 else 0)
    ensures multiset(Moved(buckets, cid, ob, nb)[c])[id] == (if c == centerBucket[cid := nb][id] then 1 else 0)
  {
    var b1 := buckets[ob := RemoveFirst(buckets[ob], cid)];
    if c == nb {
      assert Moved(buckets, cid, ob, nb)[c] == GetBucket(b1, nb) + [cid];
      assert GetBucket(b1, nb) == GetBucket(buckets, nb);
      assert multiset(GetBucket(buckets, nb))[id] == before;
    } else if c == ob {
      assert Moved(buckets, cid, ob, nb)[c] == RemoveFirst(buckets[ob], cid);
    } else {
      assert Moved(buckets, cid, ob, nb)[c] == buckets[c];
    }
  }

  /** Moving a drifted centroid from cell `ob` to cell `nb` keeps the
      invariant; the id is always listed in `ob` beforehand. */
  lemma ValidAfterMove(cell: real, centers: seq<Centroid>, buckets: map<Cell, seq<int>>,
                       centerBucket: map<int, Cell>, cid: nat, m: Centroid, ob: Cell, nb: Cell)
    requires MoveCase(cell, centers, buckets, centerBucket, cid, m, ob, nb)
    ensures ob in buckets && cid in buckets[ob]
    ensures ValidState(cell, centers[cid := m], Moved(buckets, cid, ob, nb), centerBucket[cid := nb])
  {
    MoveOldCell(cell, centers, buckets, centerBucket, cid, m, ob, nb);
    MoveIds(cell, centers, buckets, centerBucket, cid, m, ob, nb);
    MoveCounts(buckets, centerBucket, |centers|, cid, ob, nb);
    var centerBucket' := centerBucket[cid := nb];
    var centers' := centers[cid := m];
    forall id | 0 <= id < |centers'|
      ensures centerBucket'[id] == BucketOf(cell, centers'[id].x, centers'[id].y)
      ensures centerBucket'[id] in Moved(buckets, cid, ob, nb)
    {
      if id != cid {
        assert centerBucket'[id] == centerBucket[id];
      }
    }
  }

  /** The three mutable parts of a clusterer. */
  datatype ClusterState = ClusterState(centers: seq<Centroid>, buckets: map<Cell, seq<int>>,
                                       centerBucket: map<int, Cell>)

  ghost predicate ClusterOk(cell: real, st: ClusterState) {
    match st
    case ClusterState(centers, buckets, centerBucket) => ValidState(cell, centers, buckets, centerBucket)
  }

  /** What a state needs for `assign` to be defined on it: listed ids are
      below the cluster count, and every cluster has a recorded cell and
      counts at least one endpoint. */
  predicate Scannable(st: ClusterState) {
    BucketIdsBelow(st.buckets, |st.centers|) &&
    forall id :: 0 <= id < |st.centers| ==> id in st.centerBucket && st.centers[id].count >= 1.0
  }

  /** A new cluster for `p` hashed in cell `b`, with the next free id. */
  function OpenStep(st: ClusterState, p: XY, b: Cell): ClusterState {
    var cid := |st.centers|;
    ClusterState(st.centers + [Centroid(p.x, p.y, 1.0)],
                 st.buckets[b := GetBucket(st.buckets, b) + [cid]],
                 st.centerBucket[cid := b])
  }

  /** Cluster `best` absorbs `p`: its centroid moves to the new mean and, if
      that leaves its hash cell, the id moves from the old cell's list to the
      end of the new cell's list. */
  function MergeStep(cell: real, st: ClusterState, best: nat, p: XY): ClusterState
    requires cell != 0.0 && Scannable(st) && best < |st.centers|
  {
    var m := Merge(st.centers[best], p);
    var nb := BucketOf(cell, m.x, m.y);
    var ob := st.centerBucket[best];
    if nb == ob then
      ClusterState(st.centers[best := m], st.buckets, st.centerBucket)
    else
      var b1 := if best in GetBucket(st.buckets, ob) then st.buckets[ob := RemoveFirst(st.buckets[ob], best)]
                else st.buckets;
      ClusterState(st.centers[best := m], b1[nb := GetBucket(b1, nb) + [best]], st.centerBucket[best := nb])
  }

  /** What `assign` does to the clusterer for the metric point `p`, with the
      chosen cluster id. */
  function AssignStep(cell: real, tol2: real, st: ClusterState, p: XY): (ClusterState, int)
    requires cell != 0.0 && Scannable(st)
  {
    var b := BucketOf(cell, p.x, p.y);
    ScanIds(st, b);
    var best := BestFold(st.centers, p, tol2, ScanList(st.buckets, b)).0;
    if best < 0 then (OpenStep(st, p, b), |st.centers|)
    else (MergeStep(cell, st, best, p), best)
  }

  /** `AssignStep` by cases on the scan's result. */
  lemma AssignStepCases(cell: real, tol2: real, st: ClusterState, p: XY, b: Cell) returns (best: int)
    requires cell != 0.0 && ClusterOk(cell, st)
    requires b == BucketOf(cell, p.x, p.y)
    requires IdsBelow(ScanList(st.buckets, b), |st.centers|)
    ensures best == BestFold(st.centers, p, tol2, ScanList(st.buckets, b)).0
    ensures best < 0 ==> AssignStep(cell, tol2, st, p) == (OpenStep(st, p, b), |st.centers|)
    ensures best >= 0 ==> AssignStep(cell, tol2, st, p) == (MergeStep(cell, st, best, p), best)
  {
    best := BestFold(st.centers, p, tol2, ScanList(st.buckets, b)).0;
  }

  lemma ScanIds(st: ClusterState, b: Cell)
    requires Scannable(st)
    ensures IdsBelow(ScanList(st.buckets, b), |st.centers|)
  {
    ScanPrefixIds(st.buckets, |st.centers|, b, 9);
  }

  /** `assign` keeps the invariant, returns a valid id, and either keeps the
      number of clusters or opens exactly one new one. */
  lemma AssignStepValid(cell: real, tol2: real, st: ClusterState, p: XY)
    requires cell != 0.0 && ClusterOk(cell, st)
    ensures var (st', cid) := AssignStep(cell, tol2, st, p);
            ClusterOk(cell, st') && cid < |st'.centers| &&
            (|st'.centers| == |st.centers| || |st'.centers| == |st.centers| + 1)
  {
    var b := BucketOf(cell, p.x, p.y);
    ScanIds(st, b);
    var best := BestFold(st.centers, p, tol2, ScanList(st.buckets, b)).0;
    if best < 0 {
      ValidAfterNew(cell, st.centers, st.buckets, st.centerBucket, p);
    } else {
      var m := Merge(st.centers[best], p);
      var nb := BucketOf(cell, m.x, m.y);
      var ob := st.centerBucket[best];
      if nb == ob {
        ValidAfterStay(cell, st.centers, st.buckets, st.centerBucket, best, m);
      } else {
        ValidAfterMove(cell, st.centers, st.buckets, st.centerBucket, best, m, ob, nb);
      }
    }
  }

  /** Every valid state is one `assign` is defined on. */
  lemma OkScannable(cell: real, st: ClusterState)
    requires ClusterOk(cell, st)
    ensures Scannable(st)
  {
  }

  /** `list.remove` keeps every listed id below the bound. */
  lemma {:induction false} RemoveFirstIds(s: seq<int>, x: int, n: nat)
    requires IdsBelow(s, n)
    ensures IdsBelow(RemoveFirst(s, x), n)
  {
    if s != [] {
      RemoveFirstIds(s[1..], x, n);
    }
  }

  /** `assign` on a state it is defined on leaves one it is defined on,
      returns an id below the new cluster count, and never drops a
      cluster. */
  lemma AssignStepScannable(cell: real, tol2: real, st: ClusterState, p: XY)
    requires cell != 0.0 && Scannable(st)
    ensures var (st', cid) := AssignStep(cell, tol2, st, p);
            Scannable(st') && 0 <= cid < |st'.centers| && |st.centers| <= |st'.centers|
  {
    var b := BucketOf(cell, p.x, p.y);
    ScanIds(st, b);
    var best := BestFold(st.centers, p, tol2, ScanList(st.buckets, b)).0;
    var n := |st.centers|;
    if best < 0 {
      NewIds(st.buckets, n, b);
    } else {
      var m := Merge(st.centers[best], p);
      var nb := BucketOf(cell, m.x, m.y);
      var ob := st.centerBucket[best];
      if nb != ob {
        var b1 := if best in GetBucket(st.buckets, ob) then st.buckets[ob := RemoveFirst(st.buckets[ob], best)]
                  else st.buckets;
        if best in GetBucket(st.buckets, ob) {
          RemoveFirstIds(st.buckets[ob], best, n);
        }
        assert BucketIdsBelow(b1, n);
        IdsSnoc(GetBucket(b1, nb), best, n);
        var b2 := b1[nb := GetBucket(b1, nb) + [best]];
        assert BucketIdsBelow(b2, n);
      }
    }
  }

  /** `assign` opens a new cluster, with the next free id, exactly when none
      of the clusters hashed around the endpoint lies within tolerance. */
  lemma AssignStepNew(cell: real, tol2: real, st: ClusterState, p: XY)
    requires cell != 0.0 && ClusterOk(cell, st)
    ensures IdsBelow(ScanList(st.buckets, BucketOf(cell, p.x, p.y)), |st.centers|)
    ensures var cands := ScanList(st.buckets, BucketOf(cell, p.x, p.y));
            AssignStep(cell, tol2, st, p).1 == |st.centers| <==>
              forall k :: 0 <= k < |cands| ==> D2(p, st.centers[cands[k]]) > tol2
  {
    var b := BucketOf(cell, p.x, p.y);
    ScanIds(st, b);
    BestFoldNone(st.centers, p, tol2, ScanList(st.buckets, b));
  }

  /** When `assign` snaps to an existing cluster, that cluster was scanned,
      lies within tolerance, and no scanned cluster within tolerance is
      nearer. */
  lemma AssignStepNearest(cell: real, tol2: real, st: ClusterState, p: XY)
    requires cell != 0.0 && ClusterOk(cell, st)
    requires AssignStep(cell, tol2, st, p).1 < |st.centers|
    ensures IdsBelow(ScanList(st.buckets, BucketOf(cell, p.x, p.y)), |st.centers|)
    ensures var cands := ScanList(st.buckets, BucketOf(cell, p.x, p.y));
            var cid := AssignStep(cell, tol2, st, p).1;
            cid in cands && D2(p, st.centers[cid]) <= tol2 &&
            forall k :: 0 <= k < |cands| && D2(p, st.centers[cands[k]]) <= tol2 ==>
              D2(p, st.centers[cid]) <= D2(p, st.centers[cands[k]])
  {
    var b := BucketOf(cell, p.x, p.y);
    ScanIds(st, b);
    var cands := ScanList(st.buckets, b);
    var pos := BestFoldFound(st.centers, p, tol2, cands);
  }

  /** The endpoint groups after `p` joins cluster `cid` (a new singleton
      group when `cid` is the next free id). */
  function Regroup(groups: seq<seq<XY>>, cid: int, p: XY): seq<seq<XY>>
    requires 0 <= cid <= |groups|
  {
    if cid == |groups| then groups + [[p]] else groups[cid := groups[cid] + [p]]
  }

  /** The centroids `assign` leaves behind. */
  lemma AssignStepCenters(cell: real, tol2: real, st: ClusterState, p: XY)
    requires cell != 0.0 && ClusterOk(cell, st)
    ensures 0 <= AssignStep(cell, tol2, st, p).1 <= |st.centers|
    ensures AssignStep(cell, tol2, st, p).1 == |st.centers| ==>
              AssignStep(cell, tol2, st, p).0.centers == st.centers + [Centroid(p.x, p.y, 1.0)]
    ensures AssignStep(cell, tol2, st, p).1 < |st.centers| ==>
              var cid := AssignStep(cell, tol2, st, p).1;
              st.centers[cid].count >= 1.0 &&
              AssignStep(cell, tol2, st, p).0.centers == st.centers[cid := Merge(st.centers[cid], p)]
  {
    var b := BucketOf(cell, p.x, p.y);
    ScanIds(st, b);
    var _ := AssignStepCases(cell, tol2, st, p, b);
  }

  /** Reading every centroid as the mean of the endpoints snapped to it,
      `assign` appends the new endpoint to the group of the chosen cluster
      (a new singleton group for a new cluster) and every centroid is still
      the exact mean of its group. */
  lemma AssignStepMean(cell: real, tol2: real, st: ClusterState, p: XY, groups: seq<seq<XY>>)
    requires cell != 0.0 && ClusterOk(cell, st)
    requires |groups| == |st.centers|
    requires forall k :: 0 <= k < |groups| ==> IsMean(st.centers[k], groups[k])
    ensures 0 <= AssignStep(cell, tol2, st, p).1 <= |groups|
    ensures var groups' := Regroup(groups, AssignStep(cell, tol2, st, p).1, p);
            |groups'| == |AssignStep(cell, tol2, st, p).0.centers| &&
            forall k :: 0 <= k < |groups'| ==> IsMean(AssignStep(cell, tol2, st, p).0.centers[k], groups'[k])
  {
    AssignStepCenters(cell, tol2, st, p);
    var r := AssignStep(cell, tol2, st, p);
    RegroupMean(st.centers, groups, r.1, p, r.0.centers);
  }

  /** Adding `p` to group `cid` (a new group when `cid` is past the end)
      while updating centroid `cid` the way `assign` does keeps every
      centroid the mean of its group. */
  lemma RegroupMean(centers: seq<Centroid>, groups: seq<seq<XY>>, cid: int, p: XY, cs: seq<Centroid>)
    requires |groups| == |centers| && forall k :: 0 <= k < |groups| ==> IsMean(centers[k], groups[k])
    requires 0 <= cid <= |groups|
    requires cid == |groups| ==> cs == centers + [Centroid(p.x, p.y, 1.0)]
    requires cid < |groups| ==> centers[cid].count >= 1.0 && cs == centers[cid := Merge(centers[cid], p)]
    ensures |Regroup(groups, cid, p)| == |cs|
    ensures forall k :: 0 <= k < |cs| ==> IsMean(cs[k], Regroup(groups, cid, p)[k])
  {
    var groups' := Regroup(groups, cid, p);
    if cid == |groups| {
      assert [p][..0] == [];
      assert IsMean(cs[cid], groups'[cid]);
    } else {
      MergeMean(centers[cid], groups[cid], p);
    }
    forall k | 0 <= k < |groups'| ensures IsMean(cs[k], groups'[k]) {
      if k != cid {
        assert cs[k] == centers[k] && groups'[k] == groups[k];
      }
    }
  }

  /** `EndpointClusterer`: endpoints snapped in the metric plane of `proj`. */
  class EndpointClusterer {
    const tol: real
    const cell: real
    var centers: seq<Centroid>
    var buckets: map<Cell, seq<int>>
    var centerBucket: map<int, Cell>
    const proj: Projection

    function State(): ClusterState
      reads this
    {
      ClusterState(centers, buckets, centerBucket)
    }

    ghost predicate Valid()
      reads this
    {
      cell == tol && ClusterOk(cell, State())
    }

    /** `__init__`: the cell size is the tolerance; nothing is clustered yet. */
    constructor(tolerance: real, proj: Projection)
      ensures tol == tolerance && cell == tolerance && this.proj == proj
      ensures centers == [] && buckets == map[] && centerBucket == map[]
      ensures Valid()
    {
      tol := tolerance;
      cell := tolerance;
      centers := [];
      buckets := map[];
      centerBucket := map[];
      this.proj := proj;
    }

    /** `_bucket_id`. */
    function BucketId(x: real, y: real): (b: Cell)
      reads this
      requires cell != 0.0
      ensures b == BucketOf(cell, x, y)
    {
      BucketOf(cell, x, y)
    }

    /** `center`: a cluster's centroid back in longitude/latitude. */
    function Center(cid: nat): Point
      reads this
      requires cid < |centers|
    {
      proj.inv(XY(centers[cid].x, centers[cid].y))
    }

    /** The innermost loop of the scan: fold the ids listed in one cell into
        the running best pair. */
    method ScanCell(p: XY, tol2: real, lst: seq<int>, bestId0: int, bestD20: real, ghost seen0: seq<int>)
      returns (bestId: int, bestD2: real)
      requires IdsBelow(lst, |centers|) && IdsBelow(seen0, |centers|)
      requires (bestId0, bestD20) == BestFold(centers, p, tol2, seen0)
      ensures IdsBelow(seen0 + lst, |centers|)
      ensures (bestId, bestD2) == BestFold(centers, p, tol2, seen0 + lst)
    {
      bestId, bestD2 := bestId0, bestD20;
      var j := 0;
      ghost var seen := seen0;
      assert seen0 + lst[..0] == seen0;
      while j < |lst|
        invariant 0 <= j <= |lst|
        invariant seen == seen0 + lst[..j]
        invariant IdsBelow(seen, |centers|)
        invariant (bestId, bestD2) == BestFold(centers, p, tol2, seen)
      {
        var id := lst[j];
        var c := centers[id];
        var d2 := D2(p, c);
        IdsSnoc(seen, id, |centers|);
        assert (seen + [id])[..|seen|] == seen;
        if d2 <= tol2 && (bestId < 0 || d2 < bestD2) {
          bestId := id;
          bestD2 := d2;
        }
        assert lst[..j + 1] == lst[..j] + [id];
        seen := seen + [id];
        j := j + 1;
      }
      assert lst[..|lst|] == lst;
    }

    /** The neighbourhood scan of `assign`: the best cluster for the metric
        point `p` among those hashed in the nine cells around `b`, or -1. */
    method Nearest(p: XY, b: Cell, tol2: real) returns (bestId: int)
      requires BucketIdsBelow(buckets, |centers|)
      ensures IdsBelow(ScanList(buckets, b), |centers|)
      ensures bestId == BestFold(centers, p, tol2, ScanList(buckets, b)).0
    {
      bestId := -1;
      var bestD2: real := 0.0;
      ghost var scanned: seq<int> := [];
      var k := 0;
      while k < 9
        invariant 0 <= k <= 9
        invariant scanned == ScanPrefix(buckets, b, k)
        invariant IdsBelow(scanned, |centers|)
        invariant (bestId, bestD2) == BestFold(centers, p, tol2, scanned)
      {
        var o := Offset(k);
        var lst := GetBucket(buckets, (b.0 + o.0, b.1 + o.1));
        assert IdsBelow(lst, |centers|);
        bestId, bestD2 := ScanCell(p, tol2, lst, bestId, bestD2, scanned);
        ScanPrefixStep(buckets, b, k);
        scanned := scanned + lst;
        k := k + 1;
      }
    }

    /** `assign`: snap one endpoint and return its cluster id (see
        `AssignStep` and the lemmas about it). */
    method Assign(lon: real, lat: real) returns (cid: nat)
      requires Valid() && cell != 0.0
      modifies this
      ensures (State(), cid as int) == AssignStep(cell, tol * tol, old(State()), proj.fwd(Point(lon, lat)))
      ensures Valid() && cid < |centers| && old(|centers|) <= |centers|
    {
      var p := proj.fwd(Point(lon, lat));
      var tol2 := tol * tol;
      ghost var st0 := State();
      AssignStepValid(cell, tol2, st0, p);
      ghost var step := AssignStep(cell, tol2, st0, p);
      assert ClusterOk(cell, step.0) && step.1 < |step.0.centers| && |st0.centers| <= |step.0.centers|;
      cid := AssignPoint(p, tol2);
      assert State() == step.0;
    }

    /** The body of `assign` once the endpoint is projected to `p`. */
    method AssignPoint(p: XY, tol2: real) returns (cid: nat)
      requires Valid() && cell != 0.0
      modifies this
      ensures (State(), cid as int) == AssignStep(cell, tol2, old(State()), p)
    {
      ghost var st0 := State();
      var b := BucketId(p.x, p.y);
      var bestId := Nearest(p, b, tol2);
      ghost var best := AssignStepCases(cell, tol2, st0, p, b);
      ghost var step := AssignStep(cell, tol2, st0, p);
      assert best == bestId;
      if bestId < 0 {
        assert step == (OpenStep(st0, p, b), |st0.centers|);
        cid := OpenCluster(p, b);
        assert State() == step.0;
      } else {
        assert step == (MergeStep(cell, st0, bestId, p), bestId);
        cid := bestId;
        MergeInto(cid, p);
        assert State() == step.0;
      }
    }

    /** The new-cluster branch of `assign`. */
    method OpenCluster(p: XY, b: Cell) returns (cid: nat)
      modifies this
      ensures cid == |old(centers)|
      ensures State() == OpenStep(old(State()), p, b)
    {
      cid := |centers|;
      centers := centers + [Centroid(p.x, p.y, 1.0)];
      buckets := buckets[b := GetBucket(buckets, b) + [cid]];
      centerBucket := centerBucket[cid := b];
    }

    /** The update branch of `assign`: cluster `cid` absorbs `p` and is
        rebucketed when its centroid leaves its cell. */
    method MergeInto(cid: nat, p: XY)
      requires cell != 0.0 && ClusterOk(cell, State()) && cid < |centers|
      modifies this
      ensures State() == MergeStep(cell, old(State()), cid, p)
    {
      var m := Merge(centers[cid], p);
      centers := centers[cid := m];
      var nb := BucketId(m.x, m.y);
      var ob := centerBucket[cid];
      if nb != ob {
        if cid in GetBucket(buckets, ob) {
          buckets := buckets[ob := RemoveFirst(buckets[ob], cid)];
        }
        buckets := buckets[nb := GetBucket(buckets, nb) + [cid]];
        centerBucket := centerBucket[cid := nb];
      }
    }
  }
}
