/** `coastline_tools/fetch_wa_ecology_coastline.py`: the ObjectID query and
    sort, the chunked feature fetch with its retry counter, and the
    de-duplication by OBJECTID. The HTTP requests are an oracle, the waits
    are returned rather than slept, and the printouts and the file write are
    not part of this model. */
module FetchWaEcology {
  import opened Wrappers
  import opened Sorting
  import opened CoastlinePipeline

  /** One GeoJSON feature as the service returns it: `OBJECTID` from its
      properties (`None` when the properties or the key are missing or
      null) and the rest of the feature, carried along untouched. */
  datatype EcoFeature = EcoFeature(objectId: Option<int>, geom: Geom)

  datatype EcoCollection = EcoCollection(name: string, features: seq<EcoFeature>)

  const RawName: string := "shoreline_wa_ecology_raw"

  /** `fetch_features_chunk(chunk)` on the attempt numbered `a` (0 for the
      first): the features, or `None` where the request raises. */
  type Fetcher = (seq<int>, nat) -> Option<seq<EcoFeature>>

  /** The `objectIds` entry of the query reply: missing, JSON `null`, or a
      list of ids. */
  datatype IdsReply = Missing | Null | Ids(ids: seq<int>)

  /** `get_object_ids` after the query, `sorted(payload.get("objectIds", []))`:
      a missing key sorts the empty default, `null` makes `sorted` raise
      TypeError, and a list comes back ascending. */
  function GetObjectIds(reply: IdsReply): (r: Result<seq<int>>)
    ensures r.Err? <==> reply.Null?
    ensures r.Err? ==> r.error == "TypeError"
    ensures r.Ok? ==> IsSorted(r.value) && multiset(r.value) == multiset(if reply.Ids? then reply.ids else [])
  {
    match reply
      case Missing => Ok([])
      case Null => Err("TypeError")
      case Ids(ids) => Ok(Sort(ids))
  }

  // --------------------------------------------------------------- chunks

  /** Python's `s[i:j]` for `0 <= i`: the end is clipped to the length. */
  function Slice(s: seq<int>, i: nat, j: nat): seq<int>
    requires i <= |s| && i <= j
  {
    if j <= |s| then s[i..j] else s[i..]
  }

  /** `[ids[s:s + size] for s in range(start, len(ids), size)]`. */
  function ChunksFrom(ids: seq<int>, size: nat, start: nat): seq<seq<int>>
    requires size > 0
    decreases |ids| - start
  {
    if start >= |ids| then [] else [Slice(ids, start, start + size)] + ChunksFrom(ids, size, start + size)
  }

  function Concat(chunks: seq<seq<int>>): seq<int> {
    if chunks == [] then [] else chunks[0] + Concat(chunks[1..])
  }

  /** The chunks are consecutive pieces of the ID list: written one after
      the other they give back the list from `start`. */
  lemma {:induction false} ChunksConcat(ids: seq<int>, size: nat, start: nat)
    requires size > 0 && start <= |ids|
    ensures Concat(ChunksFrom(ids, size, start)) == ids[start..]
    decreases |ids| - start
  {
    if start < |ids| {
      var c := ChunksFrom(ids, size, start);
      assert c[1..] == ChunksFrom(ids, size, start + size);
      if start + size <= |ids| {
        ChunksConcat(ids, size, start + size);
        assert ids[start..] == ids[start..start + size] + ids[start + size..];
      } else {
        assert ChunksFrom(ids, size, start + size) == [];
      }
    }
  }

  /** Every chunk holds `size` IDs except the last, which holds between one
      and `size`. */
  lemma {:induction false} ChunksSizes(ids: seq<int>, size: nat, start: nat)
    requires size > 0
    ensures var c := ChunksFrom(ids, size, start);
      (forall k :: 0 <= k < |c| - 1 ==> |c[k]| == size) &&
      (c != [] ==> 0 < |c[|c| - 1]| <= size)
    decreases |ids| - start
  {
    if start < |ids| {
      ChunksSizes(ids, size, start + size);
      var c := ChunksFrom(ids, size, start);
      var rest := ChunksFrom(ids, size, start + size);
      assert c == [Slice(ids, start, start + size)] + rest;
      if rest != [] {
        assert start + size < |ids|;
        assert |c[0]| == size;
        assert forall k :: 1 <= k < |c| ==> c[k] == rest[k - 1];
      }
    }
  }

  /** `total_chunks = (len(object_ids) + chunk_size - 1) // chunk_size` is
      the number of chunks the loop visits. */
  lemma {:induction false} ChunksCount(ids: seq<int>, size: nat, start: nat)
    requires size > 0 && start <= |ids|
    ensures |ChunksFrom(ids, size, start)| == (|ids| - start + size - 1) / size
    decreases |ids| - start
  {
    var m := |ids| - start;
    if m == 0 {
      DivSmall(size - 1, size);
    } else {
      assert |ChunksFrom(ids, size, start)| == 1 + |ChunksFrom(ids, size, start + size)|;
      if m <= size {
        assert ChunksFrom(ids, size, start + size) == [];
        DivSmall(m - 1, size);
        DivStep(m - 1, size);
      } else {
        ChunksCount(ids, size, start + size);
        assert |ids| - (start + size) + size - 1 == m - 1;
        DivStep(m - 1, size);
      }
    }
  }

  lemma DivSmall(x: int, d: int)
    requires 0 <= x < d
    ensures x / d == 0
  {
  }

  lemma DivStep(x: int, d: int)
    requires 0 < d && 0 <= x
    ensures (x + d) / d == x / d + 1
  {
    var q, r := x / d, x % d;
    var q2, r2 := (x + d) / d, (x + d) % d;
    assert (q2 - q - 1) * d == r - r2;
    MultipleBelow(q2 - q - 1, d);
  }

  lemma MultipleBelow(k: int, d: int)
    requires 0 < d
    ensures k >= 1 ==> k * d >= d
    ensures k <= -1 ==> k * d <= -d
  {
    if k >= 1 {
      assert k * d == (k - 1) * d + d;
      assert (k - 1) * d >= 0;
    } else if k <= -1 {
      assert k * d == (k + 1) * d - d;
      assert (k + 1) * d <= 0;
    }
  }

  // ---------------------------------------------------------------- retry

  /** The retry loop from attempt `a` on: the first attempt below 4 that
      returns, or RuntimeError once the fourth has failed. */
  function TryFrom(fetch: Fetcher, chunk: seq<int>, a: nat): (r: Result<seq<EcoFeature>>)
    requires a <= 4
    ensures r.Err? <==> forall b :: a <= b < 4 ==> fetch(chunk, b).None?
    ensures r.Err? ==> r.error == "RuntimeError"
    ensures r.Ok? ==> exists b :: a <= b < 4 && fetch(chunk, b) == Some(r.value) &&
                                  forall c :: a <= c < b ==> fetch(chunk, c).None?
    decreases 4 - a
  {
    if a == 4 then Err("RuntimeError")
    else match fetch(chunk, a)
      case Some(fs) => Ok(fs)
      case None => TryFrom(fetch, chunk, a + 1)
  }

  /** The `while True` loop for one chunk: at most four attempts, one plus
      three retries, with a wait of 1.5 times the retry count before each
      retry. `waits` lists the seconds slept, in order. */
  method FetchChunk(chunk: seq<int>, fetch: Fetcher)
    returns (r: Result<seq<EcoFeature>>, attempts: nat, waits: seq<real>)
    ensures r == TryFrom(fetch, chunk, 0)
    ensures 1 <= attempts <= 4 && |waits| == attempts - 1
    ensures forall k :: 0 <= k < |waits| ==> waits[k] == 1.5 * (k + 1) as real
    ensures r.Ok? ==> fetch(chunk, attempts - 1) == Some(r.value)
    ensures forall b :: 0 <= b < attempts - 1 ==> fetch(chunk, b).None?
    ensures r.Err? ==> attempts == 4
  {
    var retries := 0;
    waits := [];
    while true
      invariant 0 <= retries <= 3 && |waits| == retries
      invariant forall k :: 0 <= k < |waits| ==> waits[k] == 1.5 * (k + 1) as real
      invariant forall b :: 0 <= b < retries ==> fetch(chunk, b).None?
      invariant TryFrom(fetch, chunk, 0) == TryFrom(fetch, chunk, retries)
      decreases 3 - retries
    {
      var feats := fetch(chunk, retries);
      if feats.Some? {
        assert TryFrom(fetch, chunk, retries) == Ok(feats.value);
        return Ok(feats.value), retries + 1, waits;
      }
      assert TryFrom(fetch, chunk, retries) == TryFrom(fetch, chunk, retries + 1);
      retries := retries + 1;
      if retries > 3 {
        return Err("RuntimeError"), 4, waits;
      }
      var waitS := 1.5 * retries as real;
      waits := waits + [waitS];
    }
  }

  /** `all_features` after the chunk loop: each chunk's reply, in chunk
      order, or the first chunk's RuntimeError. */
  function Gathered(fetch: Fetcher, chunks: seq<seq<int>>): (r: Result<seq<EcoFeature>>)
    ensures r.Err? <==> exists k :: 0 <= k < |chunks| && TryFrom(fetch, chunks[k], 0).Err?
  {
    if chunks == [] then Ok([])
    else
      var rest := Gathered(fetch, chunks[1..]);
      assert forall k :: 1 <= k < |chunks| ==> chunks[k] == chunks[1..][k - 1];
      match TryFrom(fetch, chunks[0], 0)
      case Err(e) => Err(e)
      case Ok(v) => if rest.Err? then rest else Ok(v + rest.value)
  }

  /** A failed run fails with RuntimeError. */
  lemma {:induction false} GatheredError(fetch: Fetcher, chunks: seq<seq<int>>)
    requires Gathered(fetch, chunks).Err?
    ensures Gathered(fetch, chunks).error == "RuntimeError"
  {
    if chunks != [] && TryFrom(fetch, chunks[0], 0).Ok? {
      GatheredError(fetch, chunks[1..]);
    }
  }

  /** `acc.extend(...)` applied in front of what the remaining chunks give. */
  function Prefixed(acc: seq<EcoFeature>, r: Result<seq<EcoFeature>>): Result<seq<EcoFeature>> {
    if r.Err? then r else Ok(acc + r.value)
  }

  lemma PrefixedStep(acc: seq<EcoFeature>, v: seq<EcoFeature>, g: Result<seq<EcoFeature>>)
    ensures Prefixed(acc, if g.Err? then g else Ok(v + g.value)) == Prefixed(acc + v, g)
  {
    if g.Ok? {
      assert acc + (v + g.value) == acc + v + g.value;
    }
  }

  // ---------------------------------------------------------------- dedup

  /** The OBJECTIDs present, in feature order. */
  function Ids(fs: seq<EcoFeature>): seq<int> {
    if fs == [] then []
    else Ids(fs[..|fs| - 1]) + (if fs[|fs| - 1].objectId.Some? then [fs[|fs| - 1].objectId.value] else [])
  }

  /** Each value once, at its first appearance. */
  function Distinct(s: seq<int>): (d: seq<int>)
    ensures forall x :: x in d <==> x in s
  {
    if s == [] then []
    else
      var init := Distinct(s[..|s| - 1]);
      assert s == s[..|s| - 1] + [s[|s| - 1]];
      if s[|s| - 1] in init then init else init + [s[|s| - 1]]
  }

  /** The last feature carrying `id`. */
  function LastWith(fs: seq<EcoFeature>, id: int): Option<EcoFeature> {
    if fs == [] then None
    else if fs[|fs| - 1].objectId == Some(id) then Some(fs[|fs| - 1])
    else LastWith(fs[..|fs| - 1], id)
  }

  /** `list(dedup.values())` once every feature has been stored under its
      OBJECTID: one feature per ID, in order of first appearance, each the
      last one fetched with that ID. */
  function Dedup(fs: seq<EcoFeature>): (r: seq<EcoFeature>)
    ensures |r| == |Distinct(Ids(fs))|
  {
    var keys := Distinct(Ids(fs));
    seq(|keys|, k requires 0 <= k < |keys| =>
      LastWithFound(fs, keys[k]); LastWith(fs, keys[k]).value)
  }

  lemma {:induction false} IdsMembers(fs: seq<EcoFeature>, id: int)
    ensures id in Ids(fs) <==> exists j :: 0 <= j < |fs| && fs[j].objectId == Some(id)
  {
    if fs != [] {
      var n := |fs|;
      var init := fs[..n - 1];
      IdsMembers(init, id);
      if exists j :: 0 <= j < n - 1 && init[j].objectId == Some(id) {
        var j :| 0 <= j < n - 1 && init[j].objectId == Some(id);
        assert fs[j] == init[j];
      }
      if exists j :: 0 <= j < n && fs[j].objectId == Some(id) {
        var j :| 0 <= j < n && fs[j].objectId == Some(id);
        if j < n - 1 {
          assert init[j] == fs[j];
        }
      }
    }
  }

  lemma {:induction false} LastWithFound(fs: seq<EcoFeature>, id: int)
    ensures LastWith(fs, id).Some? <==> id in Ids(fs)
    ensures LastWith(fs, id).Some? ==> LastWith(fs, id).value.objectId == Some(id)
  {
    if fs != [] {
      LastWithFound(fs[..|fs| - 1], id);
    }
  }

  /** The kept feature for an ID is one fetched with it, and no later
      feature carries it: the last one wins. */
  lemma {:induction false} LastWithMeaning(fs: seq<EcoFeature>, id: int)
    requires LastWith(fs, id).Some?
    ensures exists j :: 0 <= j < |fs| && fs[j] == LastWith(fs, id).value && fs[j].objectId == Some(id) &&
                        forall j' :: j < j' < |fs| ==> fs[j'].objectId != Some(id)
  {
    var n := |fs|;
    if fs[n - 1].objectId == Some(id) {
      assert LastAt(fs, id, n - 1);
    } else {
      var init := fs[..n - 1];
      LastWithMeaning(init, id);
      var j :| 0 <= j < n - 1 && init[j] == LastWith(init, id).value && init[j].objectId == Some(id) &&
               forall j' :: j < j' < n - 1 ==> init[j'].objectId != Some(id);
      forall j' | j < j' < n ensures fs[j'].objectId != Some(id) {
        if j' < n - 1 {
          assert fs[j'] == init[j'];
        }
      }
      assert LastAt(fs, id, j);
    }
  }

  predicate LastAt(fs: seq<EcoFeature>, id: int, j: int) {
    0 <= j < |fs| && fs[j].objectId == Some(id) && forall j' :: j < j' < |fs| ==> fs[j'].objectId != Some(id)
  }

  predicate NoDuplicates(s: seq<int>) {
    forall i, j :: 0 <= i < j < |s| ==> s[i] != s[j]
  }

  /** The index of the first occurrence of `x`. */
  function FirstIndex(s: seq<int>, x: int): (i: nat)
    requires x in s
    ensures i < |s| && s[i] == x && forall k :: 0 <= k < i ==> s[k] != x
  {
    if s[0] == x then 0 else 1 + FirstIndex(s[1..], x)
  }

  /** `Distinct` lists each value once, ordered by where each value first
      appears. */
  lemma {:induction false} DistinctOrdered(s: seq<int>)
    ensures NoDuplicates(Distinct(s))
    ensures forall i, j :: 0 <= i < j < |Distinct(s)| ==>
              FirstIndex(s, Distinct(s)[i]) < FirstIndex(s, Distinct(s)[j])
  {
    if s != [] {
      var n := |s|;
      var init, x := s[..n - 1], s[n - 1];
      DistinctOrdered(init);
      var d := Distinct(s);
      var di := Distinct(init);
      forall y | y in init ensures FirstIndex(s, y) == FirstIndex(init, y) {
        FirstIndexPrefix(init, s, y);
      }
      if x !in di {
        assert d == di + [x];
        assert x !in init;
        assert FirstIndex(s, x) == n - 1;
        forall i | 0 <= i < |di| ensures FirstIndex(s, d[i]) < n - 1 {
          assert d[i] == di[i] && di[i] in init;
        }
      }
    }
  }

  lemma FirstIndexPrefix(init: seq<int>, s: seq<int>, y: int)
    requires y in init && |init| <= |s| && init == s[..|init|]
    ensures FirstIndex(s, y) == FirstIndex(init, y)
  {
    var i := FirstIndex(init, y);
    assert s[i] == y;
  }

  /** The de-duplication in full: features without an OBJECTID are
      dropped, the IDs kept are exactly those fetched, each once and in
      order of first appearance, and each with the last feature fetched
      under it. */
  lemma DedupMeaning(fs: seq<EcoFeature>)
    ensures var r := Dedup(fs);
      (forall k :: 0 <= k < |r| ==> r[k].objectId.Some?) &&
      (forall i, j :: 0 <= i < j < |r| ==> r[i].objectId != r[j].objectId) &&
      (forall id :: (exists k :: 0 <= k < |r| && r[k].objectId == Some(id)) <==>
                    (exists j :: 0 <= j < |fs| && fs[j].objectId == Some(id))) &&
      (forall k :: 0 <= k < |r| ==> exists j :: LastAt(fs, r[k].objectId.value, j) && fs[j] == r[k])
  {
    var r := Dedup(fs);
    var keys := Distinct(Ids(fs));
    DistinctOrdered(Ids(fs));
    forall k | 0 <= k < |r|
      ensures r[k].objectId == Some(keys[k])
      ensures exists j :: LastAt(fs, keys[k], j) && fs[j] == r[k]
    {
      LastWithFound(fs, keys[k]);
      LastWithMeaning(fs, keys[k]);
    }
    forall id ensures (exists k :: 0 <= k < |r| && r[k].objectId == Some(id)) <==>
                      (exists j :: 0 <= j < |fs| && fs[j].objectId == Some(id))
    {
      IdsMembers(fs, id);
      if id in keys {
        var k :| 0 <= k < |keys| && keys[k] == id;
        assert r[k].objectId == Some(id);
      }
    }
  }

  /** `Dedup` orders the IDs by first appearance in the fetched list. */
  lemma DedupOrder(fs: seq<EcoFeature>)
    ensures forall i, j :: 0 <= i < j < |Distinct(Ids(fs))| ==>
              FirstIndex(Ids(fs), Distinct(Ids(fs))[i]) < FirstIndex(Ids(fs), Distinct(Ids(fs))[j])
  {
    DistinctOrdered(Ids(fs));
  }

  /** The dictionary after the first `i` features: its key order and its
      key-value map. */
  ghost predicate DedupState(fs: seq<EcoFeature>, i: int, keys: seq<int>, dedup: map<int, EcoFeature>)
    requires 0 <= i <= |fs|
  {
    keys == Distinct(Ids(fs[..i])) &&
    (forall id :: id in dedup <==> id in keys) &&
    (forall id :: id in dedup ==> LastWith(fs[..i], id) == Some(dedup[id]))
  }

  /** A feature without an OBJECTID leaves the dictionary alone. */
  lemma DedupSkip(fs: seq<EcoFeature>, i: int, keys: seq<int>, dedup: map<int, EcoFeature>)
    requires 0 <= i < |fs| && DedupState(fs, i, keys, dedup) && fs[i].objectId.None?
    ensures DedupState(fs, i + 1, keys, dedup)
  {
    DedupStep(fs, i);
    var p := fs[..i + 1];
    forall q | q in dedup ensures LastWith(p, q) == Some(dedup[q]) {
      assert LastWith(p, q) == LastWith(fs[..i], q);
    }
  }

  /** `dedup[oid] = feature`: a new key is appended to the key order, and
      the value is stored either way. */
  lemma DedupStore(fs: seq<EcoFeature>, i: int, keys: seq<int>, dedup: map<int, EcoFeature>)
    requires 0 <= i < |fs| && DedupState(fs, i, keys, dedup) && fs[i].objectId.Some?
    ensures var id := fs[i].objectId.value;
      DedupState(fs, i + 1, if id in dedup then keys else keys + [id], dedup[id := fs[i]])
  {
    DedupStep(fs, i);
    var p := fs[..i + 1];
    var id := fs[i].objectId.value;
    var keys' := if id in dedup then keys else keys + [id];
    var dedup' := dedup[id := fs[i]];
    assert id in keys <==> id in dedup;
    assert keys' == Distinct(Ids(p));
    forall q ensures q in dedup' <==> q in keys' {
      assert q in keys' <==> q in keys || q == id;
    }
    forall q | q in dedup' ensures LastWith(p, q) == Some(dedup'[q]) {
      if q != id {
        assert LastWith(p, q) == LastWith(fs[..i], q);
      }
    }
    assert DedupState(fs, i + 1, keys', dedup');
  }

  /** The `dedup` dictionary loop, with the dictionary as its key order and
      its key-value map: a new key goes to the end, storing under a known
      key replaces the value in place. */
  method DedupByObjectId(fs: seq<EcoFeature>) returns (out: seq<EcoFeature>)
    ensures out == Dedup(fs)
  {
    var keys: seq<int> := [];
    var dedup: map<int, EcoFeature> := map[];
    for i := 0 to |fs|
      invariant DedupState(fs, i, keys, dedup)
    {
      var oid := fs[i].objectId;
      if oid.None? {
        DedupSkip(fs, i, keys, dedup);
        continue;
      }
      DedupStore(fs, i, keys, dedup);
      if oid.value !in dedup {
        keys := keys + [oid.value];
      }
      dedup := dedup[oid.value := fs[i]];
    }
    assert fs[..|fs|] == fs;
    assert DedupState(fs, |fs|, keys, dedup);
    assert forall id :: id in dedup <==> id in keys;
    forall k | 0 <= k < |keys| ensures keys[k] in dedup && dedup[keys[k]] == LastWith(fs, keys[k]).value {
      assert keys[k] in keys;
      assert keys[k] in dedup;
      assert LastWith(fs[..|fs|], keys[k]) == Some(dedup[keys[k]]);
    }
    out := seq(|keys|, k requires 0 <= k < |keys| && keys[k] in dedup => dedup[keys[k]]);
  }

  lemma DedupStep(fs: seq<EcoFeature>, i: int)
    requires 0 <= i < |fs|
    ensures Ids(fs[..i + 1]) == Ids(fs[..i]) + (if fs[i].objectId.Some? then [fs[i].objectId.value] else [])
    ensures forall id :: LastWith(fs[..i + 1], id) ==
              if fs[i].objectId == Some(id) then Some(fs[i]) else LastWith(fs[..i], id)
    ensures Distinct(Ids(fs[..i + 1])) ==
              (var d := Distinct(Ids(fs[..i]));
               if fs[i].objectId.None? || fs[i].objectId.value in d then d else d + [fs[i].objectId.value])
  {
    var p := fs[..i + 1];
    assert p[..i] == fs[..i] && p[i] == fs[i];
    if fs[i].objectId.Some? {
      var s := Ids(p);
      assert s[..|s| - 1] == Ids(fs[..i]);
    } else {
      assert Ids(p) == Ids(fs[..i]) + [];
      assert Ids(fs[..i]) + [] == Ids(fs[..i]);
    }
  }

  // ----------------------------------------------------------------- main

  /** The chunk loop: `object_ids[start:start + size]` for each `start` of
      `range(0, len(object_ids), size)`, each fetched with retries, the
      replies appended in order; the first chunk to fail ends the run. */
  method GatherChunks(ids: seq<int>, size: nat, fetch: Fetcher) returns (r: Result<seq<EcoFeature>>)
    requires size > 0
    ensures r == Gathered(fetch, ChunksFrom(ids, size, 0))
  {
    var all: seq<EcoFeature> := [];
    ghost var whole := Gathered(fetch, ChunksFrom(ids, size, 0));
    var start: nat := 0;
    assert whole.Ok? ==> [] + whole.value == whole.value;
    while start < |ids|
      invariant whole == Prefixed(all, Gathered(fetch, ChunksFrom(ids, size, start)))
      decreases |ids| - start
    {
      var chunk := Slice(ids, start, start + size);
      var feats, _, _ := FetchChunk(chunk, fetch);
      ghost var here := ChunksFrom(ids, size, start);
      ghost var rest := Gathered(fetch, ChunksFrom(ids, size, start + size));
      assert here[0] == chunk && here[1..] == ChunksFrom(ids, size, start + size);
      if feats.Err? {
        assert Gathered(fetch, here) == feats;
        return feats;
      }
      assert Gathered(fetch, here) == if rest.Err? then rest else Ok(feats.value + rest.value);
      PrefixedStep(all, feats.value, rest);
      assert whole == Prefixed(all + feats.value, rest);
      all := all + feats.value;
      start := start + size;
    }
    assert all + [] == all;
    r := Ok(all);
  }

  /** `main` after the ID query, for `--chunk-size` `chunkSize`: the exit
      status and the collection written, if any. A `null` ID list raises
      TypeError before anything is fetched. No IDs: status 1 and no
      file. A chunk size of 0 fails computing `total_chunks`; a negative
      one gives an empty range and an empty file. */
  method FetchWaEcologyMain(reply: IdsReply, chunkSize: int, fetch: Fetcher)
    returns (r: Result<int>, written: Option<EcoCollection>)
    ensures reply.Null? ==> r == Err("TypeError") && written == None
    ensures !reply.Null? ==> var ids := GetObjectIds(reply).value;
      (ids == [] ==> r == Ok(1) && written == None) &&
      (ids != [] && chunkSize == 0 ==> r == Err("ZeroDivisionError") && written == None) &&
      (ids != [] && chunkSize < 0 ==> r == Ok(0) && written == Some(EcoCollection(RawName, []))) &&
      (ids != [] && chunkSize > 0 ==>
         var g := Gathered(fetch, ChunksFrom(ids, chunkSize, 0));
         (g.Err? ==> r == Err("RuntimeError") && written == None) &&
         (g.Ok? ==> r == Ok(0) && written == Some(EcoCollection(RawName, Dedup(g.value)))))
  {
    var got := GetObjectIds(reply);
    if got.Err? {
      return Err(got.error), None;
    }
    var ids := got.value;
    if ids == [] {
      return Ok(1), None;
    }
    if chunkSize == 0 {
      return Err("ZeroDivisionError"), None;
    }
    var all: seq<EcoFeature> := [];
    if chunkSize > 0 {
      var g := GatherChunks(ids, chunkSize, fetch);
      if g.Err? {
        GatheredError(fetch, ChunksFrom(ids, chunkSize, 0));
        return Err(g.error), None;
      }
      all := g.value;
    }
    var out := DedupByObjectId(all);
    r, written := Ok(0), Some(EcoCollection(RawName, out));
  }
}
