/** The on-disk cache of SSCOFS NetCDF files: the name a model run's file
    is cached under (`get_cached_filename`), and how
    `bulk_download_forecasts` keeps one result slot per requested run, in
    request order, whether the file was already cached, was downloaded, or
    failed to download. */
module SscofsCache {
  import opened Wrappers
  import opened Text
  import opened Calendar

  /** The `run_info` fields the cache uses: 'run_date_utc', 'cycle_utc'
      and 'forecast_hour_index' ('url' only tells the download where to
      read from). */
  datatype RunInfo = RunInfo(runDateUtc: string, cycleUtc: string, forecastHourIndex: int)

  // ------------------------------------------------------------ file names

  /** `get_cached_filename`: "sscofs_" + the date without its hyphens +
      "_t" + the cycle without its 'z's + "z_f" + the hour in three digits
      + ".nc". */
  function CachedFilename(info: RunInfo): string {
    "sscofs_" + RemoveChar(info.runDateUtc, '-') + "_t" + RemoveChar(info.cycleUtc, 'z') + "z_f"
      + FormatInt(info.forecastHourIndex, 3) + ".nc"
  }

  /** Every cache name starts "sscofs_" and ends ".nc", so the `*.nc`
      globs of `list_cache`, `clear_cache` and `get_cache_info` see every
      cached file. */
  lemma CachedFilenameShape(info: RunInfo)
    ensures StartsWith(CachedFilename(info), "sscofs_") && EndsWith(CachedFilename(info), ".nc")
  {
    var date, cycle, hour := RemoveChar(info.runDateUtc, '-'), RemoveChar(info.cycleUtc, 'z'), FormatInt(info.forecastHourIndex, 3);
    NameShape("sscofs_", date + "_t" + cycle + "z_f" + hour, ".nc");
    assert CachedFilename(info) == "sscofs_" + (date + "_t" + cycle + "z_f" + hour) + ".nc";
  }

  lemma NameShape(a: string, b: string, c: string)
    ensures StartsWith(a + b + c, a) && EndsWith(a + b + c, c)
  {
    assert (a + b + c)[..|a|] == a;
    assert (a + b + c)[|a + b|..] == c;
  }

  /** The run info the SSCOFS scripts hand to the cache: the run date in
      ISO form, the cycle as two digits and 'z', the forecast hour. */
  function RunInfoFor(d: Date, cycle: int, hour: int): RunInfo {
    RunInfo(IsoFormat(d), FormatInt(cycle, 2) + "z", hour)
  }

  lemma IsoWithoutHyphens(d: Day)
    ensures RemoveChar(IsoFormat(d), '-') == Compact(d)
  {
    var y, m, dd := FormatInt(d.year, 4), FormatInt(d.month, 2), FormatInt(d.day, 2);
    FormatIntRoundTrip(d.year, 4);
    TwoDigits(d.month);
    TwoDigits(d.day);
    assert forall k :: 0 <= k < |y| ==> y[k] != '-';
    RemoveHyphens(y, m, dd);
  }

  lemma RemoveHyphens(y: string, m: string, d: string)
    requires '-' !in y && '-' !in m && '-' !in d
    ensures RemoveChar(y + "-" + m + "-" + d, '-') == y + m + d
  {
    assert RemoveChar("-", '-') == "";
    assert RemoveChar(y + "-", '-') == y by {
      RemoveCharConcat(y, "-", '-');
    }
    assert RemoveChar(y + "-" + m, '-') == y + m by {
      RemoveCharConcat(y + "-", m, '-');
    }
    assert RemoveChar(y + "-" + m + "-", '-') == y + m by {
      RemoveCharConcat(y + "-" + m, "-", '-');
    }
    RemoveCharConcat(y + "-" + m + "-", d, '-');
  }

  lemma CycleWithoutZ(cycle: int)
    requires 0 <= cycle < 100
    ensures RemoveChar(FormatInt(cycle, 2) + "z", 'z') == FormatInt(cycle, 2)
  {
    TwoDigits(cycle);
    assert 'z' !in FormatInt(cycle, 2);
    assert RemoveChar("z", 'z') == "";
    RemoveCharConcat(FormatInt(cycle, 2), "z", 'z');
  }

  /** For a run the scripts describe, the cache name is
      "sscofs_YYYYMMDD_tCCz_fHHH.nc". */
  lemma RunFilename(d: Day, cycle: int, hour: int)
    requires 0 <= cycle < 100
    ensures CachedFilename(RunInfoFor(d, cycle, hour))
      == "sscofs_" + Compact(d) + "_t" + FormatInt(cycle, 2) + "z_f" + FormatInt(hour, 3) + ".nc"
  {
    IsoWithoutHyphens(d);
    CycleWithoutZ(cycle);
  }

  lemma CompactFields(d: Day)
    ensures |Compact(d)| == 8
    ensures Compact(d)[..4] == FormatInt(d.year, 4)
    ensures Compact(d)[4..6] == FormatInt(d.month, 2)
    ensures Compact(d)[6..] == FormatInt(d.day, 2)
  {
    FormatIntRoundTrip(d.year, 4);
    TwoDigits(d.month);
    TwoDigits(d.day);
  }

  lemma CompactInjective(d: Day, e: Day)
    requires Compact(d) == Compact(e)
    ensures d == e
  {
    CompactFields(d);
    CompactFields(e);
    FormatIntRoundTrip(d.year, 4);
    FormatIntRoundTrip(e.year, 4);
    TwoDigits(d.month);
    TwoDigits(e.month);
    TwoDigits(d.day);
    TwoDigits(e.day);
  }

  lemma NameFields(date: string, cycle: string, hour: string)
    requires |date| == 8 && |cycle| == 2 && |hour| == 3
    ensures var name := "sscofs_" + date + "_t" + cycle + "z_f" + hour + ".nc";
      name[7..15] == date && name[17..19] == cycle && name[22..25] == hour
  {
  }

  /** Different runs of the model, or different forecast hours of one run,
      never share a cache file. */
  lemma CachedFilenameInjective(d: Day, c: int, h: int, e: Day, c': int, h': int)
    requires 0 <= c < 100 && 0 <= c' < 100 && 0 <= h < 1000 && 0 <= h' < 1000
    requires CachedFilename(RunInfoFor(d, c, h)) == CachedFilename(RunInfoFor(e, c', h'))
    ensures d == e && c == c' && h == h'
  {
    RunFilename(d, c, h);
    RunFilename(e, c', h');
    CompactFields(d);
    CompactFields(e);
    TwoDigits(c);
    TwoDigits(c');
    FormatIntRoundTrip(h, 3);
    FormatIntRoundTrip(h', 3);
    NameFields(Compact(d), FormatInt(c, 2), FormatInt(h, 3));
    NameFields(Compact(e), FormatInt(c', 2), FormatInt(h', 3));
    CompactInjective(d, e);
  }

  // ------------------------------------------------------- bulk downloads

  /** The cache directory as `bulk_download_forecasts` sees it: where it
      is, whether `use_cache` is on, and which paths exist on disk. */
  datatype Cache = Cache(dir: string, useCache: bool, onDisk: string -> bool)

  /** `cache_dir / get_cached_filename(info)`. */
  function CachePath(c: Cache, info: RunInfo): string {
    c.dir + "/" + CachedFilename(info)
  }

  /** `use_cache and cache_file.exists()`: the input needs no download. */
  predicate Hit(c: Cache, info: RunInfo) {
    c.useCache && c.onDisk(CachePath(c, info))
  }

  /** The cache test as a value, so that the queue below does not depend
      on how a cache path is spelled. */
  function HitTest(c: Cache): RunInfo -> bool {
    info => Hit(c, info)
  }

  /** `to_download` after the scan has seen the first `n` inputs: every
      one of them that `hit` does not accept, with its index, in input
      order. */
  function Queue(hit: RunInfo -> bool, infos: seq<RunInfo>, n: nat): seq<(int, RunInfo)>
    requires n <= |infos|
  {
    if n == 0 then []
    else Queue(hit, infos, n - 1) + (if hit(infos[n - 1]) then [] else [(n - 1, infos[n - 1])])
  }

  /** `to_download` once the scan is over. */
  function ToDownload(hit: RunInfo -> bool, infos: seq<RunInfo>): seq<(int, RunInfo)> {
    Queue(hit, infos, |infos|)
  }

  /** What the scan promises about the queue `q` of `infos`: each entry is
      an input that was not cached, with its own index; the entries are in
      increasing index order; every input that was not cached is in it. */
  ghost predicate Queues(hit: RunInfo -> bool, infos: seq<RunInfo>, q: seq<(int, RunInfo)>) {
    QueuedEntries(hit, infos, |infos|, q) && Increasing(q) && QueueCovers(hit, infos, |infos|, q)
  }

  ghost predicate QueuedEntries(hit: RunInfo -> bool, infos: seq<RunInfo>, n: int, q: seq<(int, RunInfo)>)
    requires n <= |infos|
  {
    forall k :: 0 <= k < |q| ==> 0 <= q[k].0 < n && q[k].1 == infos[q[k].0] && !hit(q[k].1)
  }

  ghost predicate Increasing(q: seq<(int, RunInfo)>) {
    forall j, k :: 0 <= j < k < |q| ==> q[j].0 < q[k].0
  }

  ghost predicate QueueCovers(hit: RunInfo -> bool, infos: seq<RunInfo>, n: int, q: seq<(int, RunInfo)>)
    requires n <= |infos|
  {
    forall i :: 0 <= i < n && !hit(infos[i]) ==> exists k :: 0 <= k < |q| && q[k].0 == i
  }

  lemma QueueMeaning(hit: RunInfo -> bool, infos: seq<RunInfo>)
    ensures Queues(hit, infos, ToDownload(hit, infos))
  {
    QueueEntriesHold(hit, infos, |infos|);
    QueueIncreasing(hit, infos, |infos|);
    QueueComplete(hit, infos, |infos|);
  }

  lemma {:induction false} QueueEntriesHold(hit: RunInfo -> bool, infos: seq<RunInfo>, n: nat)
    requires n <= |infos|
    ensures QueuedEntries(hit, infos, n, Queue(hit, infos, n))
  {
    if n > 0 {
      QueueEntriesHold(hit, infos, n - 1);
      var q0 := Queue(hit, infos, n - 1);
      var q := Queue(hit, infos, n);
      forall k | 0 <= k < |q|
        ensures 0 <= q[k].0 < n && q[k].1 == infos[q[k].0] && !hit(q[k].1)
      {
        if k < |q0| {
          assert q[k] == q0[k];
        }
      }
    }
  }

  lemma {:induction false} QueueIncreasing(hit: RunInfo -> bool, infos: seq<RunInfo>, n: nat)
    requires n <= |infos|
    ensures Increasing(Queue(hit, infos, n))
  {
    if n > 0 {
      QueueIncreasing(hit, infos, n - 1);
      QueueEntriesHold(hit, infos, n - 1);
      var q0 := Queue(hit, infos, n - 1);
      var q := Queue(hit, infos, n);
      forall j, k | 0 <= j < k < |q|
        ensures q[j].0 < q[k].0
      {
        assert q[j] == q0[j];
        if k < |q0| {
          assert q[k] == q0[k];
        }
      }
    }
  }

  lemma {:induction false} QueueComplete(hit: RunInfo -> bool, infos: seq<RunInfo>, n: nat)
    requires n <= |infos|
    ensures QueueCovers(hit, infos, n, Queue(hit, infos, n))
  {
    if n > 0 {
      QueueComplete(hit, infos, n - 1);
      var q0 := Queue(hit, infos, n - 1);
      var q := Queue(hit, infos, n);
      forall i | 0 <= i < n && !hit(infos[i])
        ensures exists k :: 0 <= k < |q| && q[k].0 == i
      {
        if i < n - 1 {
          var k :| 0 <= k < |q0| && q0[k].0 == i;
          assert q[k] == q0[k];
        } else {
          assert q[|q0|].0 == i;
        }
      }
    }
  }

  /** Nothing is queued exactly when every input is already cached. */
  lemma NothingQueued(hit: RunInfo -> bool, infos: seq<RunInfo>)
    ensures ToDownload(hit, infos) == [] <==> forall i :: 0 <= i < |infos| ==> hit(infos[i])
  {
    QueueMeaning(hit, infos);
    if ToDownload(hit, infos) != [] {
      var q := ToDownload(hit, infos);
      assert !hit(infos[q[0].0]);
    }
  }

  /** The cache path as a value, for the same reason. */
  function PathOf(c: Cache): RunInfo -> string {
    info => CachePath(c, info)
  }

  /** The slot `bulk_download_forecasts` returns for an input: its cache
      path if it was cached already or its download succeeded, otherwise
      None. */
  function Slot(c: Cache, succeeds: RunInfo -> bool, info: RunInfo): Option<string> {
    if Hit(c, info) || succeeds(info) then Some(CachePath(c, info)) else None
  }

  /** `bulk_download_forecasts(infos)`. `succeeds` says which downloads
      finish without an exception, and `order` is the sequence in which
      `as_completed` hands back the queued downloads, by queue position:
      any sequence that hands back every queued download. The result has
      one slot per input, in input order, and does not depend on `order`. */
  method BulkDownloadForecasts(c: Cache, infos: seq<RunInfo>, succeeds: RunInfo -> bool, order: seq<int>)
    returns (results: seq<Option<string>>, queued: seq<(int, RunInfo)>)
    requires forall m :: 0 <= m < |order| ==> 0 <= order[m] < |ToDownload(HitTest(c), infos)|
    requires forall p :: 0 <= p < |ToDownload(HitTest(c), infos)| ==> p in order
    ensures queued == ToDownload(HitTest(c), infos)
    ensures |results| == |infos|
    ensures forall i :: 0 <= i < |infos| ==> results[i] == Slot(c, succeeds, infos[i])
  {
    var slots;
    slots, queued := ScanCache(HitTest(c), PathOf(c), infos);
    if |queued| == 0 {
      NothingQueued(HitTest(c), infos);
      return slots[..], queued;
    }
    QueueMeaning(HitTest(c), infos);
    CollectDownloads(HitTest(c), PathOf(c), infos, succeeds, order, slots, queued);
    results := slots[..];
  }

  /** The first loop of `bulk_download_forecasts`, for the cache test
      `hit` (`use_cache and cache_file.exists()`) and the cache path
      `path`: `results` starts as one None per input; a cache hit fills
      its own slot with its path, anything else joins `to_download`. */
  method ScanCache(hit: RunInfo -> bool, path: RunInfo -> string, infos: seq<RunInfo>)
    returns (slots: array<Option<string>>, queued: seq<(int, RunInfo)>)
    ensures fresh(slots) && slots.Length == |infos|
    ensures queued == ToDownload(hit, infos)
    ensures forall j :: 0 <= j < |infos| ==> slots[j] == if hit(infos[j]) then Some(path(infos[j])) else None
  {
    slots := new Option<string>[|infos|](_ => None);
    queued := [];
    for i := 0 to |infos|
      invariant queued == Queue(hit, infos, i)
      invariant forall j :: 0 <= j < |infos| ==>
        slots[j] == if j < i && hit(infos[j]) then Some(path(infos[j])) else None
    {
      var file := path(infos[i]);
      if hit(infos[i]) {
        slots[i] := Some(file);
      } else {
        queued := queued + [(i, infos[i])];
      }
    }
  }

  /** The collecting loop of `bulk_download_forecasts`: each download that
      `as_completed` hands back writes its path into its own slot when it
      succeeds and leaves the None there when it raises. */
  method CollectDownloads(hit: RunInfo -> bool, path: RunInfo -> string, infos: seq<RunInfo>,
                          succeeds: RunInfo -> bool, order: seq<int>,
                          slots: array<Option<string>>, queued: seq<(int, RunInfo)>)
    requires slots.Length == |infos| && Queues(hit, infos, queued)
    requires forall m :: 0 <= m < |order| ==> 0 <= order[m] < |queued|
    requires forall p :: 0 <= p < |queued| ==> p in order
    requires forall j :: 0 <= j < |infos| ==> slots[j] == if hit(infos[j]) then Some(path(infos[j])) else None
    modifies slots
    ensures forall j :: 0 <= j < |infos| ==>
      slots[j] == if hit(infos[j]) || succeeds(infos[j]) then Some(path(infos[j])) else None
  {
    ghost var done: set<int> := {};
    for k := 0 to |order|
      invariant forall j :: 0 <= j < |infos| ==>
        slots[j] == if hit(infos[j]) || (j in done && succeeds(infos[j])) then Some(path(infos[j])) else None
      invariant forall m :: 0 <= m < k ==> queued[order[m]].0 in done
      invariant forall j :: j in done ==> 0 <= j < |infos| && !hit(infos[j])
    {
      var (idx, info) := queued[order[k]];
      if succeeds(info) {
        slots[idx] := Some(path(info));
      }
      done := done + {idx};
    }
    forall j | 0 <= j < |infos| && !hit(infos[j])
      ensures j in done
    {
      var p :| 0 <= p < |queued| && queued[p].0 == j;
      assert p in order;
      var m :| 0 <= m < |order| && order[m] == p;
    }
  }

  /** When every input is already cached, no slot is None. */
  lemma AllCachedNoNone(c: Cache, infos: seq<RunInfo>, succeeds: RunInfo -> bool)
    requires ToDownload(HitTest(c), infos) == []
    ensures forall i :: 0 <= i < |infos| ==> Slot(c, succeeds, infos[i]) == Some(CachePath(c, infos[i]))
  {
    NothingQueued(HitTest(c), infos);
  }
}
