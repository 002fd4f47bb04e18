/** The data generator for the currents viewer: longitude normalisation,
    the interleaved layouts of geometry.bin and fHHH.bin, the per-hour
    worker results, the `--hours` range and the forecast hours the
    manifest lists in fast and in cache mode. */
module GenerateCurrentData {
  import opened Wrappers
  import opened Text
  import opened Sorting

  // ----------------------------------------------------------- longitudes

  /** `a.max()` of a non-empty array. */
  function MaxOf(s: seq<real>): (m: real)
    requires |s| > 0
    ensures forall k :: 0 <= k < |s| ==> s[k] <= m
    ensures exists k :: 0 <= k < |s| && s[k] == m
  {
    if |s| == 1 then s[0]
    else
      var m := MaxOf(s[..|s| - 1]);
      assert forall k :: 0 <= k < |s| - 1 ==> s[..|s| - 1][k] == s[k];
      if s[|s| - 1] > m then s[|s| - 1] else m
  }

  /** `fix_longitude`: when the largest longitude is above 180, every
      longitude above 180 loses 360; otherwise the array is returned as it
      is. `max` of an empty array raises ValueError. */
  function FixLongitude(lonc: seq<real>): (r: Result<seq<real>>)
    ensures r.Err? <==> |lonc| == 0
    ensures r.Err? ==> r.error == "ValueError"
    ensures r.Ok? ==> |r.value| == |lonc|
  {
    if |lonc| == 0 then Err("ValueError")
    else if MaxOf(lonc) > 180.0 then
      Ok(seq(|lonc|, k requires 0 <= k < |lonc| => if lonc[k] > 180.0 then lonc[k] - 360.0 else lonc[k]))
    else Ok(lonc)
  }

  /** Whichever branch `fix_longitude` takes, exactly the longitudes above
      180 lose 360 and the others are kept. */
  lemma FixLongitudePointwise(lonc: seq<real>)
    requires |lonc| > 0
    ensures forall k :: 0 <= k < |lonc| ==>
      FixLongitude(lonc).value[k] == if lonc[k] > 180.0 then lonc[k] - 360.0 else lonc[k]
  {
    if MaxOf(lonc) <= 180.0 {
      assert forall k :: 0 <= k < |lonc| ==> lonc[k] <= 180.0;
    }
  }

  /** Longitudes given in 0..360 (or already in -180..180) come out in
      -180..180, and fixing them again changes nothing. */
  lemma FixLongitudeRange(lonc: seq<real>)
    requires |lonc| > 0
    requires forall k :: 0 <= k < |lonc| ==> -180.0 <= lonc[k] <= 360.0
    ensures forall k :: 0 <= k < |FixLongitude(lonc).value| ==> -180.0 <= FixLongitude(lonc).value[k] <= 180.0
    ensures FixLongitude(FixLongitude(lonc).value) == FixLongitude(lonc)
  {
    FixLongitudePointwise(lonc);
    var fixed := FixLongitude(lonc).value;
    FixLongitudePointwise(fixed);
    assert forall k :: 0 <= k < |fixed| ==> FixLongitude(fixed).value[k] == fixed[k];
  }

  // -------------------------------------------------------------- masking

  function CountTrue(mask: seq<bool>): (n: nat)
    ensures n <= |mask|
  {
    if |mask| == 0 then 0 else CountTrue(mask[..|mask| - 1]) + (if mask[|mask| - 1] then 1 else 0)
  }

  /** `a[mask]`: the entries whose mask entry is true, in order. */
  function Masked(a: seq<real>, mask: seq<bool>): (r: seq<real>)
    requires |mask| == |a|
    ensures |r| == CountTrue(mask)
  {
    if |a| == 0 then []
    else
      var n := |a| - 1;
      Masked(a[..n], mask[..n]) + (if mask[n] then [a[n]] else [])
  }

  /** The indices `np.nonzero(mask)` lists: those of the true entries, in
      increasing order. */
  function MaskIndices(mask: seq<bool>): (r: seq<int>)
    ensures |r| == CountTrue(mask)
    ensures forall j :: 0 <= j < |r| ==> 0 <= r[j] < |mask|
  {
    if |mask| == 0 then []
    else
      var n := |mask| - 1;
      MaskIndices(mask[..n]) + (if mask[n] then [n] else [])
  }

  /** The mask's indices are true entries, strictly increasing, and every
      true entry is among them. */
  lemma {:induction false} MaskIndicesMeaning(mask: seq<bool>)
    ensures forall j :: 0 <= j < |MaskIndices(mask)| ==>
      0 <= MaskIndices(mask)[j] < |mask| && mask[MaskIndices(mask)[j]]
    ensures forall i, j :: 0 <= i < j < |MaskIndices(mask)| ==> MaskIndices(mask)[i] < MaskIndices(mask)[j]
    ensures forall k :: 0 <= k < |mask| && mask[k] ==> k in MaskIndices(mask)
  {
    if |mask| > 0 {
      var n := |mask| - 1;
      MaskIndicesMeaning(mask[..n]);
      assert forall k :: 0 <= k < n ==> mask[..n][k] == mask[k];
      var p := MaskIndices(mask[..n]);
      assert MaskIndices(mask) == p + (if mask[n] then [n] else []);
    }
  }

  /** Masking keeps the entries at the mask's indices, so two arrays
      masked by the same mask stay paired entry by entry. */
  lemma {:induction false} MaskedAt(a: seq<real>, mask: seq<bool>, j: int)
    requires |mask| == |a| && 0 <= j < CountTrue(mask)
    ensures 0 <= MaskIndices(mask)[j] < |a|
    ensures Masked(a, mask)[j] == a[MaskIndices(mask)[j]]
  {
    MaskIndicesMeaning(mask);
    var n := |a| - 1;
    if j < CountTrue(mask[..n]) {
      MaskedAt(a[..n], mask[..n], j);
      assert Masked(a, mask)[j] == Masked(a[..n], mask[..n])[j];
      assert MaskIndices(mask)[j] == MaskIndices(mask[..n])[j];
    } else {
      assert mask[n] && MaskIndices(mask)[j] == n;
    }
  }

  // ----------------------------------------------------------- interleave

  /** `out = np.empty(2 * len(xs)); out[0::2] = xs; out[1::2] = ys`. */
  method Interleave(xs: seq<real>, ys: seq<real>) returns (out: seq<real>)
    requires |xs| == |ys|
    ensures |out| == 2 * |xs|
    ensures forall i :: 0 <= i < |xs| ==> out[2 * i] == xs[i] && out[2 * i + 1] == ys[i]
  {
    var a := new real[2 * |xs|];
    for i := 0 to |xs|
      invariant forall k :: 0 <= k < i ==> a[2 * k] == xs[k]
    {
      a[2 * i] := xs[i];
    }
    for i := 0 to |ys|
      invariant forall k :: 0 <= k < |xs| ==> a[2 * k] == xs[k]
      invariant forall k :: 0 <= k < i ==> a[2 * k + 1] == ys[k]
    {
      a[2 * i + 1] := ys[i];
    }
    out := a[..];
  }

  /** The entries at even positions (`out[0::2]`). */
  function Evens(s: seq<real>): seq<real> {
    seq((|s| + 1) / 2, k requires 0 <= k < (|s| + 1) / 2 => s[2 * k])
  }

  /** The entries at odd positions (`out[1::2]`). */
  function Odds(s: seq<real>): seq<real> {
    seq(|s| / 2, k requires 0 <= k < |s| / 2 => s[2 * k + 1])
  }

  /** A reader of the interleaved layout gets both arrays back. */
  lemma Deinterleave(out: seq<real>, xs: seq<real>, ys: seq<real>)
    requires |xs| == |ys| && |out| == 2 * |xs|
    requires forall i :: 0 <= i < |xs| ==> out[2 * i] == xs[i] && out[2 * i + 1] == ys[i]
    ensures Evens(out) == xs && Odds(out) == ys
  {
  }

  /** Every even-length array is the interleaving of its even and odd
      entries. */
  lemma Reinterleave(s: seq<real>)
    requires |s| % 2 == 0
    ensures |Evens(s)| == |Odds(s)| && |s| == 2 * |Evens(s)|
    ensures forall i :: 0 <= i < |Evens(s)| ==> s[2 * i] == Evens(s)[i] && s[2 * i + 1] == Odds(s)[i]
  {
  }

  /** `export_geometry`: the data written to geometry.bin pairs the
      masked longitudes and latitudes, and the count it returns is the
      number of masked elements. */
  method ExportGeometry(lonc: seq<real>, latc: seq<real>, mask: seq<bool>) returns (count: int, data: seq<real>)
    requires |lonc| == |mask| && |latc| == |mask|
    ensures count == CountTrue(mask) && |data| == 2 * count
    ensures forall i :: 0 <= i < count ==>
      data[2 * i] == lonc[MaskIndices(mask)[i]] && data[2 * i + 1] == latc[MaskIndices(mask)[i]]
  {
    var lons := Masked(lonc, mask);
    var lats := Masked(latc, mask);
    data := Interleave(lons, lats);
    count := |lons|;
    forall i | 0 <= i < count
      ensures data[2 * i] == lonc[MaskIndices(mask)[i]] && data[2 * i + 1] == latc[MaskIndices(mask)[i]]
    {
      MaskedAt(lonc, mask, i);
      MaskedAt(latc, mask, i);
    }
  }

  /** `f"f{forecast_hour:03d}.bin"`. */
  function VelocityFileName(hour: int): string {
    "f" + FormatInt(hour, 3) + ".bin"
  }

  /** `export_velocity` and `export_velocity_from_arrays`: the file is
      named after the hour and holds the masked u and v interleaved. */
  method ExportVelocity(u: seq<real>, v: seq<real>, mask: seq<bool>, hour: int) returns (name: string, data: seq<real>)
    requires |u| == |mask| && |v| == |mask|
    ensures name == VelocityFileName(hour)
    ensures |data| == 2 * CountTrue(mask)
    ensures forall i :: 0 <= i < CountTrue(mask) ==>
      data[2 * i] == u[MaskIndices(mask)[i]] && data[2 * i + 1] == v[MaskIndices(mask)[i]]
  {
    var um := Masked(u, mask);
    var vm := Masked(v, mask);
    data := Interleave(um, vm);
    name := "f" + FormatInt(hour, 3) + ".bin";
    forall i | 0 <= i < CountTrue(mask)
      ensures data[2 * i] == u[MaskIndices(mask)[i]] && data[2 * i + 1] == v[MaskIndices(mask)[i]]
    {
      MaskedAt(u, mask, i);
      MaskedAt(v, mask, i);
    }
  }

  /** For hours 0 to 999 the name is "f", three digits naming the hour,
      ".bin", so different hours write different files. */
  lemma VelocityFileNameHour(hour: int)
    requires 0 <= hour < 1000
    ensures |VelocityFileName(hour)| == 8
    ensures AllDigits(VelocityFileName(hour)[1..4]) && DigitsValue(VelocityFileName(hour)[1..4]) == hour
  {
    FormatIntRoundTrip(hour, 3);
    assert VelocityFileName(hour)[1..4] == FormatInt(hour, 3);
  }

  lemma VelocityFileNameInjective(h: int, h': int)
    requires 0 <= h < 1000 && 0 <= h' < 1000
    requires VelocityFileName(h) == VelocityFileName(h')
    ensures h == h'
  {
    VelocityFileNameHour(h);
    VelocityFileNameHour(h');
  }

  // --------------------------------------------------------------- hours

  /** `--hours "a-b"` becomes `(int(parts[0]), int(parts[1]))` with
      `parts = s.split("-")`; `toInt` is Python's `int` on a string, None
      where it raises ValueError. The first `int` runs before `parts[1]`
      is looked up, so "x" raises ValueError and "5" IndexError. */
  function ParseHourRange(s: string, toInt: string -> Option<int>): (r: Result<(int, int)>)
    ensures r.Err? ==> r.error == "ValueError" || r.error == "IndexError"
    ensures r == Err("IndexError") <==> toInt(Split(s, '-')[0]).Some? && '-' !in s
    ensures r.Ok? <==> '-' in s && toInt(Split(s, '-')[0]).Some? && toInt(Split(s, '-')[1]).Some?
    ensures r.Ok? ==> r.value == (toInt(Split(s, '-')[0]).value, toInt(Split(s, '-')[1]).value)
  {
    var parts := Split(s, '-');
    assert '-' in s ==> Count('-', s) >= 1 by {
      if '-' in s { CountPositive(s); }
    }
    match toInt(parts[0])
    case None => Err("ValueError")
    case Some(a) =>
      if |parts| < 2 then Err("IndexError")
      else match toInt(parts[1])
        case None => Err("ValueError")
        case Some(b) => Ok((a, b))
  }

  lemma {:induction false} CountPositive(s: string)
    requires '-' in s
    ensures Count('-', s) >= 1
  {
    if s[0] != '-' {
      assert '-' in s[1..];
      CountPositive(s[1..]);
    }
  }

  /** What Python's `int` does on plain digit strings. */
  ghost predicate IntOnDigits(toInt: string -> Option<int>) {
    forall s :: AllDigits(s) && |s| > 0 ==> toInt(s) == Some(DigitsValue(s))
  }

  /** "a-b" with plain decimal numbers gives (a, b). */
  lemma ParseHourRangeDigits(a: nat, b: nat, toInt: string -> Option<int>)
    requires IntOnDigits(toInt)
    ensures ParseHourRange(NatDigits(a) + "-" + NatDigits(b), toInt) == Ok((a, b))
  {
    var x, y := NatDigits(a), NatDigits(b);
    assert forall k :: 0 <= k < |x| ==> x[k] != '-';
    assert forall k :: 0 <= k < |y| ==> y[k] != '-';
    assert Join([x, y], '-') == x + "-" + y by {
      assert [x, y][1..] == [y];
    }
    SplitJoin([x, y], '-');
    NatDigitsValue(a);
    NatDigitsValue(b);
  }

  /** A single number is not a range: IndexError. */
  lemma ParseHourRangeSingle(a: nat, toInt: string -> Option<int>)
    requires IntOnDigits(toInt)
    ensures ParseHourRange(NatDigits(a), toInt) == Err("IndexError")
  {
    var x := NatDigits(a);
    assert forall k :: 0 <= k < |x| ==> x[k] != '-';
    SplitNoSeparator(x, '-');
    NatDigitsValue(a);
  }

  /** `list(range(a, b + 1))`. */
  function HoursList(a: int, b: int): (r: seq<int>)
    ensures |r| == if b < a then 0 else b - a + 1
  {
    if b < a then [] else seq(b - a + 1, k requires 0 <= k < b - a + 1 => a + k)
  }

  /** The list holds exactly the hours a to b, in increasing order. */
  lemma HoursListMeaning(a: int, b: int)
    ensures forall h :: h in HoursList(a, b) <==> a <= h <= b
    ensures IsSorted(HoursList(a, b))
  {
    var r := HoursList(a, b);
    forall h | a <= h <= b ensures h in r {
      assert r[h - a] == h;
    }
    forall h | h in r ensures a <= h <= b {
      var k :| 0 <= k < |r| && r[k] == h;
    }
  }

  // -------------------------------------------------------------- workers

  /** What `process_hour_worker` returns: `(hour, gz_size)` or
      `(hour, None, str(e))`. */
  datatype WorkerResult = Pair(hour: int, gzSize: int) | Triple(hour: int, error: string)

  /** `len(result)`. */
  function TupleLength(r: WorkerResult): nat {
    if r.Pair? then 2 else 3
  }

  /** `process_hour_worker`; `outcome` is what loading and exporting the
      hour gives: the gzipped size, or the text of the exception. */
  function ProcessHourWorker(hour: int, outcome: Result<int>): (r: WorkerResult)
    ensures r.hour == hour
    ensures TupleLength(r) == 2 <==> outcome.Ok?
    ensures outcome.Ok? ==> r == Pair(hour, outcome.value)
    ensures outcome.Err? ==> r == Triple(hour, outcome.error)
  {
    match outcome
    case Ok(size) => Pair(hour, size)
    case Err(e) => Triple(hour, e)
  }

  /** The hours of `hours`, in their order, whose export succeeds. */
  function Succeeded(hours: seq<int>, outcome: int -> Result<int>): seq<int> {
    if |hours| == 0 then []
    else
      var n := |hours| - 1;
      Succeeded(hours[..n], outcome) + (if outcome(hours[n]).Ok? then [hours[n]] else [])
  }

  /** An hour is listed once for every time it is tried and succeeds. */
  lemma {:induction false} SucceededCount(hours: seq<int>, outcome: int -> Result<int>, h: int)
    ensures multiset(Succeeded(hours, outcome))[h] == if outcome(h).Ok? then multiset(hours)[h] else 0
  {
    if |hours| > 0 {
      var n := |hours| - 1;
      SucceededCount(hours[..n], outcome, h);
      assert hours == hours[..n] + [hours[n]];
    }
  }

  /** A sub-list of a sorted list is sorted, and holds only its hours. */
  lemma {:induction false} SucceededSorted(hours: seq<int>, outcome: int -> Result<int>)
    requires IsSorted(hours)
    ensures IsSorted(Succeeded(hours, outcome))
    ensures forall k :: 0 <= k < |Succeeded(hours, outcome)| ==> Succeeded(hours, outcome)[k] in hours
  {
    if |hours| > 0 {
      var n := |hours| - 1;
      var pre := hours[..n];
      assert IsSorted(pre);
      SucceededSorted(pre, outcome);
      var p := Succeeded(pre, outcome);
      forall k | 0 <= k < |p| ensures p[k] <= hours[n] {
        var i :| 0 <= i < |pre| && pre[i] == p[k];
      }
      assert forall k :: 0 <= k < |p| ==> p[k] in pre ==> p[k] in hours;
    }
  }

  /** The manifest of fast mode, `sorted(completed_hours)`, does not
      depend on the order in which the workers finish, and is the list of
      the requested hours that succeeded. */
  lemma ManifestHoursFast(a: int, b: int, done: seq<int>, outcome: int -> Result<int>)
    requires multiset(done) == multiset(HoursList(a, b))
    ensures Sort(Succeeded(done, outcome)) == Succeeded(HoursList(a, b), outcome)
  {
    var hs := HoursList(a, b);
    forall h ensures multiset(Succeeded(done, outcome))[h] == multiset(Succeeded(hs, outcome))[h] {
      SucceededCount(done, outcome, h);
      SucceededCount(hs, outcome, h);
    }
    assert multiset(Succeeded(done, outcome)) == multiset(Succeeded(hs, outcome));
    SortDependsOnlyOnElements(Succeeded(done, outcome), Succeeded(hs, outcome));
    HoursListMeaning(a, b);
    SucceededSorted(hs, outcome);
    SortOfSorted(Succeeded(hs, outcome));
  }

  /** `generate_fast`'s collecting loop and manifest hours. `done` is the
      order in which `as_completed` hands back the hours, any ordering of
      `range(a, b + 1)`; each result is classified by its length. */
  method GenerateFastHours(a: int, b: int, done: seq<int>, outcome: int -> Result<int>) returns (manifestHours: seq<int>)
    requires multiset(done) == multiset(HoursList(a, b))
    ensures manifestHours == Succeeded(HoursList(a, b), outcome)
    ensures forall h :: h in manifestHours <==> a <= h <= b && outcome(h).Ok?
  {
    var completed: seq<int> := [];
    for k := 0 to |done|
      invariant completed == Succeeded(done[..k], outcome)
    {
      assert done[..k + 1][..k] == done[..k];
      var result := ProcessHourWorker(done[k], outcome(done[k]));
      if TupleLength(result) == 2 {
        completed := completed + [result.hour];
      }
    }
    assert done[..|done|] == done;
    manifestHours := Sort(completed);
    ManifestHoursFast(a, b, done, outcome);
    SucceededMembers(HoursList(a, b), outcome);
    HoursListMeaning(a, b);
  }

  /** An hour is in the sub-list exactly when it is in the list and
      succeeds. */
  lemma {:induction false} SucceededMembers(hours: seq<int>, outcome: int -> Result<int>)
    ensures forall h :: h in Succeeded(hours, outcome) <==> h in hours && outcome(h).Ok?
  {
    forall h ensures h in Succeeded(hours, outcome) <==> h in hours && outcome(h).Ok? {
      SucceededCount(hours, outcome, h);
      assert h in Succeeded(hours, outcome) <==> multiset(Succeeded(hours, outcome))[h] > 0;
      assert h in hours <==> multiset(hours)[h] > 0;
    }
  }

  /** `generate` (cache mode): hour 0 is loaded and exported outside any
      `try`, so its failure ends the run; then hours max(1, a) to b are
      tried one by one and the ones that succeed are listed after it. */
  method GenerateCacheHours(a: int, b: int, outcome: int -> Result<int>) returns (r: Result<seq<int>>)
    ensures outcome(0).Err? ==> r == Err(outcome(0).error)
    ensures outcome(0).Ok? ==> r == Ok([0] + Succeeded(HoursList(if a > 1 then a else 1, b), outcome))
    ensures r.Ok? ==> |r.value| > 0 && r.value[0] == 0 && IsSorted(r.value)
  {
    if outcome(0).Err? {
      return Err(outcome(0).error);
    }
    var completed := [0];
    var first := if a > 1 then a else 1;
    var hour := first;
    while hour <= b
      invariant first <= hour <= (if b + 1 > first then b + 1 else first)
      invariant completed == [0] + Succeeded(HoursList(first, hour - 1), outcome)
    {
      HoursListSnoc(first, hour);
      if outcome(hour).Ok? {
        completed := completed + [hour];
      }
      hour := hour + 1;
    }
    assert HoursList(first, hour - 1) == HoursList(first, b);
    var tail := Succeeded(HoursList(first, b), outcome);
    HoursListMeaning(first, b);
    SucceededSorted(HoursList(first, b), outcome);
    SucceededMembers(HoursList(first, b), outcome);
    ConsSorted(0, tail);
    SortOfSorted(completed);
    r := Ok(Sort(completed));
  }

  lemma HoursListSnoc(a: int, h: int)
    requires a <= h
    ensures HoursList(a, h) == HoursList(a, h - 1) + [h]
  {
  }
}
