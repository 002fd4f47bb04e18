/** `fetch_sscofs.py`: the SSCOFS file URL for a run date, cycle and hour,
    the choice of the newest run cycle for a UTC time, and the validation
    and clamping that turn a wanted time into a forecast hour of that run.
    Time-zone conversion is an oracle; downloading and plotting are not part
    of this model. */
module FetchSscofs {
  import opened Wrappers
  import opened Text
  import opened Numeric
  import opened Calendar

  const BucketPrefix := "https://noaa-nos-ofs-pds.s3.amazonaws.com/sscofs/netcdf/"

  /** The UTC hours at which SSCOFS runs start, ascending. */
  const RunCycles: seq<int> := [0, 3, 9, 15, 21]

  predicate ValidCycle(c: int) {
    c in RunCycles
  }

  /** The hour of a `datetime`. */
  type Hour = h: int | 0 <= h < 24

  /** Minutes, seconds and microseconds, as a fraction of an hour. */
  type Fraction = r: real | 0.0 <= r < 1.0

  /** A UTC `datetime`: its date, its hour and what lies past the hour. */
  datatype Moment = Moment(date: Day, hour: Hour, frac: Fraction)

  // ------------------------------------------------------------------ URLs

  /** `sscofs.t{CC}z.{YYYYMMDD}.{product}.{n|f}{HHH}.nc`. */
  function FileName(date: Date, cycle: int, hour: int, product: string, nowcast: bool): string {
    "sscofs.t" + FormatInt(cycle, 2) + "z." + Compact(date) + "." + product + "." +
    (if nowcast then "n" else "f") + FormatInt(hour, 3) + ".nc"
  }

  /** `build_sscofs_url`: ValueError unless the date parses as `%Y-%m-%d`
      and the cycle is one of the five run hours; otherwise the bucket
      prefix, the `%Y/%m/%d` directory and the file name. */
  function BuildSscofsUrl(dateStr: string, cycle: int, hour: int, product: string, nowcast: bool)
    : (r: Result<string>)
    ensures r.Err? <==> ParseDate(dateStr).None? || !ValidCycle(cycle)
    ensures r.Err? ==> r.error == "ValueError"
    ensures r.Ok? ==> StartsWith(r.value, BucketPrefix) && EndsWith(r.value, ".nc")
  {
    var d := ParseDate(dateStr);
    if d.None? then Err("ValueError")
    else if !ValidCycle(cycle) then Err("ValueError")
    else
      var name := FileName(d.value, cycle, hour, product, nowcast);
      var url := BucketPrefix + (SlashPath(d.value) + "/" + name);
      assert url[..|BucketPrefix|] == BucketPrefix;
      assert url[|url| - 3..] == name[|name| - 3..];
      Ok(url)
  }

  /** For a date written by `isoformat` and a run cycle the URL always
      exists and points into that date's directory. */
  lemma BuildSscofsUrlForDay(d: Day, cycle: int, hour: int, product: string, nowcast: bool)
    requires ValidCycle(cycle)
    ensures BuildSscofsUrl(IsoFormat(d), cycle, hour, product, nowcast) ==
      Ok(BucketPrefix + (SlashPath(d) + "/" + FileName(d, cycle, hour, product, nowcast)))
  {
    ParseIsoFormat(d);
  }

  lemma Year2025()
    ensures FormatInt(2025, 4) == "2025"
  {
    assert NatDigits(202) == "202" by {
      assert NatDigits(20) == "20";
    }
  }

  lemma Year2024()
    ensures FormatInt(2024, 4) == "2024"
  {
    assert NatDigits(202) == "202" by {
      assert NatDigits(20) == "20";
    }
  }

  lemma IsoFormatJuly31()
    ensures IsoFormat(Date(2025, 7, 31)) == "2025-07-31"
    ensures SlashPath(Date(2025, 7, 31)) == "2025/07/31" && Compact(Date(2025, 7, 31)) == "20250731"
  {
    Year2025();
    TwoDigits(7);
    TwoDigits(31);
  }

  lemma IsoFormatNov19()
    ensures IsoFormat(Date(2024, 11, 19)) == "2024-11-19"
    ensures SlashPath(Date(2024, 11, 19)) == "2024/11/19" && Compact(Date(2024, 11, 19)) == "20241119"
  {
    Year2024();
    TwoDigits(11);
    TwoDigits(19);
  }

  lemma {:induction false} ThreeDigits(n: int)
    requires 0 <= n < 100
    ensures FormatInt(n, 3) == "0" + FormatInt(n, 2)
  {
    assert Zeros(1) == "0";
    if n < 10 {
      assert Zeros(2) == "0" + Zeros(1);
      assert FormatInt(n, 3) == "0" + Zeros(1) + NatDigits(n);
    }
  }

  /** The two examples of the function's documentation. */
  lemma BuildSscofsUrlExamples()
    ensures BuildSscofsUrl("2025-07-31", 3, 3, "fields", false) ==
      Ok(BucketPrefix + ("2025/07/31/" + "sscofs.t03z.20250731.fields.f003.nc"))
    ensures BuildSscofsUrl("2024-11-19", 21, 0, "fields", true) ==
      Ok(BucketPrefix + ("2024/11/19/" + "sscofs.t21z.20241119.fields.n000.nc"))
  {
    ExampleForecast();
    ExampleNowcast();
  }

  lemma ExampleForecast()
    ensures BuildSscofsUrl("2025-07-31", 3, 3, "fields", false) ==
      Ok(BucketPrefix + ("2025/07/31/" + "sscofs.t03z.20250731.fields.f003.nc"))
  {
    var d := Date(2025, 7, 31);
    IsoFormatJuly31();
    BuildSscofsUrlForDay(d, 3, 3, "fields", false);
    ForecastFileName();
    assert SlashPath(d) + "/" == "2025/07/31/";
    assert BuildSscofsUrl("2025-07-31", 3, 3, "fields", false) == BuildSscofsUrl(IsoFormat(d), 3, 3, "fields", false);
  }

  lemma ForecastFileName()
    ensures FileName(Date(2025, 7, 31), 3, 3, "fields", false) == "sscofs.t03z.20250731.fields.f003.nc"
  {
    IsoFormatJuly31();
    TwoDigits(3);
    ThreeDigits(3);
    assert FormatInt(3, 2) == "03" && FormatInt(3, 3) == "003";
    assert "sscofs.t" + "03" == "sscofs.t03";
    assert "sscofs.t03" + "z." == "sscofs.t03z.";
    assert "sscofs.t03z." + "20250731" == "sscofs.t03z.20250731";
    assert "sscofs.t03z.20250731" + "." == "sscofs.t03z.20250731.";
    assert "sscofs.t03z.20250731." + "fields" == "sscofs.t03z.20250731.fields";
    assert "sscofs.t03z.20250731.fields" + "." == "sscofs.t03z.20250731.fields.";
    assert "sscofs.t03z.20250731.fields." + "f" == "sscofs.t03z.20250731.fields.f";
    assert "sscofs.t03z.20250731.fields.f" + "003" == "sscofs.t03z.20250731.fields.f003";
  }

  lemma ExampleNowcast()
    ensures BuildSscofsUrl("2024-11-19", 21, 0, "fields", true) ==
      Ok(BucketPrefix + ("2024/11/19/" + "sscofs.t21z.20241119.fields.n000.nc"))
  {
    var d := Date(2024, 11, 19);
    IsoFormatNov19();
    BuildSscofsUrlForDay(d, 21, 0, "fields", true);
    NowcastFileName();
    assert SlashPath(d) + "/" == "2024/11/19/";
    assert BuildSscofsUrl("2024-11-19", 21, 0, "fields", true) == BuildSscofsUrl(IsoFormat(d), 21, 0, "fields", true);
  }

  lemma NowcastFileName()
    ensures FileName(Date(2024, 11, 19), 21, 0, "fields", true) == "sscofs.t21z.20241119.fields.n000.nc"
  {
    IsoFormatNov19();
    TwoDigits(21);
    TwoDigits(0);
    ThreeDigits(0);
    assert FormatInt(21, 2) == "21" && FormatInt(0, 3) == "000";
    assert "sscofs.t" + "21" == "sscofs.t21";
    assert "sscofs.t21" + "z." == "sscofs.t21z.";
    assert "sscofs.t21z." + "20241119" == "sscofs.t21z.20241119";
    assert "sscofs.t21z.20241119" + "." == "sscofs.t21z.20241119.";
    assert "sscofs.t21z.20241119." + "fields" == "sscofs.t21z.20241119.fields";
    assert "sscofs.t21z.20241119.fields" + "." == "sscofs.t21z.20241119.fields.";
    assert "sscofs.t21z.20241119.fields." + "n" == "sscofs.t21z.20241119.fields.n";
    assert "sscofs.t21z.20241119.fields.n" + "000" == "sscofs.t21z.20241119.fields.n000";
  }

  // ---------------------------------------------------------- cycle choice

  /** The newest run cycle that has started by hour `h` of the same day. */
  function LatestCycleHour(h: Hour): (c: int)
    ensures ValidCycle(c) && c <= h
    ensures forall k :: 0 <= k < |RunCycles| && RunCycles[k] <= h ==> RunCycles[k] <= c
  {
    if h >= 21 then 21 else if h >= 15 then 15 else if h >= 9 then 9 else if h >= 3 then 3 else 0
  }

  /** `_latest_cycle_for_time`: the cycles are tried newest first and the
      first one not after the hour is taken, on the same date. Since 0 is a
      cycle the loop always returns, and the previous-day fallback after it
      is dead code; `None` would stand for the OverflowError of stepping
      back from 1 January of year 1. */
  method LatestCycleForTime(date: Day, hour: Hour) returns (runDate: Option<Day>, cycle: int)
    ensures runDate == Some(date) && cycle == LatestCycleHour(hour)
  {
    var i := |RunCycles|;
    while i > 0
      invariant 0 <= i <= |RunCycles|
      invariant i < |RunCycles| ==> hour < RunCycles[i]
      invariant forall k :: i <= k < |RunCycles| ==> hour < RunCycles[k]
    {
      i := i - 1;
      if hour >= RunCycles[i] {
        return Some(date), RunCycles[i];
      }
    }
    assert false;
    runDate, cycle := PrevDay(date), 21;
  }

  // ------------------------------------------------- file for a local hour

  /** The time-zone computation of `compute_latest_file_for_local_hour`:
      for a run date, cycle and local hour, the hours from the cycle start
      to that local hour on the cycle start's local date. */
  type LocalDiff = (Day, int, int) -> real

  datatype LatestFile = LatestFile(url: string, runDate: Day, cycle: int, index: int)

  /** Hours from the cycle start to the wanted local hour: the zone's
      difference moved forward a day when negative, or, with no zone data,
      the hour difference modulo 24 (local time taken as UTC). */
  function LeadToLocal(zone: Option<LocalDiff>, runDate: Day, cycle: int, localHour: int): (r: real)
    ensures zone.None? ==> 0.0 <= r < 24.0
    ensures zone.Some? && -24.0 <= zone.value(runDate, cycle, localHour) < 24.0 ==> 0.0 <= r < 24.0
    ensures zone.Some? ==> r == zone.value(runDate, cycle, localHour) || r == zone.value(runDate, cycle, localHour) + 24.0
  {
    match zone
      case Some(diff) =>
        var h := diff(runDate, cycle, localHour);
        if h < 0.0 then h + 24.0 else h
      case None => ((localHour - cycle) % 24) as real
  }

  /** `compute_latest_file_for_local_hour`: ValueError for a naive `now` or
      a local hour outside 0..23; otherwise the newest cycle of `now`'s UTC
      date, the lead to the local hour truncated toward zero and capped at
      `maxHours` (only from above), and the forecast URL, which always
      exists. */
  method ComputeLatestFileForLocalHour(now: Moment, aware: bool, localHour: int,
                                       zone: Option<LocalDiff>, maxHours: int)
    returns (r: Result<LatestFile>)
    ensures r.Ok? <==> aware && 0 <= localHour <= 23
    ensures r.Err? ==> r.error == "ValueError"
    ensures r.Ok? ==>
      r.value.runDate == now.date && r.value.cycle == LatestCycleHour(now.hour) &&
      r.value.index <= maxHours &&
      r.value.index == (var lead := Trunc(LeadToLocal(zone, now.date, r.value.cycle, localHour));
                        if lead > maxHours then maxHours else lead) &&
      BuildSscofsUrl(IsoFormat(now.date), r.value.cycle, r.value.index, "fields", false) == Ok(r.value.url)
  {
    if !aware || !(0 <= localHour <= 23) {
      return Err("ValueError");
    }
    var runDate, cycle := LatestCycleForTime(now.date, now.hour);
    var index := Trunc(LeadToLocal(zone, runDate.value, cycle, localHour));
    if index > maxHours {
      index := maxHours;
    }
    BuildSscofsUrlForDay(runDate.value, cycle, index, "fields", false);
    var url := BuildSscofsUrl(IsoFormat(runDate.value), cycle, index, "fields", false);
    r := Ok(LatestFile(url.value, runDate.value, cycle, index));
  }

  /** Without zone data, and with a horizon of at least a day, the chosen
      forecast hour lands on the wanted hour: the cycle hour plus the index
      is the local hour modulo 24, with the index within a day. */
  lemma LocalHourFallback(cycle: int, localHour: int, maxHours: int, d: Day)
    requires ValidCycle(cycle) && 0 <= localHour <= 23 && maxHours >= 23
    ensures var lead := Trunc(LeadToLocal(None, d, cycle, localHour));
      0 <= lead < 24 && lead <= maxHours && (cycle + lead) % 24 == localHour
  {
    var m := (localHour - cycle) % 24;
    assert Trunc(m as real) == m;
  }

  // ------------------------------------------------- file for a date-time

  datatype FileInfo = FileInfo(url: string, runDateUtc: string, cycleUtc: string, index: int)

  /** The forecast-hour bounds of `compute_file_for_datetime`: below zero
      becomes zero, otherwise above the horizon becomes the horizon. */
  function ClampIndex(v: int, maxHours: int): (r: int)
    ensures 0 <= maxHours ==> 0 <= r <= maxHours
    ensures 0 <= v <= maxHours ==> r == v
    ensures v < 0 ==> r == 0
    ensures 0 <= v && maxHours < v ==> r == maxHours
  {
    if v < 0 then 0 else if v > maxHours then maxHours else v
  }

  /** Hours from the start of the moment's newest cycle to the moment. */
  function LeadHours(t: Moment): (h: real)
    ensures 0.0 <= h < 24.0
  {
    (t.hour - LatestCycleHour(t.hour)) as real + t.frac
  }

  /** The cycle before `c`, stepping over midnight to 21z. */
  function PreviousCycle(c: int): int {
    if c == 21 then 15 else if c == 15 then 9 else if c == 9 then 3 else if c == 3 then 0 else 21
  }

  /** `compute_file_for_datetime` from the target's UTC time: the newest
      cycle of the target's date, the override or else the rounded lead
      hours, each clamped into [0, `maxHours`], the URL (which always
      exists), the run date in ISO form and the cycle as "CCz". */
  method ComputeFileForDatetime(target: Moment, maxHours: int, override: Option<int>)
    returns (r: FileInfo)
    ensures r.runDateUtc == IsoFormat(target.date) && ParseDate(r.runDateUtc) == Some(target.date)
    ensures |r.cycleUtc| == 3 && r.cycleUtc == FormatInt(LatestCycleHour(target.hour), 2) + "z"
    ensures override.Some? ==> r.index == ClampIndex(override.value, maxHours)
    ensures override.None? ==> r.index == ClampIndex(RoundHalfEven(LeadHours(target)), maxHours)
    ensures 0 <= maxHours ==> 0 <= r.index <= maxHours
    ensures BuildSscofsUrl(r.runDateUtc, LatestCycleHour(target.hour), r.index, "fields", false) == Ok(r.url)
  {
    var runDate, cycle := LatestCycleForTime(target.date, target.hour);
    var hours := (target.hour - cycle) as real + target.frac;
    if hours < 0.0 {
      // The cycle never starts after the target, so this step back to the
      // previous cycle does not happen.
      assert false;
      if cycle == 0 {
        runDate := match runDate case Some(d) => PrevDay(d) case None => None;
      }
      cycle := PreviousCycle(cycle);
      hours := (target.hour - cycle) as real + target.frac + (if cycle == 21 then 24.0 else 0.0);
    }
    assert runDate == Some(target.date) && cycle == LatestCycleHour(target.hour) && hours == LeadHours(target);
    var index: int;
    if override.Some? {
      index := ClampIndex(override.value, maxHours);
    } else {
      index := ClampIndex(RoundHalfEven(hours), maxHours);
    }
    var d := runDate.value;
    RunLabels(d, cycle, index);
    var url := BuildSscofsUrl(IsoFormat(d), cycle, index, "fields", false);
    r := FileInfo(url.value, IsoFormat(d), FormatInt(cycle, 2) + "z", index);
  }

  /** The run date and cycle labels of a file and its URL: the date reads
      back, the cycle label has three characters, the URL exists. */
  lemma RunLabels(d: Day, cycle: int, index: int)
    requires ValidCycle(cycle)
    ensures ParseDate(IsoFormat(d)) == Some(d)
    ensures |FormatInt(cycle, 2) + "z"| == 3
    ensures BuildSscofsUrl(IsoFormat(d), cycle, index, "fields", false).Ok?
  {
    BuildSscofsUrlForDay(d, cycle, index, "fields", false);
    ParseIsoFormat(d);
    TwoDigits(cycle);
  }

  /** Within the horizon and without an override, the chosen forecast hour
      is the one nearest the target. */
  lemma FileForDatetimeNearest(target: Moment, maxHours: int)
    requires LeadHours(target) + 0.5 <= maxHours as real
    ensures var i := ClampIndex(RoundHalfEven(LeadHours(target)), maxHours);
      -0.5 <= LeadHours(target) - i as real <= 0.5 && i >= 0
  {
  }
}
