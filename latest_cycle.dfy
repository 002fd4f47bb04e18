/** `latest_cycle.py`: the newest SSCOFS cycle present in a bucket listing,
    the search for it from today back a few days, the forecast hour for a
    local clock time, and the URL of that forecast. The bucket listing and
    the clock are parameters; time-zone conversion is an oracle. */
module LatestCycle {
  import opened Wrappers
  import opened Text
  import opened Calendar
  import opened FetchSscofs

  /** The cycles observed in the bucket, ascending. */
  const ObservedCycles: seq<int> := [3, 9, 15, 21]

  // ------------------------------------------------------------- key names

  /** The four groups of a `KEY_RE` match, as text. */
  datatype KeyParts = KeyParts(cycle: string, date: string, tag: char, hour: string)

  /** `sscofs\.t(\d{2})z\.(\d{8})\.fields\.([nf])(\d{3})\.nc`, which matches
      exactly 35 characters. */
  predicate KeyWindow(w: string) {
    |w| == 35 && w[..8] == "sscofs.t" && AllDigits(w[8..10]) && w[10..12] == "z." &&
    AllDigits(w[12..20]) && w[20..28] == ".fields." && (w[28] == 'n' || w[28] == 'f') &&
    AllDigits(w[29..32]) && w[32..] == ".nc"
  }

  function WindowParts(w: string): KeyParts
    requires |w| == 35
  {
    KeyParts(w[8..10], w[12..20], w[28], w[29..32])
  }

  /** `KEY_RE.search(k)`: the pattern ends in `$`, which matches at the end
      of the key or just before a final newline, so the only candidates are
      the last 35 characters and the 35 before a final newline. */
  function KeyMatch(k: string): (r: Option<KeyParts>)
    ensures r.Some? ==> |r.value.cycle| == 2 && AllDigits(r.value.cycle) && |r.value.hour| == 3 &&
                        AllDigits(r.value.hour) && |r.value.date| == 8 && (r.value.tag == 'n' || r.value.tag == 'f')
    ensures r.Some? ==> EndsWith(k, ".nc") || EndsWith(k, ".nc\n")
  {
    if |k| >= 35 && KeyWindow(k[|k| - 35..]) then
      var w := k[|k| - 35..];
      WindowPartsShape(w);
      assert k[|k| - 3..] == w[32..];
      Some(WindowParts(w))
    else if |k| >= 36 && k[|k| - 1] == '\n' && KeyWindow(k[|k| - 36..|k| - 1]) then
      var w := k[|k| - 36..|k| - 1];
      WindowPartsShape(w);
      assert k[|k| - 4..] == w[32..] + "\n";
      Some(WindowParts(w))
    else None
  }

  /** The groups of a matching window have the pattern's shapes. */
  lemma WindowPartsShape(w: string)
    requires KeyWindow(w)
    ensures var p := WindowParts(w);
            |p.cycle| == 2 && AllDigits(p.cycle) && |p.hour| == 3 && AllDigits(p.hour) &&
            |p.date| == 8 && (p.tag == 'n' || p.tag == 'f')
    ensures w[32..] == ".nc"
  {
  }

  /** `int(m.group(1))` for a key that matches. */
  function KeyCycle(k: string): Option<int> {
    match KeyMatch(k)
      case None => None
      case Some(p) => Some(DigitsValue(p.cycle))
  }

  /** A forecast file name laid out from its fields. */
  function KeyName(c: string, y: string, t: string, h: string): string {
    "sscofs.t" + c + "z." + y + ".fields." + t + h + ".nc"
  }

  /** The fields of a forecast file name sit at fixed offsets. */
  lemma KeyNameOffsets(c: string, y: string, t: string, h: string)
    requires |c| == 2 && |y| == 8 && |t| == 1 && |h| == 3
    ensures var w := KeyName(c, y, t, h);
      |w| == 35 && w[..8] == "sscofs.t" && w[8..10] == c && w[10..12] == "z." && w[12..20] == y &&
      w[20..28] == ".fields." && w[28] == t[0] && w[29..32] == h && w[32..] == ".nc"
  {
    var w := KeyName(c, y, t, h);
    var a := "sscofs.t" + c + "z.";
    var b := y + ".fields.";
    var e := t + h + ".nc";
    assert w == a + b + e;
    assert w[..12] == a && w[12..28] == b && w[28..] == e;
    assert w[..8] == a[..8] && w[8..10] == a[8..10] && w[10..12] == a[10..];
    assert w[12..20] == b[..8] && w[20..28] == b[8..];
    assert w[28] == e[0] && w[29..32] == e[1..4] && w[32..] == e[4..];
  }

  /** `FileName` for the "fields" product is that layout. */
  lemma FileNameLayout(d: Date, cycle: int, hour: int, nowcast: bool)
    ensures FileName(d, cycle, hour, "fields", nowcast) ==
      KeyName(FormatInt(cycle, 2), Compact(d), if nowcast then "n" else "f", FormatInt(hour, 3))
  {
    var x := "sscofs.t" + FormatInt(cycle, 2) + "z." + Compact(d);
    var t := if nowcast then "n" else "f";
    assert x + "." + "fields" + "." == x + ".fields.";
    assert FileName(d, cycle, hour, "fields", nowcast) == x + "." + "fields" + "." + t + FormatInt(hour, 3) + ".nc";
  }

  /** A forecast file name is a `KEY_RE` window with the fields it was
      written from. */
  lemma FileNameWindow(d: Day, cycle: int, hour: int, nowcast: bool)
    requires 0 <= cycle < 100 && 0 <= hour < 1000
    ensures var w := FileName(d, cycle, hour, "fields", nowcast);
      |w| == 35 && KeyWindow(w) &&
      WindowParts(w) == KeyParts(FormatInt(cycle, 2), Compact(d), if nowcast then 'n' else 'f', FormatInt(hour, 3))
  {
    var c, y, h := FormatInt(cycle, 2), Compact(d), FormatInt(hour, 3);
    var t := if nowcast then "n" else "f";
    FormatIntRoundTrip(cycle, 2);
    FormatIntRoundTrip(hour, 3);
    CompactDigits(d);
    FileNameLayout(d, cycle, hour, nowcast);
    KeyNameOffsets(c, y, t, h);
  }

  /** A `%Y%m%d` date is eight ASCII digits. */
  lemma CompactDigits(d: Day)
    ensures |Compact(d)| == 8 && AllDigits(Compact(d))
  {
    FormatIntRoundTrip(d.year, 4);
    TwoDigits(d.month);
    TwoDigits(d.day);
  }

  /** `KEY_RE` recovers the cycle, date, tag and hour from any key or URL
      ending in a forecast file name, so `newest_cycle_for_date` reads back
      the cycle `build_sscofs_url` wrote. */
  lemma KeyMatchFileName(prefix: string, d: Day, cycle: int, hour: int, nowcast: bool)
    requires 0 <= cycle < 100 && 0 <= hour < 1000
    ensures KeyMatch(prefix + FileName(d, cycle, hour, "fields", nowcast)) ==
      Some(KeyParts(FormatInt(cycle, 2), Compact(d), if nowcast then 'n' else 'f', FormatInt(hour, 3)))
    ensures KeyCycle(prefix + FileName(d, cycle, hour, "fields", nowcast)) == Some(cycle)
  {
    var w := FileName(d, cycle, hour, "fields", nowcast);
    FileNameWindow(d, cycle, hour, nowcast);
    var k := prefix + w;
    assert k[|k| - 35..] == w;
    FormatIntRoundTrip(cycle, 2);
  }

  // ---------------------------------------------------------- newest cycle

  /** The cycle numbers `cycleOf` finds in the keys: `present`. */
  function Present(cycleOf: string -> Option<int>, keys: seq<string>): set<int> {
    if keys == [] then {}
    else
      Present(cycleOf, keys[..|keys| - 1]) +
      (match cycleOf(keys[|keys| - 1]) case None => {} case Some(c) => {c})
  }

  function PresentCycles(keys: seq<string>): set<int> {
    Present(KeyCycle, keys)
  }

  /** A cycle is present exactly when some key names it. */
  lemma {:induction false} PresentMeaning(cycleOf: string -> Option<int>, keys: seq<string>, c: int)
    ensures c in Present(cycleOf, keys) <==> exists i :: 0 <= i < |keys| && cycleOf(keys[i]) == Some(c)
  {
    if keys != [] {
      var init := keys[..|keys| - 1];
      PresentMeaning(cycleOf, init, c);
      if c in Present(cycleOf, init) {
        var i :| 0 <= i < |init| && cycleOf(init[i]) == Some(c);
        assert keys[i] == init[i];
      }
      if exists i :: 0 <= i < |keys| && cycleOf(keys[i]) == Some(c) {
        var i :| 0 <= i < |keys| && cycleOf(keys[i]) == Some(c);
        if i < |init| {
          assert init[i] == keys[i];
        }
      }
    }
  }

  lemma PresentCyclesMeaning(keys: seq<string>, c: int)
    ensures c in PresentCycles(keys) <==> exists i :: 0 <= i < |keys| && KeyCycle(keys[i]) == Some(c)
  {
    PresentMeaning(KeyCycle, keys, c);
  }

  /** The observed cycles in a set, ascending: `sorted(c for c in present
      if c in CYCLES)`. */
  function Available(cs: seq<int>, present: set<int>): seq<int> {
    if cs == [] then [] else (if cs[0] in present then [cs[0]] else []) + Available(cs[1..], present)
  }

  lemma {:induction false} AvailableMembers(cs: seq<int>, present: set<int>, x: int)
    ensures x in Available(cs, present) <==> x in cs && x in present
  {
    if cs != [] {
      AvailableMembers(cs[1..], present, x);
      assert cs == [cs[0]] + cs[1..];
    }
  }

  /** From ascending cycles the filter keeps the largest for last. */
  lemma {:induction false} AvailableLastIsMax(cs: seq<int>, present: set<int>)
    requires forall i, j :: 0 <= i < j < |cs| ==> cs[i] < cs[j]
    ensures forall k :: 0 <= k < |Available(cs, present)| ==>
      Available(cs, present)[k] <= Available(cs, present)[|Available(cs, present)| - 1]
  {
    if cs != [] {
      var rest := Available(cs[1..], present);
      AvailableLastIsMax(cs[1..], present);
      if cs[0] in present && rest != [] {
        var last := rest[|rest| - 1];
        AvailableMembers(cs[1..], present, last);
        var k :| 0 <= k < |cs[1..]| && cs[1..][k] == last;
        assert cs[k + 1] == last;
        var r := [cs[0]] + rest;
        assert r[|r| - 1] == last;
        assert forall k :: 1 <= k < |r| ==> r[k] == rest[k - 1];
      }
    }
  }

  /** The newest observed cycle in a set of present cycles. */
  function NewestOf(present: set<int>): Option<int> {
    var av := Available(ObservedCycles, present);
    if av == [] then None else Some(av[|av| - 1])
  }

  /** It is the largest observed cycle present, and exists exactly when one
      is present. */
  lemma NewestOfMeaning(present: set<int>)
    ensures var r := NewestOf(present);
      (r.Some? <==> exists c :: c in ObservedCycles && c in present) &&
      (r.Some? ==> (r.value in ObservedCycles && r.value in present &&
                    forall c :: c in ObservedCycles && c in present ==> c <= r.value))
  {
    var av := Available(ObservedCycles, present);
    forall x {
      AvailableMembers(ObservedCycles, present, x);
    }
    AvailableLastIsMax(ObservedCycles, present);
    if av != [] {
      assert av[|av| - 1] in av;
      forall c | c in av
        ensures c <= av[|av| - 1]
      {
        var k :| 0 <= k < |av| && av[k] == c;
        assert av[k] <= av[|av| - 1];
      }
    }
  }

  /** `newest_cycle_for_date`'s answer for the listed keys. */
  function Newest(keys: seq<string>): Option<int> {
    NewestOf(PresentCycles(keys))
  }

  /** `newest_cycle_for_date` answers the largest observed cycle that some
      key names, and `None` exactly when no key names one. */
  lemma NewestMeaning(keys: seq<string>)
    ensures Newest(keys).None? <==>
      forall i :: 0 <= i < |keys| && KeyCycle(keys[i]).Some? ==> KeyCycle(keys[i]).value !in ObservedCycles
    ensures Newest(keys).Some? ==>
      Newest(keys).value in ObservedCycles &&
      (exists i :: 0 <= i < |keys| && KeyCycle(keys[i]) == Newest(keys)) &&
      forall i :: 0 <= i < |keys| && KeyCycle(keys[i]).Some? && KeyCycle(keys[i]).value in ObservedCycles ==>
        KeyCycle(keys[i]).value <= Newest(keys).value
  {
    var present := PresentCycles(keys);
    NewestOfMeaning(present);
    forall c {
      PresentCyclesMeaning(keys, c);
    }
    forall i | 0 <= i < |keys| && KeyCycle(keys[i]).Some?
      ensures KeyCycle(keys[i]).value in present
    {
    }
  }

  /** `newest_cycle_for_date` on the listed keys: the set of matching
      cycles is gathered key by key, then the newest observed one taken. */
  method NewestCycleForDate(keys: seq<string>) returns (cyc: Option<int>, listed: seq<string>)
    ensures cyc == Newest(keys) && listed == keys
  {
    var present: set<int> := {};
    for i := 0 to |keys|
      invariant present == Present(KeyCycle, keys[..i])
    {
      assert keys[..i + 1][..i] == keys[..i];
      var m := KeyCycle(keys[i]);
      if m.Some? {
        present := present + {m.value};
      }
    }
    assert keys[..|keys|] == keys;
    var available := Available(ObservedCycles, present);
    cyc := if available == [] then None else Some(available[|available| - 1]);
    assert cyc == NewestOf(present);
    listed := keys;
  }

  // ------------------------------------------------------- search by date

  /** The bucket listing for a date; `None` is an HTTPError. */
  type Lister = Date -> Option<seq<string>>

  /** What one pass of `find_latest_cycle`'s loop finds on the day `i`
      days back. */
  datatype Probe = Overflow | Skip | Hit(found: (Day, int, seq<string>))

  /** The day `i` days back: OverflowError when it leaves the calendar; a
      skip when its listing fails (HTTPError, caught) or names no observed
      cycle; otherwise the date, its newest cycle and the keys. */
  function ProbeDay(today: Day, lister: Lister, i: nat): Probe {
    match DaysBack(today, i)
      case None => Overflow
      case Some(d) =>
        match lister(d)
          case None => Skip
          case Some(keys) =>
            match Newest(keys)
              case Some(c) => Hit((d, c, keys))
              case None => Skip
  }

  predicate Skipped(today: Day, lister: Lister, i: nat) {
    ProbeDay(today, lister, i) == Skip
  }

  /** The outcome of `find_latest_cycle`'s loop from day `i` back on. */
  function Search(today: Day, lister: Lister, i: nat, n: nat): Result<(Day, int, seq<string>)>
    decreases n - i
  {
    if i >= n then Err("RuntimeError")
    else match ProbeDay(today, lister, i)
      case Overflow => Err("OverflowError")
      case Skip => Search(today, lister, i + 1, n)
      case Hit(found) => Ok(found)
  }

  /** The search fails with RuntimeError exactly when every day from `i`
      up to `n` is skipped. */
  lemma {:induction false} SearchNotFound(today: Day, lister: Lister, i: nat, n: nat)
    ensures Search(today, lister, i, n) == Err("RuntimeError") <==> forall j :: i <= j < n ==> Skipped(today, lister, j)
    decreases n - i
  {
    if i < n {
      SearchNotFound(today, lister, i + 1, n);
      if Skipped(today, lister, i) {
        assert Search(today, lister, i, n) == Search(today, lister, i + 1, n);
        if (forall j :: i + 1 <= j < n ==> Skipped(today, lister, j)) {
          assert forall j :: i <= j < n ==> Skipped(today, lister, j);
        }
      } else {
        assert !(forall j :: i <= j < n ==> Skipped(today, lister, j));
      }
    }
  }

  /** A day `j` at or after `i` days back whose listing names an observed
      cycle, with every day before it skipped. */
  predicate FoundAt(today: Day, lister: Lister, i: nat, j: int, found: (Day, int, seq<string>)) {
    i <= j && ProbeDay(today, lister, j) == Hit(found) &&
    forall j' :: i <= j' < j ==> Skipped(today, lister, j')
  }

  /** A hit is a date that many days back whose listing's newest observed
      cycle is the one reported. */
  lemma HitMeaning(today: Day, lister: Lister, j: nat, found: (Day, int, seq<string>))
    requires ProbeDay(today, lister, j) == Hit(found)
    ensures DaysBack(today, j) == Some(found.0) && lister(found.0) == Some(found.2) &&
      Newest(found.2) == Some(found.1) && found.1 in ObservedCycles
  {
    NewestOfMeaning(PresentCycles(found.2));
  }

  /** A successful search returns the first day, counting back from `i`,
      whose listing names an observed cycle, with that day's newest one. */
  lemma {:induction false} SearchFound(today: Day, lister: Lister, i: nat, n: nat)
    ensures var r := Search(today, lister, i, n);
      r.Ok? ==> exists j :: j < n && FoundAt(today, lister, i, j, r.value)
    decreases n - i
  {
    var r := Search(today, lister, i, n);
    if i < n && r.Ok? {
      if Skipped(today, lister, i) {
        SearchFound(today, lister, i + 1, n);
        assert r == Search(today, lister, i + 1, n);
        var j :| j < n && FoundAt(today, lister, i + 1, j, r.value);
        forall j' | i <= j' < j
          ensures Skipped(today, lister, j')
        {
          if j' > i {
            assert i + 1 <= j' < j;
          }
        }
        assert FoundAt(today, lister, i, j, r.value);
      } else {
        assert FoundAt(today, lister, i, i, r.value);
      }
    }
  }

  /** `find_latest_cycle(max_days_back)` with today's UTC date and the
      bucket listing given: it tries today and up to `maxDaysBack` earlier
      days, skipping a day whose listing fails, and raises RuntimeError when
      none has a cycle (OverflowError when stepping back leaves the
      calendar). */
  method FindLatestCycle(today: Day, lister: Lister, maxDaysBack: int)
    returns (r: Result<(Day, int, seq<string>)>)
    ensures r == Search(today, lister, 0, if maxDaysBack + 1 < 0 then 0 else maxDaysBack + 1)
  {
    var n: nat := if maxDaysBack + 1 < 0 then 0 else maxDaysBack + 1;
    for i := 0 to n
      invariant Search(today, lister, 0, n) == Search(today, lister, i, n)
    {
      var p := TryDay(today, lister, i);
      match p
      case Overflow => return Err("OverflowError");
      case Skip =>
      case Hit(found) => return Ok(found);
    }
    r := Err("RuntimeError");
  }

  /** One pass of `find_latest_cycle`'s loop: the date `i` days back, its
      listing (an HTTPError skips the day) and its newest cycle. */
  method TryDay(today: Day, lister: Lister, i: nat) returns (p: Probe)
    ensures p == ProbeDay(today, lister, i)
  {
    var d := DaysBack(today, i);
    if d.None? {
      return Overflow;
    }
    var listing := lister(d.value);
    if listing.None? {
      return Skip;
    }
    var cyc, keys := NewestCycleForDate(listing.value);
    if cyc.Some? {
      return Hit((d.value, cyc.value, keys));
    }
    return Skip;
  }

  // --------------------------------------------------------- forecast hour

  /** The time-zone computation of `pick_forecast_for_local_hour`: hours
      from the cycle start on the run date to the local clock time on the
      same date. */
  type LeadOracle = (Day, int, int, int) -> real

  /** `pick_forecast_for_local_hour`: the clock time `HHMM` is split with
      floor division, `datetime` raises ValueError for an hour outside
      0..23 or a minute above 59 (and for a cycle hour outside 0..23), and
      the floor of the lead hours is clipped to [0, 72]. */
  function PickForecastForLocalHour(localHhmm: int, runDate: Day, cycle: int, lead: LeadOracle)
    : (r: Result<int>)
    ensures r.Err? <==> !(0 <= localHhmm / 100 <= 23) || localHhmm % 100 > 59 || !(0 <= cycle <= 23)
    ensures r.Err? ==> r.error == "ValueError"
    ensures r.Ok? ==> 0 <= r.value <= 72
    ensures r.Ok? ==>
      var l := lead(runDate, localHhmm / 100, localHhmm % 100, cycle);
      (0.0 <= l < 73.0 ==> r.value as real <= l < r.value as real + 1.0) &&
      (l < 0.0 ==> r.value == 0) && (73.0 <= l ==> r.value == 72)
  {
    var hh := localHhmm / 100;
    var mm := localHhmm % 100;
    if !(0 <= hh <= 23) || mm > 59 || !(0 <= cycle <= 23) then Err("ValueError")
    else
      var hhh := lead(runDate, hh, mm, cycle).Floor;
      var low := if hhh < 0 then 0 else hhh;
      Ok(if low > 72 then 72 else low)
  }

  /** `build_url`: the forecast or nowcast URL for a run. */
  function BuildUrl(runDate: Date, cycle: int, isForecast: bool, hourIndex: int): string {
    "https://noaa-nos-ofs-pds.s3.amazonaws.com/sscofs/netcdf/" + (SlashPath(runDate) + "/" +
    KeyName(FormatInt(cycle, 2), Compact(runDate), if isForecast then "f" else "n", FormatInt(hourIndex, 3)))
  }

  /** `build_url` and `build_sscofs_url` agree on every run cycle: the two
      scripts address the same file. */
  lemma BuildUrlAgrees(d: Day, cycle: int, isForecast: bool, hourIndex: int)
    requires ValidCycle(cycle)
    ensures BuildSscofsUrl(IsoFormat(d), cycle, hourIndex, "fields", !isForecast) ==
      Ok(BuildUrl(d, cycle, isForecast, hourIndex))
  {
    BuildSscofsUrlForDay(d, cycle, hourIndex, "fields", !isForecast);
    FileNameLayout(d, cycle, hourIndex, !isForecast);
  }

  datatype CycleInfo = CycleInfo(runDateUtc: string, cycleUtc: string, index: int, url: string)

  /** `latest_cycle_and_url_for_local_hour`: the newest cycle found by the
      search, the forecast hour for the clock time, and the forecast URL,
      from which `KEY_RE` reads the cycle back. */
  method LatestCycleAndUrlForLocalHour(localHhmm: int, today: Day, lister: Lister, lead: LeadOracle)
    returns (r: Result<CycleInfo>)
    ensures var s := Search(today, lister, 0, 4);
      (s.Err? ==> r == Err(s.error)) &&
      (s.Ok? ==> var p := PickForecastForLocalHour(localHhmm, s.value.0, s.value.1, lead);
        (p.Err? ==> r == Err(p.error)) &&
        (p.Ok? ==> (r.Ok? &&
          r.value.runDateUtc == IsoFormat(s.value.0) && ParseDate(r.value.runDateUtc) == Some(s.value.0) &&
          r.value.cycleUtc == FormatInt(s.value.1, 2) + "z" &&
          r.value.index == p.value &&
          r.value.url == BuildUrl(s.value.0, s.value.1, true, p.value) &&
          KeyCycle(r.value.url) == Some(s.value.1))))
  {
    var found := FindLatestCycle(today, lister, 3);
    if found.Err? {
      return Err(found.error);
    }
    var (runDate, cycle, keys) := found.value;
    var hhh := PickForecastForLocalHour(localHhmm, runDate, cycle, lead);
    if hhh.Err? {
      return Err(hhh.error);
    }
    var url := BuildUrl(runDate, cycle, true, hhh.value);
    SearchFound(today, lister, 0, 4);
    var j :| j < 4 && FoundAt(today, lister, 0, j, found.value);
    HitMeaning(today, lister, j, found.value);
    InfoFacts(runDate, cycle, hhh.value);
    r := Ok(CycleInfo(IsoFormat(runDate), FormatInt(cycle, 2) + "z", hhh.value, url));
  }

  /** The facts reported about a chosen run: the ISO date reads back and
      the URL's file name carries the cycle. */
  lemma InfoFacts(d: Day, cycle: int, index: int)
    requires cycle in ObservedCycles && 0 <= index <= 72
    ensures ParseDate(IsoFormat(d)) == Some(d)
    ensures KeyCycle(BuildUrl(d, cycle, true, index)) == Some(cycle)
  {
    ParseIsoFormat(d);
    assert 0 <= cycle < 100 && ValidCycle(cycle);
    BuildUrlAgrees(d, cycle, true, index);
    BuildSscofsUrlForDay(d, cycle, index, "fields", false);
    KeyMatchFileName(BucketPrefix + (SlashPath(d) + "/"), d, cycle, index, false);
    assert BuildUrl(d, cycle, true, index) ==
      BucketPrefix + (SlashPath(d) + "/") + FileName(d, cycle, index, "fields", false);
  }
}
