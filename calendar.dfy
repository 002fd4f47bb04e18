/** Calendar dates as Python's `datetime.date` holds them, the three
    renderings the SSCOFS scripts use (`isoformat`/`%Y-%m-%d`, `%Y/%m/%d`,
    `%Y%m%d`), `strptime(s, "%Y-%m-%d")`, and stepping one day back or
    forward. */
module Calendar {
  import opened Wrappers
  import opened Text

  datatype Date = Date(year: int, month: int, day: int)

  /** The proleptic Gregorian leap-year rule. */
  predicate LeapYear(y: int) {
    y % 4 == 0 && (y % 100 != 0 || y % 400 == 0)
  }

  function DaysInMonth(y: int, m: int): (n: int)
    requires 1 <= m <= 12
    ensures 28 <= n <= 31
  {
    if m == 2 then (if LeapYear(y) then 29 else 28)
    else if m == 4 || m == 6 || m == 9 || m == 11 then 30
    else 31
  }

  /** What `datetime.date` accepts: years 1 to 9999 and a day that exists
      in its month. */
  predicate ValidDate(d: Date) {
    1 <= d.year <= 9999 && 1 <= d.month <= 12 && 1 <= d.day <= DaysInMonth(d.year, d.month)
  }

  /** A `datetime.date` value. */
  type Day = d: Date | ValidDate(d) witness Date(1970, 1, 1)

  // ------------------------------------------------------------ rendering

  /** `d.isoformat()`, also `f"{d:%Y-%m-%d}"`. */
  function IsoFormat(d: Date): string {
    FormatInt(d.year, 4) + "-" + FormatInt(d.month, 2) + "-" + FormatInt(d.day, 2)
  }

  /** `d.strftime("%Y/%m/%d")`. */
  function SlashPath(d: Date): string {
    FormatInt(d.year, 4) + "/" + FormatInt(d.month, 2) + "/" + FormatInt(d.day, 2)
  }

  /** `d.strftime("%Y%m%d")`. */
  function Compact(d: Date): string {
    FormatInt(d.year, 4) + FormatInt(d.month, 2) + FormatInt(d.day, 2)
  }

  // -------------------------------------------------------------- parsing

  /** `%m` as `strptime` matches it: `1[0-2]|0[1-9]|[1-9]`. */
  predicate MonthText(t: string) {
    (|t| == 1 && '1' <= t[0] <= '9') ||
    (|t| == 2 && ((t[0] == '1' && '0' <= t[1] <= '2') || (t[0] == '0' && '1' <= t[1] <= '9')))
  }

  /** `%d` as `strptime` matches it: `3[01]|[12]\d|0[1-9]|[1-9]| [1-9]`. */
  predicate DayText(t: string) {
    (|t| == 1 && '1' <= t[0] <= '9') ||
    (|t| == 2 && ((t[0] == '3' && (t[1] == '0' || t[1] == '1')) ||
                  ((t[0] == '1' || t[0] == '2') && IsDigit(t[1])) ||
                  (t[0] == '0' && '1' <= t[1] <= '9') ||
                  (t[0] == ' ' && '1' <= t[1] <= '9')))
  }

  /** The digits of a day field, without the space of the " 5" form. */
  function Unspaced(t: string): (r: string)
    requires DayText(t)
    ensures AllDigits(r) && 1 <= |r| <= 2
  {
    if t[0] == ' ' then t[1..] else t
  }

  /** The date three `strptime` fields name, if they match `%Y`, `%m` and
      `%d` and the date exists. */
  function FieldsDate(y: string, m: string, d: string): (r: Option<Date>)
    ensures r.Some? ==> ValidDate(r.value)
  {
    if |y| != 4 || !AllDigits(y) || !MonthText(m) || !DayText(d) then None
    else
      var date := Date(DigitsValue(y), DigitsValue(m), DigitsValue(Unspaced(d)));
      if ValidDate(date) then Some(date) else None
  }

  /** `datetime.strptime(s, "%Y-%m-%d").date()`: four digits, a month field
      and a day field separated by hyphens (no field can hold a hyphen, so
      the split is the regular expression's), naming a date that exists;
      `None` where `strptime` raises ValueError. */
  function ParseDate(s: string): (r: Option<Date>)
    ensures r.Some? ==> ValidDate(r.value)
  {
    var parts := Split(s, '-');
    if |parts| != 3 then None else FieldsDate(parts[0], parts[1], parts[2])
  }

  /** A number below 100 written with two digits. */
  lemma TwoDigits(n: int)
    requires 0 <= n < 100
    ensures FormatInt(n, 2) == [DigitChar(n / 10), DigitChar(n % 10)]
    ensures DigitsValue(FormatInt(n, 2)) == n
  {
    if n < 10 {
      assert NatDigits(n) == [DigitChar(n)];
      assert Zeros(1) == "0";
      assert FormatInt(n, 2) == "0" + [DigitChar(n)];
    } else {
      assert NatDigits(n / 10) == [DigitChar(n / 10)];
      assert NatDigits(n) == [DigitChar(n / 10), DigitChar(n % 10)];
    }
    var s := FormatInt(n, 2);
    assert s[..1] == [DigitChar(n / 10)];
    assert DigitsValue(s[..1][..0]) == 0;
  }

  /** Three hyphen-free fields joined by hyphens split back apart. */
  lemma SplitFields(a: string, b: string, c: string)
    requires '-' !in a && '-' !in b && '-' !in c
    ensures Split(a + "-" + b + "-" + c, '-') == [a, b, c]
  {
    var parts := [a, b, c];
    assert Join(parts, '-') == a + "-" + b + "-" + c by {
      assert parts[1..] == [b, c];
      assert parts[1..][1..] == [c];
      assert Join([c], '-') == c;
      assert Join([b, c], '-') == b + "-" + c;
      assert Join(parts, '-') == a + "-" + (b + "-" + c);
    }
    SplitJoin(parts, '-');
  }

  /** `isoformat` gives three hyphen-free fields. */
  lemma IsoFormatSplit(d: Day)
    ensures Split(IsoFormat(d), '-') == [FormatInt(d.year, 4), FormatInt(d.month, 2), FormatInt(d.day, 2)]
  {
    var y := FormatInt(d.year, 4);
    FormatIntRoundTrip(d.year, 4);
    TwoDigits(d.month);
    TwoDigits(d.day);
    assert forall k :: 0 <= k < |y| ==> y[k] != '-';
    SplitFields(y, FormatInt(d.month, 2), FormatInt(d.day, 2));
  }

  /** `strptime` reads back what `isoformat` writes. */
  lemma ParseIsoFormat(d: Day)
    ensures ParseDate(IsoFormat(d)) == Some(d)
  {
    IsoFormatSplit(d);
    IsoFields(d);
  }

  lemma IsoFields(d: Day)
    ensures FieldsDate(FormatInt(d.year, 4), FormatInt(d.month, 2), FormatInt(d.day, 2)) == Some(d)
  {
    FormatIntRoundTrip(d.year, 4);
    TwoDigits(d.month);
    TwoDigits(d.day);
    var m, dd := FormatInt(d.month, 2), FormatInt(d.day, 2);
    assert MonthText(m);
    assert DayText(dd) && Unspaced(dd) == dd;
  }

  /** `strptime` also takes the short forms: "2025-7-4" is 4 July 2025. */
  lemma ParseShortForm()
    ensures ParseDate("2025-7-4") == Some(Date(2025, 7, 4))
  {
    SplitFields("2025", "7", "4");
    assert "2025-7-4" == "2025" + "-" + "7" + "-" + "4";
    ShortFields();
  }

  lemma ShortFields()
    ensures FieldsDate("2025", "7", "4") == Some(Date(2025, 7, 4))
  {
    assert DigitsValue("2025") == 2025 by {
      assert "2025"[..3] == "202" && "202"[..2] == "20" && "20"[..1] == "2" && "2"[..0] == "";
    }
    assert DigitsValue("7") == 7 by {
      assert "7"[..0] == "";
    }
    assert DigitsValue("4") == 4 by {
      assert "4"[..0] == "";
    }
  }

  /** Dates that do not exist are refused: there is no 30 February. */
  lemma ParseNoSuchDay()
    ensures ParseDate("2025-02-30") == None
  {
    SplitFields("2025", "02", "30");
    assert "2025-02-30" == "2025" + "-" + "02" + "-" + "30";
    NoSuchDayFields();
  }

  lemma NoSuchDayFields()
    ensures FieldsDate("2025", "02", "30") == None
  {
    assert DigitsValue("02") == 2 by {
      assert "02"[..1] == "0" && "0"[..0] == "";
    }
    assert DigitsValue("30") == 30 by {
      assert "30"[..1] == "3" && "3"[..0] == "";
    }
  }

  // ------------------------------------------------------------- stepping

  /** `d - timedelta(days=1)`; `None` where that raises OverflowError,
      before 1 January of year 1. */
  function PrevDay(d: Day): (r: Option<Day>)
    ensures r.None? <==> d == Date(1, 1, 1)
  {
    if d.day > 1 then Some(Date(d.year, d.month, d.day - 1))
    else if d.month > 1 then Some(Date(d.year, d.month - 1, DaysInMonth(d.year, d.month - 1)))
    else if d.year > 1 then Some(Date(d.year - 1, 12, 31))
    else None
  }

  /** `d + timedelta(days=1)`; `None` after 31 December 9999. */
  function NextDay(d: Day): Option<Day> {
    if d.day < DaysInMonth(d.year, d.month) then Some(Date(d.year, d.month, d.day + 1))
    else if d.month < 12 then Some(Date(d.year, d.month + 1, 1))
    else if d.year < 9999 then Some(Date(d.year + 1, 1, 1))
    else None
  }

  /** Stepping back one day and forward again returns to the same date. */
  lemma PrevNext(d: Day)
    requires PrevDay(d).Some?
    ensures NextDay(PrevDay(d).value) == Some(d)
  {
  }

  /** `d - timedelta(days=n)`, one day at a time. */
  function DaysBack(d: Day, n: nat): Option<Day> {
    if n == 0 then Some(d)
    else match DaysBack(d, n - 1)
      case None => None
      case Some(e) => PrevDay(e)
  }

  /** `d + timedelta(days=n)`, one day at a time. */
  function DaysForward(d: Day, n: nat): Option<Day>
    decreases n
  {
    if n == 0 then Some(d)
    else match NextDay(d)
      case None => None
      case Some(e) => DaysForward(e, n - 1)
  }

  /** Going `n` days back and then `n` days forward returns to the start,
      so each search step names a distinct earlier date. */
  lemma {:induction false} DaysBackForward(d: Day, n: nat)
    requires DaysBack(d, n).Some?
    ensures DaysForward(DaysBack(d, n).value, n) == Some(d)
  {
    if n > 0 {
      var e := DaysBack(d, n - 1).value;
      DaysBackForward(d, n - 1);
      PrevNext(e);
    }
  }
}
