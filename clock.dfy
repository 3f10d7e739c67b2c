/**
 * Times of day and calendar dates as the Django views hold them
 * (`datetime.time`, `datetime.date`), the `strptime("%Y-%m-%d")` date
 * parser, the `strftime` renderings, and the shared time formatter both
 * view modules define.
 */
module Clock {
  import opened Wrappers
  import opened Text

  // ---------------------------------------------------------------------------
  // Times of day

  /** A `datetime.time` without microseconds or time zone. */
  datatype Time = Time(hour: int, minute: int, second: int)

  /** The ranges the `time` constructor enforces. */
  predicate ValidTime(t: Time) {
    0 <= t.hour < 24 && 0 <= t.minute < 60 && 0 <= t.second < 60
  }

  function SecondOfDay(t: Time): int {
    t.hour * 3600 + t.minute * 60 + t.second
  }

  /** Python compares times field by field: hour, then minute, then second. */
  predicate Before(a: Time, b: Time) {
    a.hour < b.hour || (a.hour == b.hour && (a.minute < b.minute || (a.minute == b.minute && a.second < b.second)))
  }

  /** On valid times the field-wise order is the order of the seconds since midnight. */
  lemma BeforeIsSecondOrder(a: Time, b: Time)
    requires ValidTime(a) && ValidTime(b)
    ensures Before(a, b) <==> SecondOfDay(a) < SecondOfDay(b)
  {
  }

  lemma DigitsValueTwo(s: string)
    requires |s| == 2 && AllDigits(s)
    ensures DigitsValue(s) == DigitValue(s[0]) * 10 + DigitValue(s[1])
  {
    assert s[..1][..0] == [];
    assert DigitsValue(s[..1]) == DigitValue(s[0]);
  }

  /** Two decimal digits with a leading zero: the `%H` / `%M` / `%m` / `%d` directives. */
  function Two(n: nat): (r: string)
    requires n < 100
    ensures |r| == 2 && AllDigits(r) && DigitsValue(r) == n
  {
    var r := [DigitChar(n / 10), DigitChar(n % 10)];
    DigitsValueTwo(r);
    r
  }

  /** Distinct two-digit renderings for distinct numbers: the only two-digit string of n is Two(n). */
  lemma TwoUnique(s: string)
    requires |s| == 2 && AllDigits(s)
    ensures DigitsValue(s) < 100 && Two(DigitsValue(s)) == s
  {
    DigitsValueTwo(s);
    var v := DigitsValue(s);
    assert DigitChar(v / 10) == s[0];
  }

  /** `t.strftime("%H:%M")`. */
  function FormatHHMM(t: Time): (r: string)
    requires ValidTime(t)
    ensures |r| == 5 && r[2] == ':'
    ensures AllDigits(r[..2]) && DigitsValue(r[..2]) == t.hour
    ensures AllDigits(r[3..]) && DigitsValue(r[3..]) == t.minute
  {
    var r := Two(t.hour) + ":" + Two(t.minute);
    assert r[..2] == Two(t.hour) && r[3..] == Two(t.minute);
    r
  }

  /** A digit string of one or two characters, zero-filled to two, is the two-digit rendering of its value. */
  lemma ZFillTwo(s: string)
    requires 1 <= |s| <= 2 && AllDigits(s)
    ensures DigitsValue(s) < 100 && ZFill(s, 2) == Two(DigitsValue(s))
  {
    if |s| == 1 {
      var z := ZFill(s, 2);
      assert z == "0" + s;
      assert z[..1] == "0";
      TwoUnique(z);
    } else {
      TwoUnique(s);
    }
  }

  // ---------------------------------------------------------------------------
  // The shared `_time_to_str` formatter

  /** What a stored time field can hold: a time object, text, or something else (None included). */
  datatype TimeField = TimeObj(t: Time) | TimeText(s: string) | NoTime

  /**
   * `_time_to_str`: a time renders as HH:MM; text is trimmed, blank text gives
   * None, text with a colon gives its first two colon-separated parts
   * zero-filled to width two, other text comes back trimmed.
   */
  function TimeToStr(v: TimeField): (r: Option<string>)
    requires v.TimeObj? ==> ValidTime(v.t)
    ensures v.NoTime? ==> r.None?
    ensures v.TimeText? ==> (r.None? <==> AllSpace(v.s))
    ensures v.TimeText? && ':' !in Trim(v.s) ==> r == if AllSpace(v.s) then None else Some(Trim(v.s))
    ensures v.TimeObj? ==> r == Some(FormatHHMM(v.t))
    ensures r.Some? && (v.TimeObj? || ':' in Trim(v.s)) ==> |r.value| >= 5 && ':' in r.value
  {
    match v
    case TimeObj(t) => Some(FormatHHMM(t))
    case TimeText(s) =>
      var raw := Trim(s);
      if raw == [] then None
      else
        var parts := Split(raw, ':');
        if |parts| >= 2 then
          var r := ZFill(parts[0], 2) + ":" + ZFill(parts[1], 2);
          assert r[|ZFill(parts[0], 2)|] == ':';
          Some(r)
        else
          assert raw == parts[0];
          Some(raw)
    case NoTime => None
  }

  /**
   * Text whose trimmed form starts with two colon-separated parts renders as
   * those two parts zero-filled to width two, whatever follows them
   * ("8:5:30" gives "08:05").
   */
  lemma TimeToStrOfParts(s: string, h: string, m: string, rest: string)
    requires Trim(s) == h + ":" + m + rest
    requires ':' !in h && ':' !in m
    requires rest == [] || rest[0] == ':'
    ensures TimeToStr(TimeText(s)) == Some(ZFill(h, 2) + ":" + ZFill(m, 2))
  {
    FirstTwoParts(Trim(s), h, m, rest);
  }

  /** The text before the first colon and the text between the first two. */
  lemma FirstTwoParts(raw: string, h: string, m: string, rest: string)
    requires raw == h + ":" + m + rest
    requires ':' !in h && ':' !in m
    requires rest == [] || rest[0] == ':'
    ensures raw != [] && |Split(raw, ':')| >= 2
    ensures Split(raw, ':')[0] == h && Split(raw, ':')[1] == m
  {
    assert raw == h + [':'] + (m + rest);
    SplitAt(h, ':', m + rest);
    SplitFirst(m, ':', rest);
    assert Split(raw, ':') == [h] + Split(m + rest, ':');
  }

  /** A time stored as its own HH:MM text renders exactly as the time object does. */
  lemma TimeToStrOfFormatted(t: Time)
    requires ValidTime(t)
    ensures TimeToStr(TimeText(FormatHHMM(t))) == TimeToStr(TimeObj(t))
  {
    var r := FormatHHMM(t);
    var h := Two(t.hour);
    var m := Two(t.minute);
    assert r == h + [':'] + m;
    assert !IsSpace(r[0]) && !IsSpace(r[4]);
    TrimUnchanged(r);
    SplitOfJoin([h, m], ':');
    assert Join([h, m], ':') == r;
    ZFillTwo(h);
    ZFillTwo(m);
    TwoUnique(h);
    TwoUnique(m);
  }

  // ---------------------------------------------------------------------------
  // Calendar dates

  /** A `datetime.date`. */
  datatype Date = Date(year: int, month: int, day: int)

  predicate IsLeap(y: int) {
    (y % 4 == 0 && y % 100 != 0) || y % 400 == 0
  }

  function DaysInMonth(y: int, m: int): int
    requires 1 <= m <= 12
  {
    if m == 2 then (if IsLeap(y) then 29 else 28)
    else if m == 4 || m == 6 || m == 9 || m == 11 then 30
    else 31
  }

  /** The ranges the `date` constructor enforces. */
  predicate ValidDate(d: Date) {
    1 <= d.year <= 9999 && 1 <= d.month <= 12 && 1 <= d.day <= DaysInMonth(d.year, d.month)
  }

  /** Python compares dates field by field. */
  predicate DateLt(a: Date, b: Date) {
    a.year < b.year || (a.year == b.year && (a.month < b.month || (a.month == b.month && a.day < b.day)))
  }

  predicate IsNonZeroDigit(c: char) {
    '1' <= c <= '9'
  }

  /** What `%m` accepts: 10-12, 01-09 or 1-9. */
  predicate MonthForm(s: string) {
    || (|s| == 2 && s[0] == '1' && '0' <= s[1] <= '2')
    || (|s| == 2 && s[0] == '0' && IsNonZeroDigit(s[1]))
    || (|s| == 1 && IsNonZeroDigit(s[0]))
  }

  /** What `%d` accepts: 30-31, 10-29, 01-09, 1-9, or a space and 1-9. */
  predicate DayForm(s: string) {
    || (|s| == 2 && s[0] == '3' && (s[1] == '0' || s[1] == '1'))
    || (|s| == 2 && (s[0] == '1' || s[0] == '2') && IsDigit(s[1]))
    || (|s| == 2 && (s[0] == '0' || s[0] == ' ') && IsNonZeroDigit(s[1]))
    || (|s| == 1 && IsNonZeroDigit(s[0]))
  }

  function FormValue(s: string): nat
    requires MonthForm(s) || DayForm(s)
  {
    if s[0] == ' ' then DigitValue(s[1]) else DigitsValue(s)
  }

  /**
   * `datetime.strptime(s, "%Y-%m-%d").date()`: four year digits, a dash, a
   * month, a dash, a day, nothing after, and a date that exists.
   */
  function ParseDate(s: string): (r: Option<Date>)
    ensures r.Some? ==> ValidDate(r.value)
    ensures r.Some? ==> |s| >= 8 && s[4] == '-' && AllDigits(s[..4]) && r.value.year == DigitsValue(s[..4])
  {
    if |s| < 5 || !AllDigits(s[..4]) || s[4] != '-' then None
    else
      var parts := Split(s[5..], '-');
      if |parts| != 2 || !MonthForm(parts[0]) || !DayForm(parts[1]) then None
      else
        var d := Date(DigitsValue(s[..4]), FormValue(parts[0]), FormValue(parts[1]));
        if ValidDate(d) then
          assert |s[5..]| == |parts[0]| + 1 + |parts[1]| by {
            assert Join(parts, '-') == parts[0] + ['-'] + parts[1];
          }
          Some(d)
        else None
  }

  /** Four-digit year, as `date.isoformat()` writes it. */
  function Four(n: nat): (r: string)
    requires n < 10000
    ensures |r| == 4 && AllDigits(r) && DigitsValue(r) == n
  {
    var r := Two(n / 100) + Two(n % 100);
    assert r[..3][..2] == Two(n / 100);
    assert r[..3] == Two(n / 100) + [r[2]];
    assert r[..2] == Two(n / 100);
    r
  }

  /** `date.isoformat()`: YYYY-MM-DD. */
  function FormatDate(d: Date): (r: string)
    requires ValidDate(d)
    ensures |r| == 10
  {
    Four(d.year) + "-" + Two(d.month) + "-" + Two(d.day)
  }

  /** A two-digit month is accepted by `%m` exactly when it is 1 to 12, and then read as itself. */
  lemma MonthFormOfTwo(m: nat)
    requires m < 100
    ensures MonthForm(Two(m)) <==> 1 <= m <= 12
    ensures MonthForm(Two(m)) ==> FormValue(Two(m)) == m
  {
    DigitsValueTwo(Two(m));
  }

  /** A two-digit day is accepted by `%d` exactly when it is 1 to 31, and then read as itself. */
  lemma DayFormOfTwo(d: nat)
    requires d < 100
    ensures DayForm(Two(d)) <==> 1 <= d <= 31
    ensures DayForm(Two(d)) ==> FormValue(Two(d)) == d
  {
    DigitsValueTwo(Two(d));
  }

  /** The pieces ParseDate cuts ISO text into. */
  lemma IsoPieces(y: nat, m: nat, d: nat)
    requires y < 10000 && m < 100 && d < 100
    ensures var s := Four(y) + "-" + Two(m) + "-" + Two(d);
      && |s| == 10 && s[..4] == Four(y) && s[4] == '-'
      && Split(s[5..], '-') == [Two(m), Two(d)]
  {
    var s := Four(y) + "-" + Two(m) + "-" + Two(d);
    var ms := Two(m);
    var ds := Two(d);
    assert s[..4] == Four(y);
    assert s[5..] == ms + ['-'] + ds;
    assert Join([ms, ds], '-') == ms + ['-'] + ds;
    assert '-' !in ms && '-' !in ds;
    SplitOfJoin([ms, ds], '-');
  }

  /** ISO text built from any numbers parses to that date exactly when the date exists. */
  lemma ParseIsoText(y: nat, m: nat, d: nat)
    requires y < 10000 && m < 100 && d < 100
    ensures ParseDate(Four(y) + "-" + Two(m) + "-" + Two(d))
         == if ValidDate(Date(y, m, d)) then Some(Date(y, m, d)) else None
  {
    IsoPieces(y, m, d);
    MonthFormOfTwo(m);
    DayFormOfTwo(d);
  }

  /** Every valid date survives a trip through its ISO text and back. */
  lemma ParseFormatDate(d: Date)
    requires ValidDate(d)
    ensures ParseDate(FormatDate(d)) == Some(d)
  {
    ParseIsoText(d.year, d.month, d.day);
  }
}
