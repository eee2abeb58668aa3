/**
 * `getHistoricalDates` of `src/utils/getHistoricalDates.js`: the `YYYYMMDD`
 * keys of the same month and day in each of the preceding years.
 */
module HistoricalDates {
  import opened Wrappers
  import opened Decimal

  /** The default year span. */
  const DefaultYears: int := 20

  /**
   * The calendar fields `getFullYear()`, `getMonth() + 1` and `getDate()` of
   * the selected date, which a JavaScript `Date` always delivers in range.
   */
  datatype CalendarDate = CalendarDate(year: int, month: int, day: int)

  predicate ValidFields(date: CalendarDate) {
    1 <= date.month <= 12 && 1 <= date.day <= 31
  }

  /** The `MMDD` part: both fields zero-padded to two digits. */
  function MonthDay(month: int, day: int): (s: string)
    requires 1 <= month <= 12 && 1 <= day <= 31
    ensures |s| == 4 && AllDigits(s)
  {
    PadStart2RoundTrip(month);
    PadStart2RoundTrip(day);
    AllDigitsAppend(PadStart2(NatToString(month)), PadStart2(NatToString(day)));
    PadStart2(NatToString(month)) + PadStart2(NatToString(day))
  }

  /** `${yyyy}${mm}${dd}`: the year as written by `toString`, then `MMDD`. */
  function DateKey(year: int, month: int, day: int): (key: string)
    requires 1 <= month <= 12 && 1 <= day <= 31
    ensures |key| >= 5
  {
    IntToString(year) + MonthDay(month, day)
  }

  /** The key of a year with the given date's month and day. */
  function KeyOf(date: CalendarDate): int -> string
    requires ValidFields(date)
  {
    (year: int) => DateKey(year, date.month, date.day)
  }

  /** The keys `key(start)`, ..., `key(start + n - 1)`, built by appending, as the source's loop pushes them. */
  function Span(start: int, n: nat, key: int -> string): (keys: seq<string>)
    ensures |keys| == n
  {
    if n == 0 then [] else Span(start, n - 1, key) + [key(start + n - 1)]
  }

  /** Entry i of a span is the key of `start + i`. */
  lemma {:induction false} SpanAt(start: int, n: nat, key: int -> string)
    ensures forall i :: 0 <= i < n ==> Span(start, n, key)[i] == key(start + i)
  {
    if n > 0 {
      SpanAt(start, n - 1, key);
      var prev := Span(start, n - 1, key);
      assert Span(start, n, key) == prev + [key(start + n - 1)];
    }
  }

  /**
   * `getHistoricalDates(date, years)`: one key per year from
   * `year - years` up to `year - 1`, oldest first, all with the input's
   * month and day and no calendar check.
   */
  function Generate(date: CalendarDate, years: int): (keys: seq<string>)
    requires ValidFields(date)
    ensures |keys| == if years >= 0 then years else 0
    ensures forall i :: 0 <= i < |keys| ==>
      keys[i] == DateKey(date.year - years + i, date.month, date.day)
  {
    var n := if years >= 0 then years else 0;
    SpanAt(date.year - years, n, KeyOf(date));
    Span(date.year - years, n, KeyOf(date))
  }

  /** `getHistoricalDates(date)` with the default span. */
  function GenerateDefault(date: CalendarDate): (keys: seq<string>)
    requires ValidFields(date)
    ensures |keys| == 20
  {
    Generate(date, DefaultYears)
  }

  /** The span ends with the year before the selected date's own year and starts `years` back. */
  lemma GenerateEnds(date: CalendarDate, years: int)
    requires ValidFields(date) && years >= 1
    ensures Generate(date, years)[0] == DateKey(date.year - years, date.month, date.day)
    ensures Generate(date, years)[years - 1] == DateKey(date.year - 1, date.month, date.day)
  {
    GenerateFirst(date, years);
    GenerateLast(date, years);
  }

  lemma GenerateFirst(date: CalendarDate, years: int)
    requires ValidFields(date) && years >= 1
    ensures Generate(date, years)[0] == DateKey(date.year - years, date.month, date.day)
  {
    var keys := Generate(date, years);
    assert keys[0] == DateKey(date.year - years + 0, date.month, date.day);
  }

  lemma GenerateLast(date: CalendarDate, years: int)
    requires ValidFields(date) && years >= 1
    ensures Generate(date, years)[years - 1] == DateKey(date.year - 1, date.month, date.day)
  {
    var keys := Generate(date, years);
    var y := date.year - years + (years - 1);
    assert y == date.year - 1;
    assert keys[years - 1] == DateKey(y, date.month, date.day);
  }

  /** Every key ends with the selected date's own `MMDD`. */
  lemma GenerateKeepsMonthDay(date: CalendarDate, years: int)
    requires ValidFields(date)
    ensures forall i :: 0 <= i < |Generate(date, years)| ==>
      Generate(date, years)[i][|Generate(date, years)[i]| - 4..] == MonthDay(date.month, date.day)
  {
    var keys := Generate(date, years);
    forall i | 0 <= i < |keys|
      ensures keys[i][|keys[i]| - 4..] == MonthDay(date.month, date.day)
    {
      KeyEndsWithMonthDay(date.year - years + i, date.month, date.day);
    }
  }

  lemma KeyEndsWithMonthDay(year: int, month: int, day: int)
    requires 1 <= month <= 12 && 1 <= day <= 31
    ensures DateKey(year, month, day)[|DateKey(year, month, day)| - 4..] == MonthDay(month, day)
  {
    var y, md := IntToString(year), MonthDay(month, day);
    assert (y + md)[|y + md| - 4..] == md;
  }

  /**
   * Whatever the year, the last four characters of a key are digits: the
   * first two read back as the month and the last two as the day.
   */
  lemma DateKeyFields(year: int, month: int, day: int)
    requires 1 <= month <= 12 && 1 <= day <= 31
    ensures var md := DateKey(year, month, day)[|DateKey(year, month, day)| - 4..];
      AllDigits(md) && DigitsValue(md[..2]) == month && DigitsValue(md[2..]) == day
  {
    KeyEndsWithMonthDay(year, month, day);
    MonthDayFields(month, day);
  }

  lemma MonthDayFields(month: int, day: int)
    requires 1 <= month <= 12 && 1 <= day <= 31
    ensures DigitsValue(MonthDay(month, day)[..2]) == month && DigitsValue(MonthDay(month, day)[2..]) == day
  {
    var mm, dd := PadStart2(NatToString(month)), PadStart2(NatToString(day));
    PadStart2RoundTrip(month);
    PadStart2RoundTrip(day);
    assert MonthDay(month, day) == mm + dd;
    assert (mm + dd)[..2] == mm && (mm + dd)[2..] == dd;
  }

  /** Reads a `YYYYMMDD` key back into its fields. */
  function ParseDateKey(key: string): (r: Option<CalendarDate>)
    ensures r.Some? ==> |key| == 8
  {
    if |key| == 8 && AllDigits(key) then
      Some(CalendarDate(DigitsValue(key[..4]), DigitsValue(key[4..6]), DigitsValue(key[6..])))
    else None
  }

  /** For four-digit years a key has exactly 8 characters and reads back as the date it encodes. */
  lemma DateKeyRoundTrip(year: int, month: int, day: int)
    requires 1000 <= year <= 9999 && 1 <= month <= 12 && 1 <= day <= 31
    ensures |DateKey(year, month, day)| == 8
    ensures ParseDateKey(DateKey(year, month, day)) == Some(CalendarDate(year, month, day))
  {
    var y, m, d := NatToString(year), PadStart2(NatToString(month)), PadStart2(NatToString(day));
    FourDigitYear(year);
    PadStart2RoundTrip(month);
    PadStart2RoundTrip(day);
    var key := DateKey(year, month, day);
    assert key == y + m + d;
    SplitKey(y, m, d);
  }

  lemma FourDigitYear(year: int)
    requires 1000 <= year <= 9999
    ensures |NatToString(year)| == 4 && DigitsValue(NatToString(year)) == year
  {
    assert Pow10(3) == 1000 && Pow10(4) == 10000;
    NatToStringLength(year, 4);
    DigitsValueOfNatToString(year);
  }

  lemma SplitKey(y: string, m: string, d: string)
    requires |y| == 4 && |m| == 2 && |d| == 2
    requires AllDigits(y) && AllDigits(m) && AllDigits(d)
    ensures ParseDateKey(y + m + d) == Some(CalendarDate(DigitsValue(y), DigitsValue(m), DigitsValue(d)))
  {
    var key := y + m + d;
    assert key[..4] == y;
    assert key[4..6] == m;
    assert key[6..] == d;
  }

  lemma MonthDayLeap()
    ensures MonthDay(2, 29) == "0229"
  {
    assert NatToString(2) == "2";
    assert NatToString(29) == "29";
    assert PadStart2("2") == "02";
    assert PadStart2("29") == "29";
  }

  /** The leap day is kept as written even for a year that has none. */
  lemma LeapDayKept(date: CalendarDate, years: int)
    requires date.month == 2 && date.day == 29
    ensures forall i :: 0 <= i < |Generate(date, years)| ==>
      Generate(date, years)[i] == IntToString(date.year - years + i) + "0229"
  {
    var keys := Generate(date, years);
    forall i | 0 <= i < |keys|
      ensures keys[i] == IntToString(date.year - years + i) + "0229"
    {
      LeapKey(date.year - years + i);
    }
  }

  lemma LeapKey(year: int)
    ensures DateKey(year, 2, 29) == IntToString(year) + "0229"
  {
    MonthDayLeap();
  }
}
