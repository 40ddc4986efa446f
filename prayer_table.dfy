/**
 * The table generator of tools/prayer_times_python.py: the menu-choice
 * rule, the Hijri month names, the normalisation of a computed time to
 * `date HH:MM:00`, and the list of rows built for a range of days.
 * Days are day numbers; the astronomical calculation, the Gregorian to
 * Hijri conversion and date formatting arrive as a `calendar` input.
 */
module PrayerTable {
  import opened Wrappers
  import opened Text
  import opened Schedule

  // ---------------------------------------------------------- menu choice

  /** `1 <= int(reply) <= len(options)`: the reply names an option. */
  predicate Accepts(count: nat, reply: string) {
    ParseInt(reply).Some? && 1 <= ParseInt(reply).value <= count
  }

  /**
   * `get_choice_input`: read replies until one is accepted and return its
   * zero-based index. `replies` are the lines typed, in order; when they
   * run out `input` fails, which is `None` here.
   */
  method ChoiceInput(options: seq<string>, replies: seq<string>) returns (choice: Option<nat>, consumed: nat)
    ensures consumed <= |replies|
    ensures forall j :: 0 <= j < consumed - 1 ==> !Accepts(|options|, replies[j])
    ensures choice.Some? ==>
      0 < consumed && Accepts(|options|, replies[consumed - 1])
      && choice.value == ParseInt(replies[consumed - 1]).value - 1 && choice.value < |options|
    ensures choice.None? ==> consumed == |replies| && forall j :: 0 <= j < |replies| ==> !Accepts(|options|, replies[j])
  {
    consumed := 0;
    while consumed < |replies|
      invariant consumed <= |replies|
      invariant forall j :: 0 <= j < consumed ==> !Accepts(|options|, replies[j])
    {
      var value := ParseInt(replies[consumed]);
      consumed := consumed + 1;
      if value.Some? && 1 <= value.value <= |options| {
        return Some(value.value - 1), consumed;
      }
    }
    return None, consumed;
  }

  // ---------------------------------------------------------- Hijri months

  /** A month number as the Hijri conversion yields it. */
  type HijriMonth = m: int | 1 <= m <= 12 witness 1

  /** `get_hijri_month_name`: the name of month `month` of the Hijri year. */
  function HijriMonthName(month: HijriMonth): (name: string)
    ensures name == RAMADAN <==> month == 9
  {
    match month
    case 1 => "Muharram"
    case 2 => "Safar"
    case 3 => "Rabi' al-Awwal"
    case 4 => "Rabi' al-Thani"
    case 5 => "Jumada al-Awwal"
    case 6 => "Jumada al-Thani"
    case 7 => "Rajab"
    case 8 => "Sha'ban"
    case 9 => "Ramadan"
    case 10 => "Shawwal"
    case 11 => "Dhu al-Qi'dah"
    case 12 => "Dhu al-Hijjah"
  }

  /** Different months have different names. */
  lemma HijriMonthNamesDistinct(m: HijriMonth, n: HijriMonth)
    ensures HijriMonthName(m) == HijriMonthName(n) <==> m == n
  {
  }

  // ---------------------------------------------------------- time stamps

  /**
   * The time part of a row: `HH:MM:00` when the computed time splits on
   * ':' into at least two integer fields, else the time as given with
   * `:00` appended (the bare `except`, which also catches a missing field).
   */
  function ClockField(time: string): string {
    var parts := Split(time, ':');
    if |parts| >= 2 && ParseInt(parts[0]).Some? && ParseInt(parts[1]).Some? then
      Pad2(ParseInt(parts[0]).value) + ":" + Pad2(ParseInt(parts[1]).value) + ":00"
    else
      time + ":00"
  }

  /** The `Time and Date` cell: the day's date, a space, the clock field. */
  function Timestamp(date: string, time: string): string {
    date + " " + ClockField(time)
  }

  /** Every time stamp starts with its date and a space and ends in `:00` seconds. */
  lemma TimestampShape(date: string, time: string)
    ensures var stamp := Timestamp(date, time);
      |stamp| >= |date| + 4 && stamp[..|date| + 1] == date + " " && stamp[|stamp| - 3..] == ":00"
  {
    var f := ClockField(time);
    assert |f| >= 3 && f[|f| - 3..] == ":00";
    assert (date + " " + f)[|date + " " + f| - 3..] == f[|f| - 3..];
  }

  /** `HH:MM:00` with two-digit fields. */
  ghost predicate IsClock(f: string) {
    |f| == 8 && AllDigits(f[..2]) && f[2] == ':' && AllDigits(f[3..5]) && f[5..] == ":00"
  }

  lemma ParseDigits(s: string)
    requires s != [] && AllDigits(s)
    ensures ParseInt(s) == Some(DigitsValue(s))
  {
    StripNoSpace(s);
  }

  /** The first two ':' fields of `h:m` followed by nothing or by further fields. */
  lemma SplitClock(hs: string, ms: string, rest: string)
    requires ':' !in hs && ':' !in ms
    requires rest == [] || rest[0] == ':'
    ensures var parts := Split(hs + ":" + ms + rest, ':');
      |parts| >= 2 && parts[0] == hs && parts[1] == ms
  {
    var tail := ms + rest;
    assert hs + ":" + ms + rest == hs + [':'] + tail;
    SplitFirst(hs, ':', tail);
    if rest == [] {
      assert tail == ms;
      SplitWhole(ms, ':');
    } else {
      assert tail == ms + [':'] + rest[1..];
      SplitFirst(ms, ':', rest[1..]);
    }
  }

  /**
   * A time whose first two ':' fields are decimal numerals, written with or
   * without leading zeros and possibly followed by further fields such as
   * seconds, becomes `HH:MM:00` with both numbers zero-padded to two digits.
   */
  lemma ClockFieldPads(hs: string, ms: string, rest: string)
    requires hs != [] && AllDigits(hs) && ms != [] && AllDigits(ms)
    requires rest == [] || rest[0] == ':'
    ensures ClockField(hs + ":" + ms + rest) == Pad2(DigitsValue(hs)) + ":" + Pad2(DigitsValue(ms)) + ":00"
  {
    NoColonInDigits(hs);
    NoColonInDigits(ms);
    SplitClock(hs, ms, rest);
    ParseDigits(hs);
    ParseDigits(ms);
  }

  lemma NoColonInDigits(s: string)
    requires AllDigits(s)
    ensures ':' !in s
  {
    forall i | 0 <= i < |s| ensures s[i] != ':' {
      assert IsDigit(s[i]);
    }
  }

  /** A zero-padded `HH:MM` time, the 24-hour form the calculator produces, is kept and given `:00`. */
  lemma ClockFieldKeepsTwoDigits(hh: string, mm: string, rest: string)
    requires |hh| == 2 && AllDigits(hh) && |mm| == 2 && AllDigits(mm)
    requires rest == [] || rest[0] == ':'
    ensures ClockField(hh + ":" + mm + rest) == hh + ":" + mm + ":00"
  {
    ClockFieldPads(hh, mm, rest);
    Pad2OfDigits(hh);
    Pad2OfDigits(mm);
  }

  /** A padded early-morning time keeps its leading zeros. */
  lemma ClockFieldOfPaddedTime()
    ensures ClockField("05:07") == "05:07:00"
  {
    var hh, mm := "05", "07";
    assert AllDigits(hh) && AllDigits(mm);
    ClockFieldKeepsTwoDigits(hh, mm, "");
    assert hh + ":" + mm + "" == "05:07";
  }

  /** The padded field is a well-formed clock from which the hour and minute read back. */
  lemma PaddedIsClock(h: nat, m: nat)
    requires h < 100 && m < 100
    ensures var f := Pad2(h) + ":" + Pad2(m) + ":00";
      IsClock(f) && DigitsValue(f[..2]) == h && DigitsValue(f[3..5]) == m
  {
    var f := Pad2(h) + ":" + Pad2(m) + ":00";
    Pad2TwoDigits(h);
    Pad2TwoDigits(m);
    assert f[..2] == Pad2(h) && f[3..5] == Pad2(m) && f[5..] == ":00";
    Pad2ReadsBack(h);
    Pad2ReadsBack(m);
  }

  lemma Pad2ReadsBack(i: nat)
    requires i < 100
    ensures |Pad2(i)| == 2 && AllDigits(Pad2(i)) && DigitsValue(Pad2(i)) == i
  {
    Pad2TwoDigits(i);
    var p := Pad2(i);
    if i >= 10 {
      assert ShowNat(i / 10) == [DigitChar(i / 10)];
      assert p == [DigitChar(i / 10), DigitChar(i % 10)];
    } else {
      assert p == ['0', DigitChar(i)];
    }
    TwoDigitsValue(p);
  }

  /** A time with no ':' in it is kept and given `:00`. */
  lemma ClockFieldFallback(time: string)
    requires ':' !in time
    ensures ClockField(time) == time + ":00"
  {
    SplitWhole(time, ':');
  }

  /** The placeholder for a time that cannot be computed is kept as it is. */
  lemma ClockFieldOfInvalidTime()
    ensures ClockField("-----") == "-----:00"
  {
    ClockFieldFallback("-----");
  }

  // ---------------------------------------------------------- the rows

  /** One row of the generated table. */
  datatype Row = Row(name: string, stamp: string, month: string)

  /** The first row: the column names the announcer looks up. */
  const HEADER := Row("Prayer Name", "Time and Date", "Month")

  const PRAYER_NAMES: seq<string> := ["Fajr", "Dhuhr", "Asr", "Maghrib", "Isha"]

  /** What the calendar yields for one day: the formatted date, the five computed times, the Hijri month. */
  datatype DayInfo = DayInfo(date: string, fajr: string, dhuhr: string, asr: string,
                             maghrib: string, isha: string, hijriMonth: HijriMonth)

  /** The five times of a day, sunrise excluded, in prayer order. */
  function TimesOf(day: DayInfo): (times: seq<string>)
    ensures |times| == |PRAYER_NAMES|
  {
    [day.fajr, day.dhuhr, day.asr, day.maghrib, day.isha]
  }

  /**
   * Rows for names paired with times, in order: the `i`-th row carries the
   * `i`-th name, the `i`-th time as `stamp` renders it, and the month.
   */
  function StampedRows(names: seq<string>, times: seq<string>, month: string, stamp: string -> string): (rows: seq<Row>)
    requires |names| == |times|
    ensures |rows| == |names|
    decreases |names|
  {
    if names == [] then []
    else
      var last := |names| - 1;
      StampedRows(names[..last], times[..last], month, stamp) + [Row(names[last], stamp(times[last]), month)]
  }

  lemma {:induction false} StampedRowsAt(names: seq<string>, times: seq<string>, month: string, stamp: string -> string, i: nat)
    requires |names| == |times| && i < |names|
    ensures StampedRows(names, times, month, stamp)[i] == Row(names[i], stamp(times[i]), month)
    decreases |names|
  {
    var last := |names| - 1;
    if i < last {
      StampedRowsAt(names[..last], times[..last], month, stamp, i);
      assert names[..last][i] == names[i] && times[..last][i] == times[i];
    }
  }

  /** One more name and time append their row. */
  lemma StampedRowsNext(names: seq<string>, times: seq<string>, month: string, stamp: string -> string, i: nat)
    requires |names| == |times| && i < |names|
    ensures StampedRows(names[..i + 1], times[..i + 1], month, stamp)
      == StampedRows(names[..i], times[..i], month, stamp) + [Row(names[i], stamp(times[i]), month)]
  {
    assert names[..i + 1][..i] == names[..i] && times[..i + 1][..i] == times[..i];
  }

  /**
   * The inner loop over `zip(prayers, prayer_names)`: one row per prayer,
   * named after it, stamped with the date and its normalised time, in
   * prayer order.
   */
  function PrayerRows(date: string, names: seq<string>, times: seq<string>, month: string): (rows: seq<Row>)
    requires |names| == |times|
    ensures |rows| == |names|
  {
    StampedRows(names, times, month, time => Timestamp(date, time))
  }

  lemma PrayerRowsAt(date: string, names: seq<string>, times: seq<string>, month: string, i: nat)
    requires |names| == |times| && i < |names|
    ensures PrayerRows(date, names, times, month)[i] == Row(names[i], Timestamp(date, times[i]), month)
  {
    StampedRowsAt(names, times, month, time => Timestamp(date, time), i);
  }

  /** One more prayer appends its row. */
  lemma PrayerRowsNext(date: string, names: seq<string>, times: seq<string>, month: string, i: nat)
    requires |names| == |times| && i < |names|
    ensures PrayerRows(date, names[..i + 1], times[..i + 1], month)
      == PrayerRows(date, names[..i], times[..i], month) + [Row(names[i], Timestamp(date, times[i]), month)]
  {
    StampedRowsNext(names, times, month, time => Timestamp(date, time), i);
  }

  /** The rows of one day, all with the day's date and Hijri month. */
  function DayRows(day: DayInfo): (rows: seq<Row>)
    ensures |rows| == |PRAYER_NAMES|
  {
    PrayerRows(day.date, PRAYER_NAMES, TimesOf(day), HijriMonthName(day.hijriMonth))
  }

  /** The rows the generator writes for each day number. */
  function RowsByDay(calendar: int -> DayInfo): int -> seq<Row> {
    d => DayRows(calendar(d))
  }

  /** The rows of `count` days from day `first` on, in ascending order of days. */
  function DaysRows(rowsOf: int -> seq<Row>, first: int, count: nat): seq<Row>
    decreases count
  {
    if count == 0 then [] else DaysRows(rowsOf, first, count - 1) + rowsOf(first + count - 1)
  }

  lemma {:induction false} DaysRowsLength(rowsOf: int -> seq<Row>, first: int, count: nat)
    requires forall d :: |rowsOf(d)| == 5
    ensures |DaysRows(rowsOf, first, count)| == 5 * count
    decreases count
  {
    if count > 0 {
      DaysRowsLength(rowsOf, first, count - 1);
    }
  }

  /** Row `i` of the `d`-th day is row `5 * d + i` of the day rows. */
  lemma {:induction false} DaysRowsAt(rowsOf: int -> seq<Row>, first: int, count: nat, d: nat, i: nat)
    requires forall d :: |rowsOf(d)| == 5
    requires d < count && i < 5
    ensures |DaysRows(rowsOf, first, count)| == 5 * count
    ensures DaysRows(rowsOf, first, count)[5 * d + i] == rowsOf(first + d)[i]
    decreases count
  {
    DaysRowsLength(rowsOf, first, count);
    DaysRowsLength(rowsOf, first, count - 1);
    if d < count - 1 {
      DaysRowsAt(rowsOf, first, count - 1, d, i);
    }
  }

  /**
   * The generator's row list for days `start` to `end`: None when the end
   * comes before the start (nothing is built or written), else the header
   * followed by the rows of each day.
   */
  function Table(calendar: int -> DayInfo, start: int, end: int): Option<seq<Row>> {
    if end < start then None else Some([HEADER] + DaysRows(RowsByDay(calendar), start, end - start + 1))
  }

  /** One more day appends that day's rows. */
  lemma DaysRowsNext(rowsOf: int -> seq<Row>, first: int, count: nat)
    ensures DaysRows(rowsOf, first, count + 1) == DaysRows(rowsOf, first, count) + rowsOf(first + count)
  {
  }

  /** The loop step of `main`: appending the next day's rows to the table so far. */
  lemma {:induction false} TableGrows(rowsOf: int -> seq<Row>, start: int, count: nat, data: seq<Row>)
    requires data == [HEADER] + DaysRows(rowsOf, start, count)
    ensures data + rowsOf(start + count) == [HEADER] + DaysRows(rowsOf, start, count + 1)
  {
    DaysRowsNext(rowsOf, start, count);
  }

  lemma RowsByDayLength(calendar: int -> DayInfo)
    ensures forall d :: |RowsByDay(calendar)(d)| == 5
  {
    forall d ensures |RowsByDay(calendar)(d)| == 5 {
      assert RowsByDay(calendar)(d) == DayRows(calendar(d));
    }
  }

  /**
   * One pass of the inner loop of `main`: for each prayer in order, its
   * row with the normalised time and the day's Hijri month is appended.
   */
  method AppendDayRows(data: seq<Row>, calendar: int -> DayInfo, current: int) returns (rows: seq<Row>)
    ensures rows == data + RowsByDay(calendar)(current)
  {
    var day := calendar(current);
    rows := AppendPrayerRows(data, day.date, PRAYER_NAMES, TimesOf(day), HijriMonthName(day.hijriMonth));
    assert RowsByDay(calendar)(current) == DayRows(day);
  }

  /** The `zip` loop over the prayers of one day: one row per name, in order. */
  method AppendPrayerRows(data: seq<Row>, date: string, names: seq<string>, times: seq<string>, month: string)
    returns (rows: seq<Row>)
    requires |names| == |times|
    ensures rows == data + PrayerRows(date, names, times, month)
  {
    rows := data;
    var i := 0;
    while i < |names|
      invariant 0 <= i <= |names|
      invariant rows == data + PrayerRows(date, names[..i], times[..i], month)
    {
      PrayerRowsNext(date, names, times, month, i);
      rows := rows + [Row(names[i], Timestamp(date, times[i]), month)];
      i := i + 1;
    }
    assert names[..i] == names && times[..i] == times;
  }

  /**
   * The row-building loop of `main`: the header, then for each day from
   * `start` to `end` inclusive the five rows of that day.
   */
  method BuildRows(calendar: int -> DayInfo, start: int, end: int) returns (rows: Option<seq<Row>>)
    ensures rows == Table(calendar, start, end)
  {
    if end < start {
      return None;
    }
    var data := [HEADER];
    var current := start;
    assert data == [HEADER] + DaysRows(RowsByDay(calendar), start, 0);
    while current <= end
      invariant start <= current <= end + 1
      invariant data == [HEADER] + DaysRows(RowsByDay(calendar), start, current - start)
      decreases end - current
    {
      ghost var days := current - start;
      assert start + days == current;
      TableGrows(RowsByDay(calendar), start, days, data);
      data := AppendDayRows(data, calendar, current);
      current := current + 1;
      assert current - start == days + 1;
    }
    assert current - start == end - start + 1;
    return Some(data);
  }

  /**
   * The table has one header row and five rows per day, so the count
   * reported after writing is `1 + 5 * days`, with `days = end - start + 1`.
   */
  lemma TableLength(calendar: int -> DayInfo, start: int, end: int)
    ensures Table(calendar, start, end).None? <==> end < start
    ensures Table(calendar, start, end).Some? ==> |Table(calendar, start, end).value| == 1 + 5 * (end - start + 1)
  {
    if start <= end {
      RowsByDayLength(calendar);
      DaysRowsLength(RowsByDay(calendar), start, end - start + 1);
    }
  }

  /**
   * The first row is the header; row `i` of day `start + d` comes at
   * `1 + 5 * d + i`, is named after prayer `i`, carries that day's date
   * and Hijri month, and its time is that prayer's computed time
   * normalised.
   */
  lemma TableRow(calendar: int -> DayInfo, start: int, end: int, d: nat, i: nat)
    requires start + d <= end && i < 5
    ensures var rows := Table(calendar, start, end).value;
      var day := calendar(start + d);
      |rows| == 1 + 5 * (end - start + 1) && rows[0] == HEADER
      && rows[1 + 5 * d + i].name == PRAYER_NAMES[i]
      && rows[1 + 5 * d + i].month == HijriMonthName(day.hijriMonth)
      && rows[1 + 5 * d + i].stamp == day.date + " " + ClockField(TimesOf(day)[i])
  {
    TableRowAt(calendar, start, end, d, i);
    assert RowsByDay(calendar)(start + d) == DayRows(calendar(start + d));
    DayRowAt(calendar(start + d), i);
  }

  /** Row `1 + 5 * d + i` of the table is row `i` of day `start + d`. */
  lemma TableRowAt(calendar: int -> DayInfo, start: int, end: int, d: nat, i: nat)
    requires start + d <= end && i < 5
    ensures var rows := Table(calendar, start, end).value;
      |rows| == 1 + 5 * (end - start + 1) && rows[0] == HEADER
      && |RowsByDay(calendar)(start + d)| == 5
      && rows[1 + 5 * d + i] == RowsByDay(calendar)(start + d)[i]
  {
    RowsByDayLength(calendar);
    HeaderAndDays(RowsByDay(calendar), start, end - start + 1, d, i);
  }

  /** Behind the header, row `i` of the `d`-th day sits at `1 + 5 * d + i`. */
  lemma HeaderAndDays(rowsOf: int -> seq<Row>, start: int, count: nat, d: nat, i: nat)
    requires forall d :: |rowsOf(d)| == 5
    requires d < count && i < 5
    ensures var rows := [HEADER] + DaysRows(rowsOf, start, count);
      |rows| == 1 + 5 * count && rows[0] == HEADER && rows[1 + 5 * d + i] == rowsOf(start + d)[i]
  {
    DaysRowsAt(rowsOf, start, count, d, i);
  }

  /** Row `i` of a day. */
  lemma DayRowAt(day: DayInfo, i: nat)
    requires i < 5
    ensures DayRows(day)[i] == Row(PRAYER_NAMES[i], day.date + " " + ClockField(TimesOf(day)[i]), HijriMonthName(day.hijriMonth))
  {
    PrayerRowsAt(day.date, PRAYER_NAMES, TimesOf(day), HijriMonthName(day.hijriMonth), i);
  }

  /**
   * Feeding the table to the announcer: a row is announced with the iftar
   * audio exactly when it is the Maghrib row of a day in Hijri month 9, and
   * with the fajr audio exactly when it is a Fajr row.
   */
  lemma TableCategories(calendar: int -> DayInfo, start: int, end: int, d: nat, i: nat)
    requires start + d <= end && i < 5
    ensures |Table(calendar, start, end).value| == 1 + 5 * (end - start + 1)
    ensures var row := Table(calendar, start, end).value[1 + 5 * d + i];
      (CategoryOf(row.name, row.month) == IftarAudio <==> i == 3 && calendar(start + d).hijriMonth == 9)
      && (CategoryOf(row.name, row.month) == FajrAudio <==> i == 0)
  {
    TableRow(calendar, start, end, d, i);
    LowerPrayerNames();
  }

  lemma LowerPrayerNames()
    ensures Lower(PRAYER_NAMES[0]) == FAJR && Lower(PRAYER_NAMES[3]) == MAGHRIB
    ensures forall i :: 1 <= i < 5 ==> Lower(PRAYER_NAMES[i]) != FAJR
    ensures forall i :: 0 <= i < 5 && i != 3 ==> Lower(PRAYER_NAMES[i]) != MAGHRIB
  {
    assert Lower("Fajr") == "fajr";
    assert Lower("Maghrib") == "maghrib";
    assert Lower("Dhuhr")[0] == 'd';
    assert Lower("Asr")[0] == 'a';
    assert Lower("Isha")[0] == 'i';
  }
}
