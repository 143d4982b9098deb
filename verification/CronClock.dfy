/** The clock and the calendar behind cron expressions: the values that occur, and what a star stands for. */
module CronClock {
  import opened Text
  import opened Decimal
  import opened Cron

  // ---- The calendar ----

  predicate IsLeap(year: int) {
    year % 4 == 0 && (year % 100 != 0 || year % 400 == 0)
  }

  function MonthLength(year: int, month: nat): nat {
    if month == 2 then if IsLeap(year) then 29 else 28
    else if month == 4 || month == 6 || month == 9 || month == 11 then 30
    else 31
  }

  predicate IsDate(year: int, date: Date) {
    1 <= date.month <= 12 && 1 <= date.day <= MonthLength(year, date.month)
  }

  predicate Succeeds(year: int, date: Date, nextYear: int, next: Date) {
    if date.day < MonthLength(year, date.month) then nextYear == year && next == Date(date.month, date.day + 1)
    else if date.month < 12 then nextYear == year && next == Date(date.month + 1, 1)
    else nextYear == year + 1 && next == Date(1, 1)
  }

  /** The calendar with its years, going on day by day from 1 January 1970 and back. */
  ghost predicate IsGregorian(calendar: Calendar, years: int -> int) {
    && years(0) == 1970 && calendar(0) == Date(1, 1)
    && (forall day :: IsDate(years(day), calendar(day)))
    && (forall day :: Succeeds(years(day), calendar(day), years(day + 1), calendar(day + 1)))
  }

  /** The year and the date of a day. */
  function CivilOn(day: int): (r: (int, Date))
    ensures IsDate(r.0, r.1)
    decreases if day < 0 then -day else day
  {
    if day == 0 then (1970, Date(1, 1))
    else if day > 0 then
      var (year, date) := CivilOn(day - 1);
      if date.day < MonthLength(year, date.month) then (year, Date(date.month, date.day + 1))
      else if date.month < 12 then (year, Date(date.month + 1, 1))
      else (year + 1, Date(1, 1))
    else
      var (year, date) := CivilOn(day + 1);
      if date.day > 1 then (year, Date(date.month, date.day - 1))
      else if date.month > 1 then (year, Date(date.month - 1, MonthLength(year, date.month - 1)))
      else (year - 1, Date(12, 31))
  }

  /** There is such a calendar. */
  lemma CivilIsGregorian()
    ensures IsGregorian(day => CivilOn(day).1, day => CivilOn(day).0)
  {
    forall day: int ensures Succeeds(CivilOn(day).0, CivilOn(day).1, CivilOn(day + 1).0, CivilOn(day + 1).1) {
      if day >= 0 { assert day + 1 - 1 == day; }
    }
  }

  /** From the first of a month its days follow. */
  lemma {:induction false} DaysFollow(calendar: Calendar, years: int -> int, first: int, k: nat)
    requires IsGregorian(calendar, years) && calendar(first).day == 1
    requires k < MonthLength(years(first), calendar(first).month)
    ensures years(first + k) == years(first) && calendar(first + k) == Date(calendar(first).month, 1 + k)
  {
    if k > 0 {
      DaysFollow(calendar, years, first, k - 1);
      assert Succeeds(years(first + k - 1), calendar(first + k - 1), years(first + k - 1 + 1), calendar(first + k - 1 + 1));
    }
  }

  /** Every month of 1970 begins on some day. */
  lemma {:induction false} MonthBegins(calendar: Calendar, years: int -> int, month: nat) returns (first: int)
    requires IsGregorian(calendar, years) && 1 <= month <= 12
    ensures years(first) == 1970 && calendar(first) == Date(month, 1)
  {
    if month == 1 {
      first := 0;
    } else {
      var before := MonthBegins(calendar, years, month - 1);
      var length := MonthLength(1970, month - 1);
      DaysFollow(calendar, years, before, length - 1);
      first := before + length;
      assert Succeeds(years(first - 1), calendar(first - 1), years(first - 1 + 1), calendar(first - 1 + 1));
    }
  }

  // ---- The ranges of the fields ----

  ghost predicate Attains(calendar: Calendar, field: nat, value: nat) {
    exists minute: int :: FieldValue(calendar, minute, field) == value
  }

  lemma AttainedOn(calendar: Calendar, day: int, minuteOfDay: nat)
    requires minuteOfDay < 1440
    ensures Attains(calendar, 0, minuteOfDay % 60) && Attains(calendar, 1, minuteOfDay / 60)
    ensures Attains(calendar, 2, calendar(day).day) && Attains(calendar, 3, calendar(day).month)
    ensures Attains(calendar, 4, (day + 4) % 7)
  {
    var m := (day * 24 + minuteOfDay / 60) * 60 + minuteOfDay % 60;
    ClockReads(calendar, day, minuteOfDay / 60, minuteOfDay % 60);
    assert m / 1440 == day;
    assert FieldValue(calendar, m, 0) == minuteOfDay % 60 && FieldValue(calendar, m, 1) == minuteOfDay / 60;
    assert FieldValue(calendar, m, 2) == calendar(day).day && FieldValue(calendar, m, 3) == calendar(day).month;
    assert FieldValue(calendar, m, 4) == (day + 4) % 7;
  }

  lemma InRange(calendar: Calendar, years: int -> int, minute: int, field: nat)
    requires IsGregorian(calendar, years) && field < 5
    ensures FieldMin(field) <= FieldValue(calendar, minute, field) <= FieldMax(field)
  {
    assert IsDate(years(minute / 1440), calendar(minute / 1440));
  }

  /** The least and the greatest value of each field but the last are those that clock and calendar show. */
  lemma RangesAreTight(calendar: Calendar, years: int -> int, field: nat)
    requires IsGregorian(calendar, years) && field < 4
    ensures forall minute: int :: FieldMin(field) <= FieldValue(calendar, minute, field) <= FieldMax(field)
    ensures Attains(calendar, field, FieldMin(field)) && Attains(calendar, field, FieldMax(field))
  {
    forall minute: int ensures FieldMin(field) <= FieldValue(calendar, minute, field) <= FieldMax(field) {
      InRange(calendar, years, minute, field);
    }
    DaysFollow(calendar, years, 0, 30);
    var december := MonthBegins(calendar, years, 12);
    hide FieldValue, Attains;
    AttainedOn(calendar, 0, 0);
    AttainedOn(calendar, 0, 23 * 60 + 59);
    AttainedOn(calendar, 30, 0);
    AttainedOn(calendar, december, 0);
  }

  /** Days of the week are 0 to 6; the range of their field ends with 7, another number for Sunday. */
  lemma WeekdaysAreTight(calendar: Calendar)
    ensures forall minute: int :: 0 <= FieldValue(calendar, minute, 4) <= 6
    ensures Attains(calendar, 4, 0) && Attains(calendar, 4, 6)
    ensures FieldMin(4) == 0 && FieldMax(4) == 7
  {
    AttainedOn(calendar, 3, 0);
    AttainedOn(calendar, 2, 0);
  }

  // ---- Due times by the clock ----

  /** The time of day and the date decide: an expression is due on the whole minutes all its five fields mean. */
  lemma DueAt(expression: string, calendar: Calendar, day: int, hour: nat, minute: nat, nanos: nat)
    requires hour < 24 && minute < 60 && nanos < 60_000_000_000
    ensures var fields := Words(expression);
            IsDue(expression, calendar, ((day * 24 + hour) * 60 + minute) * 60_000_000_000 + nanos) <==>
            && nanos == 0 && |fields| == 5
            && FieldMeans(fields[0], minute, 0, 59) && FieldMeans(fields[1], hour, 0, 23)
            && FieldMeans(fields[2], calendar(day).day, 1, 31) && FieldMeans(fields[3], calendar(day).month, 1, 12)
            && FieldMeans(fields[4], (day + 4) % 7, 0, 7)
  {
    hide Words, FieldMeans, CronMatches;
    var m := (day * 24 + hour) * 60 + minute;
    var time := m * 60_000_000_000 + nanos;
    assert time / MINUTE == m && time % MINUTE == nanos;
    assert m / 60 == day * 24 + hour && m / 1440 == day && m % 60 == minute && (m / 60) % 24 == hour;
    CronMatchesIff(expression, calendar, m);
    if |Words(expression)| == 5 { EachField(Words(expression), calendar, m); }
  }

  // ---- Stars ----

  lemma OnePart(part: string)
    requires ',' !in part
    ensures Split(part, ",") == [part]
  {
    FindChar(part, ',');
  }

  lemma StarStepParses(n: string, min: nat, max: nat)
    requires IsNumeral(n) && 0 < NumeralValue(n) <= U32_MAX
    ensures ParsePart("*/" + n, min, max) == Some(Stepped(min, max, NumeralValue(n)))
    ensures ',' !in "*/" + n
  {
    hide IsNumeral, NumeralValue, ParsePart;
    var p := Part(Every, Some(n));
    WrittenPart(p, min, max);
    NumeralIsWord(n);
    assert PrintPart(p) == "*/" + n;
  }

  lemma OnePartMatches(part: string, value: nat, min: nat, max: nat)
    requires ',' !in part
    ensures FieldMatches(part, value, min, max) <==> PartMatches(part, value, min, max)
  {
    hide PartMatches, Split;
    OnePart(part);
    assert Split(part, ",")[0] == part;
  }

  /** A star with a step matches the least value of the field and every so many after it. */
  lemma StarStepIff(n: string, value: nat, min: nat, max: nat)
    requires IsNumeral(n) && 0 < NumeralValue(n) <= U32_MAX && min <= value <= max && min < 7
    ensures FieldMatches("*/" + n, value, min, max) <==> (value - min) % NumeralValue(n) == 0
  {
    hide IsNumeral, NumeralValue, ParsePart, FieldMatches;
    StarStepParses(n, min, max);
    OnePartMatches("*/" + n, value, min, max);
  }

  /** So, by the clock and the calendar, a star with the step n stands for the minutes, the hours and the days of
      the week, from Sunday, that n divides, and for the first day of a month or the first month of a year and
      every n-th after it. */
  lemma StarStepOf(calendar: Calendar, years: int -> int, minute: int, field: nat, n: string)
    requires IsGregorian(calendar, years) && field < 5 && IsNumeral(n) && 0 < NumeralValue(n) <= U32_MAX
    ensures var least := if field == 2 || field == 3 then 1 else 0;
            FieldMatches("*/" + n, FieldValue(calendar, minute, field), FieldMin(field), FieldMax(field)) <==>
            (FieldValue(calendar, minute, field) - least) % NumeralValue(n) == 0
  {
    hide FieldMatches, FieldValue, IsNumeral, NumeralValue;
    InRange(calendar, years, minute, field);
    StarStepIff(n, FieldValue(calendar, minute, field), FieldMin(field), FieldMax(field));
  }
}
