/** The proleptic Gregorian calendar, and `civil_from_days` as its inverse. */
module Calendar {
  import opened Errors
  import opened Integers

  // ---------------------------------------------------------------------
  // The calendar
  // ---------------------------------------------------------------------

  datatype Date = Date(year: int, month: nat, day: nat)

  predicate IsLeap(year: int) {
    year % 4 == 0 && (year % 100 != 0 || year % 400 == 0)
  }

  function DaysInMonth(year: int, month: nat): nat {
    match month
    case 2 => if IsLeap(year) then 29 else 28
    case 4 | 6 | 9 | 11 => 30
    case _ => 31
  }

  predicate IsDate(d: Date) {
    1 <= d.month <= 12 && 1 <= d.day <= DaysInMonth(d.year, d.month)
  }

  function YearLength(year: int): nat {
    if IsLeap(year) then 366 else 365
  }

  /** Days from 1970-01-01 to the first of January of `year`, counted year by year. */
  function DaysBeforeYear(year: int): int
    decreases if year >= 1970 then year - 1970 else 1970 - year
  {
    if year == 1970 then 0
    else if year > 1970 then DaysBeforeYear(year - 1) + YearLength(year - 1)
    else DaysBeforeYear(year + 1) - YearLength(year)
  }

  /** Days of `year` before the first of `month`, counted month by month. */
  function DaysBeforeMonth(year: int, month: nat): nat
    requires 1 <= month <= 13
  {
    if month == 1 then 0 else DaysBeforeMonth(year, month - 1) + DaysInMonth(year, month - 1)
  }

  /** Days from 1970-01-01 to `d`. */
  function DayNumber(d: Date): int
    requires IsDate(d)
  {
    DaysBeforeYear(d.year) + DaysBeforeMonth(d.year, d.month) + d.day - 1
  }

  /** The order of dates. */
  predicate Before(a: Date, b: Date) {
    a.year < b.year || (a.year == b.year && (a.month < b.month || (a.month == b.month && a.day < b.day)))
  }

  lemma NextYear(year: int)
    ensures DaysBeforeYear(year + 1) == DaysBeforeYear(year) + YearLength(year)
  {
  }

  lemma {:induction false} YearsGrow(a: int, b: int)
    requires a <= b
    ensures DaysBeforeYear(a) <= DaysBeforeYear(b)
    decreases b - a
  {
    if a < b {
      YearsGrow(a, b - 1);
      NextYear(b - 1);
    }
  }

  lemma {:induction false} MonthsGrow(year: int, a: nat, b: nat)
    requires 1 <= a <= b <= 13
    ensures DaysBeforeMonth(year, a) <= DaysBeforeMonth(year, b)
    decreases b - a
  {
    if a < b {
      MonthsGrow(year, a, b - 1);
    }
  }

  /** Days from the first of March to the first of `month`. */
  lemma {:induction false} MarchOffset(year: int, month: nat)
    requires 3 <= month <= 13
    ensures DaysBeforeMonth(year, month) == DaysBeforeMonth(year, 3) + (153 * (month - 3) + 2) / 5
    ensures DaysBeforeMonth(year, 3) == 59 + if IsLeap(year) then 1 else 0
    decreases month
  {
    assert DaysBeforeMonth(year, 2) == 31;
    if month > 3 {
      MarchOffset(year, month - 1);
    }
  }

  lemma MonthsFillYear(year: int)
    ensures DaysBeforeMonth(year, 13) == YearLength(year)
  {
    MarchOffset(year, 13);
  }

  /** A date lies in its year. */
  lemma WithinYear(d: Date)
    requires IsDate(d)
    ensures DaysBeforeYear(d.year) <= DayNumber(d) < DaysBeforeYear(d.year + 1)
  {
    MonthsGrow(d.year, d.month + 1, 13);
    MonthsFillYear(d.year);
    NextYear(d.year);
  }

  /** Day numbers follow the order of dates. */
  lemma DayNumberGrows(a: Date, b: Date)
    requires IsDate(a) && IsDate(b) && Before(a, b)
    ensures DayNumber(a) < DayNumber(b)
  {
    WithinYear(a);
    WithinYear(b);
    if a.year < b.year {
      YearsGrow(a.year + 1, b.year);
    } else if a.month < b.month {
      MonthsGrow(a.year, a.month + 1, b.month);
    }
  }

  /** So a day number names one date. */
  lemma DayNumberIsUnique(a: Date, b: Date)
    requires IsDate(a) && IsDate(b) && DayNumber(a) == DayNumber(b)
    ensures a == b
  {
    if Before(a, b) {
      DayNumberGrows(a, b);
    } else if Before(b, a) {
      DayNumberGrows(b, a);
    }
  }

  /** The count in closed form. */
  lemma {:induction false} ClosedForm(year: int)
    ensures DaysBeforeYear(year) == 365 * (year - 1970) + (year - 1) / 4 - (year - 1) / 100 + (year - 1) / 400 - 477
    decreases if year >= 1970 then year - 1970 else 1970 - year
  {
    if year > 1970 {
      ClosedForm(year - 1);
      LeapStep(year - 1);
    } else if year < 1970 {
      ClosedForm(year + 1);
      LeapStep(year);
    }
  }

  lemma LeapStep(year: int)
    ensures year / 4 - (year - 1) / 4 == (if year % 4 == 0 then 1 else 0)
    ensures year / 100 - (year - 1) / 100 == (if year % 100 == 0 then 1 else 0)
    ensures year / 400 - (year - 1) / 400 == (if year % 400 == 0 then 1 else 0)
    ensures year % 400 == 0 ==> year % 100 == 0
    ensures year % 100 == 0 ==> year % 4 == 0
  {
  }

  // ---------------------------------------------------------------------
  // The algorithm
  // ---------------------------------------------------------------------

  /** `civil_from_days`; `None` where adding 719 468 overflows. The result types show
      that nothing else overflows and that neither `expect` can fail. */
  function CivilFromDays(days: i64): (r: Option<Date>)
    ensures r.Some? <==> days <= I64_MAX - 719_468
  {
    if days + 719_468 > I64_MAX then None
    else
      var z: i64 := days + 719_468;
      var era: i64 := z / 146_097;
      var doe: i64 := z % 146_097;
      var yoe := YearOfEra(doe);
      var doy := DayOfYear(doe, yoe);
      MarchBased(doe);
      Some(MonthAndDay(era, yoe, doy))
  }

  /** The end of `civil_from_days`: from a day of a year counted from March. */
  function MonthAndDay(era: i64, yoe: i64, doy: i64): (d: Date)
    requires -I64_MAX / 1000 <= era <= I64_MAX / 1000 && 0 <= yoe < 400 && 0 <= doy <= 365
  {
    var mp: i64 := (5 * doy + 2) / 153;
    var day: u32 := doy - (153 * mp + 2) / 5 + 1;
    var month: u32 := if mp < 10 then mp + 3 else mp - 9;
    var year: i64 := yoe + era * 400 + if month <= 2 then 1 else 0;
    Date(year, month, day)
  }

  function YearOfEra(doe: i64): i64
    requires 0 <= doe < 146_097
  {
    (doe - doe / 1460 + doe / 36524 - doe / 146_096) / 365
  }

  function DayOfYear(doe: i64, yoe: i64): i64
    requires 0 <= doe < 146_097 && 0 <= yoe < 1000
  {
    doe - (365 * yoe + yoe / 4 - yoe / 100)
  }

  /** Does the year that starts in March of year `yoe` of an era end with a leap day? */
  predicate EndsLeap(yoe: int) {
    (yoe + 1) % 4 == 0 && ((yoe + 1) % 100 != 0 || yoe + 1 == 400)
  }

  /** The days of an era, split into centuries, four-year cycles and years, behave: the
      year of the era and the day of the year are in range, and the 366th day occurs
      only in leap years. */
  lemma MarchBased(doe: i64)
    requires 0 <= doe < 146_097
    ensures var yoe := YearOfEra(doe);
      0 <= yoe < 400 && 0 <= DayOfYear(doe, yoe) <= 365 && (DayOfYear(doe, yoe) == 365 ==> EndsLeap(yoe))
  {
    if doe == 146_096 {
      assert YearOfEra(doe) == 399;
    } else {
      hide YearOfEra, DayOfYear, EndsLeap;
      var r := doe % 36_524;
      SplitDay(doe, r);
      InCycle(doe, doe / 36_524, r / 1461, r % 1461);
    }
  }

  lemma InCycle(doe: i64, c: int, k: int, t: int)
    requires 0 <= c <= 3 && 0 <= k <= 24 && 0 <= t <= 1460 && (k == 24 ==> t < 1460)
    requires doe == 36_524 * c + 1461 * k + t
    ensures 0 <= doe < 146_096
    ensures var yoe := YearOfEra(doe);
      0 <= yoe < 400 && 0 <= DayOfYear(doe, yoe) <= 365 && (DayOfYear(doe, yoe) == 365 ==> EndsLeap(yoe))
  {
    hide YearOfEra, DayOfYear, EndsLeap;
    var j := if t == 1460 then 3 else t / 365;
    Cycle(doe, c, k, t);
    YearParts(c, k, j);
    DayOfYearIs(doe, YearOfEra(doe));
    assert DayOfYear(doe, YearOfEra(doe)) == t - 365 * j;
    DayInYear(t, j);
  }

  lemma DayInYear(t: int, j: int)
    requires 0 <= t <= 1460 && j == if t == 1460 then 3 else t / 365
    ensures 0 <= j <= 3 && 0 <= t - 365 * j <= 365 && (t - 365 * j == 365 ==> t == 1460)
  {
  }

  lemma SplitDay(doe: int, r: int)
    requires 0 <= doe < 146_096 && r == doe % 36_524
    ensures 0 <= doe / 36_524 <= 3 && 0 <= r / 1461 <= 24 && (r / 1461 == 24 ==> r % 1461 < 1460)
    ensures doe == 36_524 * (doe / 36_524) + 1461 * (r / 1461) + r % 1461
  {
  }

  lemma Cycle(doe: i64, c: int, k: int, t: int)
    requires 0 <= c <= 3 && 0 <= k <= 24 && 0 <= t <= 1460 && (k == 24 ==> t < 1460)
    requires doe == 36_524 * c + 1461 * k + t
    ensures 0 <= doe < 146_096
    ensures YearOfEra(doe) == 100 * c + 4 * k + if t == 1460 then 3 else t / 365
  {
    var e := if 24 * c + k + t >= 1460 then 1 else 0;
    assert doe / 1460 == 25 * c + k + e;
    assert doe / 36_524 == c;
    assert doe - doe / 1460 + doe / 36_524 - doe / 146_096 == 365 * (100 * c + 4 * k) + (t - e);
  }

  lemma YearParts(c: int, k: int, j: int)
    requires 0 <= c <= 3 && 0 <= k <= 24 && 0 <= j <= 3
    ensures var yoe := 100 * c + 4 * k + j;
      yoe / 4 == 25 * c + k && yoe / 100 == c && (j == 3 && k < 24 ==> EndsLeap(yoe))
  {
  }

  /** The month and day of a day of the year counted from March. */
  lemma MonthParts(doy: int, mp: int)
    requires 0 <= doy <= 365 && mp == (5 * doy + 2) / 153
    ensures 0 <= mp <= 11 && 0 <= doy - (153 * mp + 2) / 5 && doy < (153 * (mp + 1) + 2) / 5
  {
  }

  /** Days before a year, by the year before it and its place in its era. */
  lemma EraForm(yoe: int, era: int)
    requires 0 <= yoe < 400
    ensures DaysBeforeYear(yoe + 400 * era + 1) == 365 * yoe + yoe / 4 - yoe / 100 + 146_097 * era - 719_162
  {
    ClosedForm(yoe + 400 * era + 1);
    assert (yoe + 400 * era) / 4 == yoe / 4 + 100 * era;
    assert (yoe + 400 * era) / 100 == yoe / 100 + 4 * era;
    assert (yoe + 400 * era) / 400 == era;
  }

  lemma LeapEnd(yoe: int, era: int)
    requires 0 <= yoe < 400
    ensures IsLeap(yoe + 400 * era + 1) <==> EndsLeap(yoe)
  {
    ErasRepeat(yoe + 1, era);
  }

  lemma ErasRepeat(y: int, era: int)
    ensures (y + 400 * era) % 4 == y % 4 && (y + 400 * era) % 100 == y % 100 && (y + 400 * era) % 400 == y % 400
  {
    Modulo4(y, 100 * era);
    Modulo100(y, 4 * era);
    Modulo400(y, era);
  }

  lemma Modulo4(y: int, k: int)
    ensures (y + 4 * k) % 4 == y % 4
  {
  }

  lemma Modulo100(y: int, k: int)
    ensures (y + 100 * k) % 100 == y % 100
  {
  }

  lemma Modulo400(y: int, k: int)
    ensures (y + 400 * k) % 400 == y % 400
  {
  }

  /** `civil_from_days` is the exact inverse of the calendar's day count: the result is a
      date of the calendar, leap days included, and its day number is the argument. */
  lemma CivilIsInverse(days: i64)
    requires days <= I64_MAX - 719_468
    ensures var r := CivilFromDays(days);
      r.Some? && IsDate(r.value) && DayNumber(r.value) == days
  {
    hide MonthAndDay, YearOfEra, DayOfYear, DayNumber, IsDate;
    var z: i64 := days + 719_468;
    var era, doe := z / 146_097, z % 146_097;
    MarchBased(doe);
    var yoe := YearOfEra(doe);
    DayOfYearIs(doe, yoe);
    assert CivilFromDays(days) == Some(MonthAndDay(era, yoe, DayOfYear(doe, yoe)));
    hide CivilFromDays;
    PartsAreDate(era, yoe, DayOfYear(doe, yoe));
  }

  lemma DayOfYearIs(doe: i64, yoe: i64)
    requires 0 <= doe < 146_097 && 0 <= yoe < 400
    ensures (365 * yoe + yoe / 4 - yoe / 100) + DayOfYear(doe, yoe) == doe
  {
  }

  lemma PartsAreDate(era: i64, yoe: i64, doy: i64)
    requires -I64_MAX / 1000 <= era <= I64_MAX / 1000 && 0 <= yoe < 400 && 0 <= doy <= 365
    requires doy == 365 ==> EndsLeap(yoe)
    ensures var d := MonthAndDay(era, yoe, doy);
      IsDate(d) && DayNumber(d) == 146_097 * era + (365 * yoe + yoe / 4 - yoe / 100) + doy - 719_468
  {
    hide DaysBeforeYear, DaysBeforeMonth, DaysInMonth, IsLeap, EndsLeap;
    var mp := (5 * doy + 2) / 153;
    MonthParts(doy, mp);
    EraForm(yoe, era);
    LeapEnd(yoe, era);
    var d, y := MonthAndDay(era, yoe, doy), yoe + 400 * era;
    if mp < 10 {
      InMonth(y, d.month, d.day, doy, mp);
      NextYear(y);
    } else {
      InJanuaryOrFebruary(y + 1, d.month, d.day, doy, mp);
    }
  }

  lemma InJanuaryOrFebruary(year: int, month: nat, day: int, doy: int, mp: int)
    requires 10 <= mp <= 11 && month == mp - 9 && 0 <= doy - (153 * mp + 2) / 5 && doy < (153 * (mp + 1) + 2) / 5
    requires day == doy - (153 * mp + 2) / 5 + 1 && doy <= 365 && (doy == 365 ==> IsLeap(year))
    ensures 1 <= day <= DaysInMonth(year, month)
    ensures DaysBeforeMonth(year, month) + day - 1 == doy - 306
  {
  }

  lemma InMonth(year: int, month: nat, day: int, doy: int, mp: int)
    requires 0 <= mp < 10 && month == mp + 3 && 0 <= doy - (153 * mp + 2) / 5 && doy < (153 * (mp + 1) + 2) / 5
    requires day == doy - (153 * mp + 2) / 5 + 1
    ensures 1 <= day <= DaysInMonth(year, month)
    ensures DaysBeforeMonth(year, month) + day - 1 == YearLength(year) - 306 + doy
  {
    MarchOffset(year, month);
  }

  /** The other way round: from the day number of any date, that date. */
  lemma CivilOfDayNumber(d: Date)
    requires IsDate(d) && -I64_MAX - 1 <= DayNumber(d) <= I64_MAX - 719_468
    ensures CivilFromDays(DayNumber(d)) == Some(d)
  {
    CivilIsInverse(DayNumber(d));
    DayNumberIsUnique(CivilFromDays(DayNumber(d)).value, d);
  }

  /** Later days have later dates. */
  lemma CivilGrows(a: i64, b: i64)
    requires a < b <= I64_MAX - 719_468
    ensures Before(CivilFromDays(a).value, CivilFromDays(b).value)
  {
    CivilIsInverse(a);
    CivilIsInverse(b);
    var x, y := CivilFromDays(a).value, CivilFromDays(b).value;
    hide CivilFromDays, DayNumber;
    if Before(y, x) {
      DayNumberGrows(y, x);
    }
  }
}
