/** Days, months and the text they are written as (ayq-dates.ts).

    A date is a `Civil` triple, a `DAY NUMBER` counts days from 1970-01-01 the
    way section 21.4.1 of ECMA-262 does, and a month index counts months from
    0000-01. Every other module works on day numbers; `TextOrderIsDayOrder`
    is what entitles it to. */
module Calendar {
  import Lists
  import opened Strings

  datatype Civil = Civil(year: int, month: int, day: int)

  // ------------------------------------------- ECMA-262, section 21.4.1

  predicate Leap(year: int) {
    year % 4 == 0 && (year % 100 != 0 || year % 400 == 0)
  }

  function DaysInYear(year: int): int {
    if Leap(year) then 366 else 365
  }

  /** The day number of the first of January. */
  function DayFromYear(year: int): int {
    365 * (year - 1970) + (year - 1969) / 4 - (year - 1901) / 100 + (year - 1601) / 400
  }

  /** The length of a month of the proleptic Gregorian calendar. */
  function MonthLength(year: int, month: int): int {
    if month == 2 then (if Leap(year) then 29 else 28)
    else if month == 4 || month == 6 || month == 9 || month == 11 then 30
    else 31
  }

  function DaysBeforeMonth(year: int, month: int): int {
    if month <= 1 then 0 else DaysBeforeMonth(year, month - 1) + MonthLength(year, month - 1)
  }

  predicate Valid(date: Civil) {
    1 <= date.month <= 12 && 1 <= date.day <= MonthLength(date.year, date.month)
  }

  /** Four digits are what a date is written with. */
  predicate Written(date: Civil) {
    Valid(date) && 0 <= date.year <= 9999
  }

  function DayNumber(date: Civil): int {
    DayFromYear(date.year) + DaysBeforeMonth(date.year, date.month) + date.day - 1
  }

  /** Rounding down moves by one exactly at the multiples. */
  lemma QuotientStep(x: int)
    ensures (x + 1) / 4 == x / 4 + (if (x + 1) % 4 == 0 then 1 else 0)
    ensures (x + 1) / 100 == x / 100 + (if (x + 1) % 100 == 0 then 1 else 0)
    ensures (x + 1) / 400 == x / 400 + (if (x + 1) % 400 == 0 then 1 else 0)
  {
  }

  lemma By4(x: int, q: int, r: int)
    requires 0 <= r < 4 && x == 4 * q + r
    ensures x / 4 == q && x % 4 == r
  {
  }

  lemma By12(x: int, q: int, r: int)
    requires 0 <= r < 12 && x == 12 * q + r
    ensures x / 12 == q && x % 12 == r
  {
  }

  lemma By100(x: int, q: int, r: int)
    requires 0 <= r < 100 && x == 100 * q + r
    ensures x / 100 == q && x % 100 == r
  {
  }

  lemma By400(x: int, q: int, r: int)
    requires 0 <= r < 400 && x == 400 * q + r
    ensures x / 400 == q && x % 400 == r
  {
  }

  lemma CenturyShift(year: int)
    ensures (year - 1968) % 4 == year % 4
    ensures (year - 1900) % 100 == year % 100
    ensures (year - 1600) % 400 == year % 400
    ensures year % 400 == 0 ==> year % 100 == 0
    ensures year % 100 == 0 ==> year % 4 == 0
  {
    By4(year - 1968, year / 4 - 492, year % 4);
    By100(year - 1900, year / 100 - 19, year % 100);
    By400(year - 1600, year / 400 - 4, year % 400);
    if year % 400 == 0 {
      By100(year, 4 * (year / 400), 0);
    }
    if year % 100 == 0 {
      By4(year, 25 * (year / 100), 0);
    }
  }

  lemma YearLength(year: int)
    ensures DayFromYear(year + 1) == DayFromYear(year) + DaysInYear(year)
  {
    QuotientStep(year - 1969);
    QuotientStep(year - 1901);
    QuotientStep(year - 1601);
    CenturyShift(year);
  }

  lemma {:induction false} YearsApart(a: int, b: int)
    requires a <= b
    ensures DayFromYear(a) + 365 * (b - a) <= DayFromYear(b)
    decreases b - a
  {
    if a < b {
      YearsApart(a, b - 1);
      YearLength(b - 1);
    }
  }

  /** The year a day falls in, looked for upwards from one that is early enough. */
  function YearFrom(day: int, early: int): (year: int)
    requires DayFromYear(early) <= day
    decreases day - DayFromYear(early)
  {
    YearLength(early);
    if day < DayFromYear(early + 1) then early else YearFrom(day, early + 1)
  }

  function YearOf(day: int): int {
    if day >= 0 then YearFrom(day, 1970)
    else
      YearsApart(1970 + day, 1970);
      YearFrom(day, 1970 + day)
  }

  /** The month a day of the year falls in, looked for the same way. */
  function MonthFrom(year: int, within: int, early: int): int
    decreases 12 - early
  {
    if early >= 12 || within < DaysBeforeMonth(year, early + 1) then early
    else MonthFrom(year, within, early + 1)
  }

  /** The date a day number stands for; the inverse of `DayNumber`. */
  function FromDay(day: int): Civil {
    var year := YearOf(day);
    var within := day - DayFromYear(year);
    var month := MonthFrom(year, within, 1);
    Civil(year, month, within - DaysBeforeMonth(year, month) + 1)
  }

  lemma {:induction false} YearFromFinds(day: int, early: int)
    requires DayFromYear(early) <= day
    ensures var year := YearFrom(day, early); DayFromYear(year) <= day < DayFromYear(year + 1)
    decreases day - DayFromYear(early)
  {
    YearLength(early);
    if day >= DayFromYear(early + 1) {
      YearFromFinds(day, early + 1);
    }
  }

  /** The months of a year fill it, one after another. */
  lemma MonthsFillTheYear(year: int)
    ensures DaysBeforeMonth(year, 13) == DaysInYear(year)
  {
    var february := MonthLength(year, 2);
    assert DaysBeforeMonth(year, 1) == 0;
    assert DaysBeforeMonth(year, 2) == 31;
    assert DaysBeforeMonth(year, 3) == 31 + february;
    assert DaysBeforeMonth(year, 4) == 62 + february;
    assert DaysBeforeMonth(year, 5) == 92 + february;
    assert DaysBeforeMonth(year, 6) == 123 + february;
    assert DaysBeforeMonth(year, 7) == 153 + february;
    assert DaysBeforeMonth(year, 8) == 184 + february;
    assert DaysBeforeMonth(year, 9) == 215 + february;
    assert DaysBeforeMonth(year, 10) == 245 + february;
    assert DaysBeforeMonth(year, 11) == 276 + february;
    assert DaysBeforeMonth(year, 12) == 306 + february;
  }

  lemma {:induction false} MonthFromFinds(year: int, within: int, early: int)
    requires 1 <= early <= 12 && DaysBeforeMonth(year, early) <= within < DaysInYear(year)
    ensures var month := MonthFrom(year, within, early);
      && early <= month <= 12
      && DaysBeforeMonth(year, month) <= within < DaysBeforeMonth(year, month) + MonthLength(year, month)
    decreases 12 - early
  {
    if early == 12 {
      MonthsFillTheYear(year);
    } else if within >= DaysBeforeMonth(year, early + 1) {
      MonthFromFinds(year, within, early + 1);
    }
  }

  lemma YearOfFinds(day: int)
    ensures DayFromYear(YearOf(day)) <= day < DayFromYear(YearOf(day) + 1)
  {
    if day >= 0 {
      YearFromFinds(day, 1970);
    } else {
      YearsApart(1970 + day, 1970);
      YearFromFinds(day, 1970 + day);
    }
  }

  lemma FromDayIsADate(day: int)
    ensures Valid(FromDay(day)) && DayNumber(FromDay(day)) == day
  {
    YearOfFinds(day);
    YearLength(YearOf(day));
    MonthFromFinds(YearOf(day), day - DayFromYear(YearOf(day)), 1);
  }

  predicate Earlier(a: Civil, b: Civil) {
    || a.year < b.year
    || (a.year == b.year && a.month < b.month)
    || (a.year == b.year && a.month == b.month && a.day < b.day)
  }

  lemma {:induction false} MonthsApart(year: int, a: int, b: int)
    requires 1 <= a < b <= 13
    ensures DaysBeforeMonth(year, a) + MonthLength(year, a) <= DaysBeforeMonth(year, b)
    decreases b - a
  {
    if a + 1 < b {
      MonthsApart(year, a, b - 1);
    }
  }

  lemma WithinYear(a: Civil)
    requires Valid(a)
    ensures DayFromYear(a.year) <= DayNumber(a) < DayFromYear(a.year + 1)
  {
    YearLength(a.year);
    MonthsFillTheYear(a.year);
    MonthsApart(a.year, a.month, 13);
    if a.month > 1 {
      MonthsApart(a.year, 1, a.month);
    }
  }

  /** Day numbers count dates in calendar order, one apart, with no gaps: with
      `FromDay` this makes them a bijection with the valid dates. */
  lemma DayOrder(a: Civil, b: Civil)
    requires Valid(a) && Valid(b)
    ensures DayNumber(a) < DayNumber(b) <==> Earlier(a, b)
    ensures DayNumber(a) == DayNumber(b) <==> a == b
  {
    WithinYear(a);
    WithinYear(b);
    if a.year < b.year {
      YearsApart(a.year + 1, b.year);
    } else if b.year < a.year {
      YearsApart(b.year + 1, a.year);
    } else if a.month < b.month {
      MonthsApart(a.year, a.month, b.month);
    } else if b.month < a.month {
      MonthsApart(a.year, b.month, a.month);
    }
  }

  lemma FromDayOfDayNumber(date: Civil)
    requires Valid(date)
    ensures FromDay(DayNumber(date)) == date
  {
    FromDayIsADate(DayNumber(date));
    DayOrder(FromDay(DayNumber(date)), date);
  }

  /** `MakeDay` of ECMA-262: months count from nought and may be out of range,
      and the day of the month may be any integer. */
  function MakeDay(year: int, month0: int, day: int): int {
    DayNumber(Civil(year + month0 / 12, month0 % 12 + 1, 1)) + day - 1
  }

  /** `Date.UTC` reads the years 0 to 99 as 1900 to 1999. */
  function FullYear(year: int): int {
    if 0 <= year <= 99 then 1900 + year else year
  }

  // -------------------------------------------------------- ayq-dates.ts

  function DaysInMonth(year: int, month: int): int {
    FromDay(MakeDay(FullYear(year), month, 0)).day
  }

  function AddDays(date: Civil, count: int): Civil {
    FromDay(MakeDay(date.year, date.month - 1, date.day + count))
  }

  function DaysBetween(from: Civil, to: Civil): int {
    DayNumber(to) - DayNumber(from)
  }

  /** The remainder of JavaScript takes the sign of its left operand. */
  function JsRemainder(a: int, b: int): int
    requires b > 0
  {
    if a >= 0 then a % b else -((-a) % b)
  }

  /** Months counted from January of the year nought. */
  function MonthIndex(date: Civil): int {
    date.year * 12 + date.month - 1
  }

  function AddMonths(date: Civil, count: int): Civil {
    var zero := MonthIndex(date) + count;
    Clamped(zero / 12, JsRemainder(zero, 12) + 1, date.day)
  }

  /** The day of that month, or the last it has. */
  function Clamped(year: int, month: int, day: int): Civil {
    Civil(year, month, Lists.Min(day, DaysInMonth(year, month)))
  }

  lemma FirstOfMonth(year: int, month: int)
    requires 1 <= month <= 12
    ensures MakeDay(year, month - 1, 1) == DayNumber(Civil(year, month, 1))
    ensures MakeDay(year, month, 1) == DayNumber(Civil(year, month, MonthLength(year, month))) + 1
  {
    By12(month - 1, 0, month - 1);
    if month == 12 {
      YearLength(year);
      MonthsFillTheYear(year);
    } else {
      By12(month, 0, month);
    }
  }

  lemma DaysInMonthOf(year: int, month: int)
    requires 1 <= month <= 12
    ensures FromDay(MakeDay(year, month, 0)).day == MonthLength(year, month)
  {
    FirstOfMonth(year, month);
    FromDayOfDayNumber(Civil(year, month, MonthLength(year, month)));
  }

  lemma LeapIn1900s(year: int)
    requires 0 <= year <= 99
    ensures Leap(1900 + year) <==> Leap(year) && year != 0
  {
    By4(1900 + year, 475 + year / 4, year % 4);
    By100(1900 + year, 19, year);
    if year == 0 {
      By400(1900, 4, 300);
    }
  }

  lemma LengthInTheYearMeant(year: int, month: int)
    ensures 28 <= MonthLength(FullYear(year), month) <= MonthLength(year, month)
    ensures MonthLength(FullYear(year), month) == MonthLength(year, month) <==> !(year == 0 && month == 2)
  {
    if 0 <= year <= 99 {
      LeapIn1900s(year);
    }
  }

  /** Every month length AYQ reads is the calendar's, with one exception among
      the ten thousand years a date can be written in: the year 0000 is asked
      for as 1900, which unlike it was no leap year. */
  lemma DaysInMonthIsRight(year: int, month: int)
    requires 1 <= month <= 12
    ensures DaysInMonth(year, month) == MonthLength(FullYear(year), month)
    ensures DaysInMonth(year, month) == MonthLength(year, month) <==> !(year == 0 && month == 2)
  {
    DaysInMonthOf(FullYear(year), month);
    LengthInTheYearMeant(year, month);
  }

  lemma DaysInMonthBounds(year: int, month: int)
    requires 1 <= month <= 12
    ensures 28 <= DaysInMonth(year, month) <= MonthLength(year, month)
    ensures year > 0 ==> DaysInMonth(year, month) == MonthLength(year, month)
  {
    DaysInMonthOf(FullYear(year), month);
    LengthInTheYearMeant(year, month);
  }

  lemma YearNoughtIsReadAs1900()
    ensures DaysInMonth(0, 2) == 28 && MonthLength(0, 2) == 29
  {
    DaysInMonthIsRight(0, 2);
  }

  lemma MakeDayCounts(date: Civil, count: int)
    requires Valid(date)
    ensures MakeDay(date.year, date.month - 1, date.day + count) == DayNumber(date) + count
  {
    By12(date.month - 1, 0, date.month - 1);
  }

  /** Adding days is exact, so it is an action of the integers on dates, and
      counting the days between undoes it. */
  lemma AddDaysIsExact(date: Civil, count: int)
    requires Valid(date)
    ensures Valid(AddDays(date, count))
    ensures DayNumber(AddDays(date, count)) == DayNumber(date) + count
    ensures DaysBetween(date, AddDays(date, count)) == count
  {
    MakeDayCounts(date, count);
    FromDayIsADate(DayNumber(date) + count);
  }

  lemma AddDaysIs(date: Civil, count: int, target: Civil)
    requires Valid(date) && Valid(target) && DayNumber(target) == DayNumber(date) + count
    ensures AddDays(date, count) == target
  {
    AddDaysIsExact(date, count);
    DayOrder(AddDays(date, count), target);
  }

  lemma AddDaysActs(date: Civil, a: int, b: int)
    requires Valid(date)
    ensures AddDays(date, 0) == date
    ensures AddDays(AddDays(date, a), b) == AddDays(date, a + b)
  {
    AddDaysIs(date, 0, date);
    var x := AddDays(date, a);
    AddDaysIsExact(date, a);
    var y := AddDays(x, b);
    AddDaysIsExact(x, b);
    AddDaysIs(date, a + b, y);
  }

  lemma AddDaysReaches(from: Civil, to: Civil)
    requires Valid(from) && Valid(to)
    ensures AddDays(from, DaysBetween(from, to)) == to
  {
    AddDaysIsExact(from, DaysBetween(from, to));
    DayOrder(AddDays(from, DaysBetween(from, to)), to);
  }

  lemma RemainderSign(zero: int)
    ensures 1 <= JsRemainder(zero, 12) + 1 <= 12 <==> zero >= 0 || zero % 12 == 0
    ensures zero >= 0 ==> JsRemainder(zero, 12) == zero % 12
  {
    if zero < 0 {
      var q, r := (-zero) / 12, (-zero) % 12;
      if r == 0 {
        By12(zero, -q, 0);
      } else {
        By12(zero, -q - 1, 12 - r);
      }
    }
  }

  lemma ClampedIsADate(year: int, month: int, day: int)
    requires day >= 1
    ensures Valid(Clamped(year, month, day)) <==> 1 <= month <= 12
    ensures year > 0 && 1 <= month <= 12 ==> Clamped(year, month, day).day == Lists.Min(day, MonthLength(year, month))
  {
    if 1 <= month <= 12 {
      DaysInMonthBounds(year, month);
    }
  }

  lemma AddMonthsAt(date: Civil, count: int, zero: int)
    requires Valid(date) && zero == MonthIndex(date) + count
    ensures Valid(AddMonths(date, count)) <==> zero >= 0 || zero % 12 == 0
    ensures zero >= 0 ==> AddMonths(date, count) == Clamped(zero / 12, zero % 12 + 1, date.day)
  {
    RemainderSign(zero);
    ClampedIsADate(zero / 12, JsRemainder(zero, 12) + 1, date.day);
  }

  /** Month arithmetic never drifts: the month moves by exactly the count and the
      day is the one started from, or the last the month has. */
  lemma AddMonthsKeepsTheDay(date: Civil, count: int)
    requires Valid(date) && MonthIndex(date) + count >= 0
    ensures var r := AddMonths(date, count);
      && Valid(r)
      && MonthIndex(r) == MonthIndex(date) + count
      && r.day == Lists.Min(date.day, DaysInMonth(r.year, r.month))
      && (r.year > 0 ==> r.day == Lists.Min(date.day, MonthLength(r.year, r.month)))
  {
    var zero := MonthIndex(date) + count;
    AddMonthsAt(date, count, zero);
    ClampedIsADate(zero / 12, zero % 12 + 1, date.day);
  }

  lemma MonthOrder(a: Civil, b: Civil)
    requires Valid(a) && Valid(b)
    ensures MonthIndex(a) < MonthIndex(b) ==> Earlier(a, b)
    ensures MonthIndex(a) == MonthIndex(b) ==> a.year == b.year && a.month == b.month
  {
  }

  lemma AddMonthsGrowsWithTheCount(date: Civil, fewer: int, more: int)
    requires Valid(date) && MonthIndex(date) + fewer >= 0 && fewer < more
    ensures DayNumber(AddMonths(date, fewer)) < DayNumber(AddMonths(date, more))
  {
    AddMonthsKeepsTheDay(date, fewer);
    AddMonthsKeepsTheDay(date, more);
    MonthOrder(AddMonths(date, fewer), AddMonths(date, more));
    DayOrder(AddMonths(date, fewer), AddMonths(date, more));
  }

  lemma AddMonthsGrowsWithTheDate(a: Civil, b: Civil, count: int)
    requires Valid(a) && Valid(b) && DayNumber(a) <= DayNumber(b)
    requires MonthIndex(a) + count >= 0
    ensures DayNumber(AddMonths(a, count)) <= DayNumber(AddMonths(b, count))
  {
    DayOrder(a, b);
    MonthOrder(b, a);
    AddMonthsKeepsTheDay(a, count);
    AddMonthsKeepsTheDay(b, count);
    var x, y := AddMonths(a, count), AddMonths(b, count);
    MonthOrder(x, y);
    DayOrder(x, y);
  }

  // ---------------------------------------- the same, on day numbers

  /** Days that can be written: 0000-01-01 onwards. */
  const FIRST_DAY: int := DayFromYear(0)

  lemma YearsOfDays(year: int, day: int)
    requires DayFromYear(year) <= day < DayFromYear(year + 1)
    ensures day >= DayFromYear(0) <==> year >= 0
  {
    if year >= 0 {
      YearsApart(0, year);
    } else {
      YearsApart(year + 1, 0);
    }
  }

  lemma NotBeforeTheYearNought(day: int)
    ensures day >= FIRST_DAY <==> MonthIndex(FromDay(day)) >= 0
  {
    FromDayIsADate(day);
    WithinYear(FromDay(day));
    YearsOfDays(FromDay(day).year, day);
  }

  function ShiftMonths(day: int, count: int): int {
    DayNumber(AddMonths(FromDay(day), count))
  }

  lemma ShiftMonthsLandsIn(day: int, count: nat)
    requires FIRST_DAY <= day
    ensures MonthOf(ShiftMonths(day, count)) == MonthOf(day) + count
  {
    NotBeforeTheYearNought(day);
    FromDayIsADate(day);
    AddMonthsKeepsTheDay(FromDay(day), count);
    FromDayOfDayNumber(AddMonths(FromDay(day), count));
  }

  lemma LaterMonthIsLater(a: int, b: int)
    ensures MonthOf(a) < MonthOf(b) ==> a < b
    ensures a <= b ==> MonthOf(a) <= MonthOf(b)
  {
    FromDayIsADate(a);
    FromDayIsADate(b);
    MonthOrder(FromDay(a), FromDay(b));
    MonthOrder(FromDay(b), FromDay(a));
    DayOrder(FromDay(a), FromDay(b));
    DayOrder(FromDay(b), FromDay(a));
  }

  lemma ShiftMonthsGrowsWithTheCount(day: int, fewer: nat, more: nat)
    requires FIRST_DAY <= day && fewer < more
    ensures ShiftMonths(day, fewer) < ShiftMonths(day, more)
    ensures day < ShiftMonths(day, more)
  {
    ShiftMonthsLandsIn(day, fewer);
    ShiftMonthsLandsIn(day, more);
    LaterMonthIsLater(ShiftMonths(day, fewer), ShiftMonths(day, more));
    LaterMonthIsLater(day, ShiftMonths(day, more));
  }

  lemma ShiftMonthsGrowsWithTheDay(a: int, b: int, count: nat)
    requires FIRST_DAY <= a <= b
    ensures ShiftMonths(a, count) <= ShiftMonths(b, count)
  {
    NotBeforeTheYearNought(a);
    FromDayIsADate(a);
    FromDayIsADate(b);
    AddMonthsGrowsWithTheDate(FromDay(a), FromDay(b), count);
  }

  function MonthOf(day: int): int {
    MonthIndex(FromDay(day))
  }

  function MonthStart(month: int): int {
    DayNumber(Civil(month / 12, month % 12 + 1, 1))
  }

  function MonthEnd(month: int): int {
    DayNumber(Civil(month / 12, month % 12 + 1, DaysInMonth(month / 12, month % 12 + 1)))
  }

  /** The days from the first to the last of a month are the days in it: for
      every month but February 0000, which AYQ ends a day early. */
  lemma MonthBounds(month: int)
    ensures (forall day :: MonthOf(day) == month <==> MonthStart(month) <= day <= MonthEnd(month)) <==> month != 1
  {
    var year, index := month / 12, month % 12 + 1;
    DaysInMonthIsRight(year, index);
    var last := DayNumber(Civil(year, index, MonthLength(year, index)));
    forall day ensures MonthOf(day) == month <==> MonthStart(month) <= day <= last {
      InMonth(day, month);
    }
    assert MonthOf(last) == month;
  }

  lemma InMonth(day: int, month: int)
    ensures var year, index := month / 12, month % 12 + 1;
      MonthOf(day) == month <==>
        DayNumber(Civil(year, index, 1)) <= day <= DayNumber(Civil(year, index, MonthLength(year, index)))
  {
    var year, index := month / 12, month % 12 + 1;
    var first, last := Civil(year, index, 1), Civil(year, index, MonthLength(year, index));
    FromDayIsADate(day);
    DayOrder(FromDay(day), first);
    DayOrder(last, FromDay(day));
  }

  lemma MonthStartIsInItsMonth(month: int)
    ensures MonthOf(MonthStart(month)) == month
    ensures FromDay(MonthStart(month)).day == 1
  {
    FromDayOfDayNumber(Civil(month / 12, month % 12 + 1, 1));
  }

  lemma StartIsFirst(day: int)
    ensures MonthStart(MonthOf(day)) <= day
  {
    InMonth(day, MonthOf(day));
  }

  function NextMonth(month: int): int {
    MonthOf(ShiftMonths(MonthStart(month), 1))
  }

  lemma NextMonthIsNext(month: nat)
    ensures NextMonth(month) == month + 1
  {
    MonthStartIsInItsMonth(month);
    NotBeforeTheYearNought(MonthStart(month));
    ShiftMonthsLandsIn(MonthStart(month), 1);
  }

  const MOST_MONTHS: nat := 600

  function Months(from: int, to: int): seq<int> {
    seq(Lists.Max(0, Lists.Min(MOST_MONTHS, to - from + 1)), i => from + i)
  }

  /** Every month of a stretch once and in order, cut off after six hundred. */
  lemma MonthsListsEach(from: int, to: int)
    ensures forall month :: month in Months(from, to) <==> from <= month <= to && month < from + 600
    ensures forall i, j :: 0 <= i < j < |Months(from, to)| ==> Months(from, to)[i] < Months(from, to)[j]
  {
    var months := Months(from, to);
    forall month | from <= month <= to && month < from + MOST_MONTHS ensures month in months {
      assert months[month - from] == month;
    }
  }

  method MonthAfter(month: nat) returns (next: nat)
    ensures next == month + 1
  {
    NextMonthIsNext(month);
    next := NextMonth(month);
  }

  method MonthsBetween(from: nat, to: int) returns (months: seq<int>)
    ensures months == Months(from, to)
  {
    months := [];
    var cursor: nat := from;
    var step := 0;
    while step < MOST_MONTHS && cursor <= to
      invariant 0 <= step <= MOST_MONTHS && cursor == from + step
      invariant step > 0 ==> cursor - 1 <= to
      invariant months == seq(step, i => from + i)
    {
      months := months + [cursor];
      cursor := MonthAfter(cursor);
      step := step + 1;
    }
  }

  // -------------------------------------------------- dates as they are written

  function Digit(n: int): char
    requires 0 <= n < 10
  {
    ('0' as int + n) as char
  }

  function Pad2(n: int): string
    requires 0 <= n < 100
  {
    [Digit(n / 10), Digit(n % 10)]
  }

  function Pad4(n: int): string
    requires 0 <= n < 10000
  {
    Pad2(n / 100) + Pad2(n % 100)
  }

  function Text(date: Civil): string
    requires Written(date)
  {
    Pad4(date.year) + "-" + Pad2(date.month) + "-" + Pad2(date.day)
  }

  lemma Pad2Order(a: int, b: int)
    requires 0 <= a < 100 && 0 <= b < 100
    ensures TextLess(Pad2(a), Pad2(b)) <==> a < b
    ensures Pad2(a) == Pad2(b) <==> a == b
  {
    assert Pad2(a)[0] == Digit(a / 10) && Pad2(a)[1] == Digit(a % 10);
    assert Pad2(b)[0] == Digit(b / 10) && Pad2(b)[1] == Digit(b % 10);
    OneCharacter(Digit(a % 10), Digit(b % 10));
    assert Pad2(a)[1..] == [Digit(a % 10)] && Pad2(b)[1..] == [Digit(b % 10)];
    assert a == 10 * (a / 10) + a % 10 && b == 10 * (b / 10) + b % 10;
  }

  lemma Pad4Order(a: int, b: int)
    requires 0 <= a < 10000 && 0 <= b < 10000
    ensures TextLess(Pad4(a), Pad4(b)) <==> a < b
    ensures Pad4(a) == Pad4(b) <==> a == b
  {
    Pad2Order(a / 100, b / 100);
    Pad2Order(a % 100, b % 100);
    TextLessConcat(Pad2(a / 100), Pad2(b / 100), Pad2(a % 100), Pad2(b % 100));
    assert Pad4(a)[..2] == Pad2(a / 100) && Pad4(b)[..2] == Pad2(b / 100);
    assert Pad4(a)[2..] == Pad2(a % 100) && Pad4(b)[2..] == Pad2(b % 100);
  }

  lemma AfterDash(a: string, b: string)
    ensures TextLess("-" + a, "-" + b) <==> TextLess(a, b)
  {
    TextLessConcat("-", "-", a, b);
  }

  /** Comparing dates as text is comparing them as days. */
  lemma TextOrderIsDayOrder(a: Civil, b: Civil)
    requires Written(a) && Written(b)
    ensures TextLess(Text(a), Text(b)) <==> DayNumber(a) < DayNumber(b)
    ensures Text(a) == Text(b) <==> a == b
  {
    DayOrder(a, b);
    var restA, restB := Pad2(a.month) + ("-" + Pad2(a.day)), Pad2(b.month) + ("-" + Pad2(b.day));
    assert Text(a) == Pad4(a.year) + ("-" + restA);
    assert Text(b) == Pad4(b.year) + ("-" + restB);
    TextLessConcat(Pad4(a.year), Pad4(b.year), "-" + restA, "-" + restB);
    AfterDash(restA, restB);
    TextLessConcat(Pad2(a.month), Pad2(b.month), "-" + Pad2(a.day), "-" + Pad2(b.day));
    AfterDash(Pad2(a.day), Pad2(b.day));
    Pad4Order(a.year, b.year);
    Pad2Order(a.month, b.month);
    Pad2Order(a.day, b.day);
    assert Text(a)[..4] == Pad4(a.year) && Text(b)[..4] == Pad4(b.year);
    assert Text(a)[5..7] == Pad2(a.month) && Text(b)[5..7] == Pad2(b.month);
    assert Text(a)[8..] == Pad2(a.day) && Text(b)[8..] == Pad2(b.day);
  }

  /** The month of a date is its first seven characters, and comparing those is
      comparing month indexes. */
  lemma MonthTextOrder(a: Civil, b: Civil)
    requires Written(a) && Written(b)
    ensures TextLess(Text(a)[..7], Text(b)[..7]) <==> MonthIndex(a) < MonthIndex(b)
    ensures Text(a)[..7] == Text(b)[..7] <==> MonthIndex(a) == MonthIndex(b)
  {
    var monthA, monthB := Pad2(a.month), Pad2(b.month);
    assert Text(a)[..7] == Pad4(a.year) + ("-" + monthA);
    assert Text(b)[..7] == Pad4(b.year) + ("-" + monthB);
    TextLessConcat(Pad4(a.year), Pad4(b.year), "-" + monthA, "-" + monthB);
    AfterDash(monthA, monthB);
    Pad4Order(a.year, b.year);
    Pad2Order(a.month, b.month);
    assert Text(a)[..7][..4] == Pad4(a.year) && Text(b)[..7][..4] == Pad4(b.year);
    assert Text(a)[..7][5..] == monthA && Text(b)[..7][5..] == monthB;
  }
}
