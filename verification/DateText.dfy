/** What the date arithmetic prints (ayq-dates.ts): a date is text in the code, and
    outside the years of four digits the text is not a date. */
module DateText {
  import Lists
  import opened Calendar

  /** `String(n)` of a number that is not negative. */
  function Digits(n: nat): (text: string)
    ensures text != "" && forall i :: 0 <= i < |text| ==> '0' <= text[i] <= '9'
    ensures (n >= 10 ==> |text| >= 2) && (n >= 100 ==> |text| >= 3) && (n >= 1000 ==> |text| >= 4) && (n >= 10000 ==> |text| >= 5)
  {
    if n < 10 then [Digit(n)] else Digits(n / 10) + [Digit(n % 10)]
  }

  function Decimal(n: int): string {
    if n < 0 then "-" + Digits(-n) else Digits(n)
  }

  /** `padStart` with noughts. */
  function PadStart(text: string, length: nat): string {
    seq(Lists.Max(0, length - |text|), _ => '0') + text
  }

  /** `ayqDate`: whatever the numbers are, they are padded and joined. */
  function Printed(date: Civil): string {
    PadStart(Decimal(date.year), 4) + "-" + PadStart(Decimal(date.month), 2) + "-" + PadStart(Decimal(date.day), 2)
  }

  /** `toISOString().slice(0, 10)`: outside four digits the year is written with
      its sign and six. */
  function Sliced(date: Civil): string {
    if Written(date) then Text(date)
    else ((if date.year < 0 then "-" else "+") + PadStart(Decimal(if date.year < 0 then -date.year else date.year), 6)
          + "-" + PadStart(Decimal(date.month), 2) + "-" + PadStart(Decimal(date.day), 2))[..10]
  }

  ghost predicate IsDateText(text: string) {
    exists date :: Written(date) && text == Text(date)
  }

  lemma Pad2Looks(n: int)
    requires 0 <= n < 100
    ensures |Pad2(n)| == 2 && forall i :: 0 <= i < 2 ==> '0' <= Pad2(n)[i] <= '9'
  {
  }

  lemma DateTextLooks(text: string)
    requires IsDateText(text)
    ensures |text| == 10 && forall i :: 0 <= i < 4 ==> '0' <= text[i] <= '9'
  {
    var date :| Written(date) && text == Text(date);
    Pad2Looks(date.year / 100);
    Pad2Looks(date.year % 100);
    assert text[..2] == Pad2(date.year / 100) && text[2..4] == Pad2(date.year % 100);
    assert forall i :: 0 <= i < 4 ==> text[i] == if i < 2 then text[..2][i] else text[2..4][i - 2];
  }

  lemma Pad2IsPadStart(n: int)
    requires 0 <= n < 100
    ensures PadStart(Decimal(n), 2) == Pad2(n)
  {
    if n >= 10 {
      assert Digits(n / 10) == [Digit(n / 10)];
    } else {
      assert seq(1, _ => '0') == "0";
    }
  }

  lemma LastTwo(n: int)
    requires n >= 100
    ensures Digits(n) == Digits(n / 100) + Pad2(n % 100)
  {
    assert n / 10 / 10 == n / 100 && n / 10 % 10 == n % 100 / 10 && n % 10 == n % 100 % 10;
    assert Digits(n) == Digits(n / 10) + [Digit(n % 10)];
    assert Digits(n / 10) == Digits(n / 10 / 10) + [Digit(n / 10 % 10)];
  }

  lemma PadFurther(text: string, two: string)
    requires |two| == 2 && |text| <= 2
    ensures PadStart(text + two, 4) == PadStart(text, 2) + two
  {
  }

  lemma Pad4IsPadStart(n: int)
    requires 0 <= n < 10000
    ensures PadStart(Decimal(n), 4) == Pad4(n)
  {
    Pad2IsPadStart(n % 100);
    Pad2IsPadStart(n / 100);
    Pad2Looks(n % 100);
    if n >= 100 {
      LastTwo(n);
      FewDigits(n / 100);
      PadFurther(Digits(n / 100), Pad2(n % 100));
    } else {
      FewDigits(n);
      assert PadStart(Digits(n), 4) == "00" + PadStart(Digits(n), 2);
      assert Pad2(0) == "00";
    }
  }

  lemma FewDigits(n: int)
    requires 0 <= n < 100
    ensures |Digits(n)| <= 2
  {
    assert n >= 10 ==> |Digits(n / 10)| == 1;
  }

  lemma PrintedIsText(date: Civil)
    requires Written(date)
    ensures Printed(date) == Text(date)
  {
    Pad4IsPadStart(date.year);
    Pad2IsPadStart(date.month);
    Pad2IsPadStart(date.day);
  }

  lemma PrintedIsNoText(date: Civil)
    requires date.year < 0 || date.year > 9999
    ensures !IsDateText(Printed(date))
  {
    var padded, text := PadStart(Decimal(date.year), 4), Printed(date);
    var i := |padded| - |Decimal(date.year)|;
    assert text[i] == padded[i] == Decimal(date.year)[0];
    if IsDateText(text) {
      DateTextLooks(text);
    }
  }

  lemma SlicedIsNoText(date: Civil)
    requires date.year < 0 || date.year > 9999
    ensures !IsDateText(Sliced(date))
  {
    assert Sliced(date)[0] in "+-";
    if IsDateText(Sliced(date)) {
      DateTextLooks(Sliced(date));
    }
  }

  lemma LastFour(n: int)
    requires n >= 10000
    ensures Digits(n) == Digits(n / 10000) + Pad4(n % 10000)
  {
    var front, middle, last := n / 10000, n / 100 % 100, n % 100;
    assert n / 100 / 100 == front && n % 10000 / 100 == middle && n % 10000 % 100 == last;
    calc {
      Digits(n);
    == { LastTwo(n); }
      Digits(n / 100) + Pad2(last);
    == { LastTwo(n / 100); }
      Digits(front) + Pad2(middle) + Pad2(last);
    ==
      Digits(front) + (Pad2(middle) + Pad2(last));
    }
  }

  lemma Pad6IsPadStart(n: int)
    requires 0 <= n < 1000000
    ensures PadStart(Decimal(n), 6) == Pad2(n / 10000) + Pad4(n % 10000)
  {
    if n >= 10000 {
      LastFour(n);
      FewDigits(n / 10000);
      Pad2IsPadStart(n / 10000);
      PadFurther4(Digits(n / 10000), Pad4(n % 10000));
    } else {
      AtMostFour(n);
      Pad4IsPadStart(n);
      PadFurtherLeft(Digits(n));
      assert Pad2(0) == "00";
    }
  }

  lemma PadFurther4(text: string, four: string)
    requires |four| == 4 && |text| <= 2
    ensures PadStart(text + four, 6) == PadStart(text, 2) + four
  {
  }

  lemma PadFurtherLeft(text: string)
    requires |text| <= 4
    ensures PadStart(text, 6) == "00" + PadStart(text, 4)
  {
  }

  lemma AtMostFour(n: int)
    requires 0 <= n < 10000
    ensures |Digits(n)| <= 4
  {
    if n >= 100 {
      LastTwo(n);
      FewDigits(n / 100);
      Pad2Looks(n % 100);
    } else {
      FewDigits(n);
    }
  }

  /** Outside the years of four digits, as far as six will do, what is printed is
      the sign, the year in six and the month, and no day. */
  lemma WhatIsCutOff(date: Civil)
    requires Valid(date) && (-1000000 < date.year < 0 || 9999 < date.year < 1000000)
    ensures var year := if date.year < 0 then -date.year else date.year;
      Sliced(date) == (if date.year < 0 then "-" else "+") + Pad2(year / 10000) + Pad4(year % 10000) + "-" + Pad2(date.month)
  {
    var year := if date.year < 0 then -date.year else date.year;
    Pad6IsPadStart(year);
    Pad2IsPadStart(date.month);
    Pad2Looks(year / 10000);
    Pad2Looks(year % 10000 / 100);
    Pad2Looks(year % 100);
    Pad2Looks(date.month);
    var front := (if date.year < 0 then "-" else "+") + Pad2(year / 10000) + Pad4(year % 10000) + "-" + Pad2(date.month);
    FrontOf(front, "-" + PadStart(Decimal(date.day), 2));
  }

  lemma FrontOf(front: string, rest: string)
    requires |front| == 10
    ensures (front + rest)[..10] == front
  {
  }

  lemma PrintsWhen(r: Civil, zero: int)
    requires r.year == zero / 12 && (zero >= 0 ==> Valid(r))
    ensures (Written(r) <==> 0 <= zero < 120000) && (IsDateText(Printed(r)) <==> 0 <= zero < 120000)
    ensures 0 <= zero < 120000 ==> Printed(r) == Text(r)
  {
    if 0 <= zero < 120000 {
      PrintedIsText(r);
    } else {
      PrintedIsNoText(r);
    }
  }

  lemma AddMonthsLandsIn(date: Civil, count: int, zero: int) returns (r: Civil)
    requires Valid(date) && zero == MonthIndex(date) + count
    ensures r == AddMonths(date, count) && r.year == zero / 12 && (zero >= 0 ==> Valid(r))
  {
    AddMonthsAt(date, count, zero);
    r := AddMonths(date, count);
  }

  /** Adding months prints a date exactly when the month counted to is in a year
      of four digits, and then it is the date meant. Before the year 0000 the year
      has a sign, whatever the month. */
  lemma AddMonthsIsADateWhen(date: Civil, count: int)
    requires Valid(date)
    ensures var zero, r := MonthIndex(date) + count, AddMonths(date, count);
      && (Written(r) <==> 0 <= zero < 120000)
      && (IsDateText(Printed(r)) <==> 0 <= zero < 120000)
      && (0 <= zero < 120000 ==> Printed(r) == Text(r))
  {
    var r := AddMonthsLandsIn(date, count, MonthIndex(date) + count);
    PrintsWhen(r, MonthIndex(date) + count);
  }

  const LAST_DAY: int := DayFromYear(10000) - 1

  lemma YearsUpTo9999(year: int, day: int)
    requires DayFromYear(year) <= day < DayFromYear(year + 1)
    ensures day < DayFromYear(10000) <==> year < 10000
  {
    if year < 10000 {
      YearsApart(year + 1, 10000);
    } else {
      YearsApart(10000, year);
    }
  }

  lemma WrittenYears(date: Civil, day: int)
    requires Valid(date) && DayNumber(date) == day
    ensures 0 <= date.year <= 9999 <==> FIRST_DAY <= day <= LAST_DAY
  {
    WithinYear(date);
    YearsOfDays(date.year, day);
    YearsUpTo9999(date.year, day);
  }

  /** Adding days prints a date exactly when the day counted to is in a year of
      four digits; outside them the text is cut off in its month. */
  lemma AddDaysIsADateWhen(date: Civil, count: int)
    requires Valid(date)
    ensures var day, r := DayNumber(date) + count, AddDays(date, count);
      && (Written(r) <==> FIRST_DAY <= day <= LAST_DAY)
      && (IsDateText(Sliced(r)) <==> FIRST_DAY <= day <= LAST_DAY)
      && (FIRST_DAY <= day <= LAST_DAY ==> Sliced(r) == Text(r))
  {
    var r := AddDays(date, count);
    AddDaysIsExact(date, count);
    WrittenYears(r, DayNumber(date) + count);
    if !Written(r) {
      SlicedIsNoText(r);
    }
  }
}
