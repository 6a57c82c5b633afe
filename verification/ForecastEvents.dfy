/** What the events of a forecast are of (ayq-forecast.ts), told of occurrences and
    of plan rows. */
module ForecastEvents {
  import opened Lists
  import opened Recurrence
  import opened Forecasting
  import opened Overdue
  import ForecastLaws
  import Calendar

  // ------------------------------------------------- what is already expected

  /** What an occurrence adds to the expense of a category in a month. */
  function ExpectedOf(today: int, horizon: int, month: int, category: string): Occurrence -> int {
    (one: Occurrence) =>
      if IsExpectedToMove(one) && Max(today, one.effectiveDate) <= horizon && one.kind == Expense
         && one.categoryName == Some(category) && Calendar.MonthOf(Max(today, one.effectiveDate)) == month
      then one.amountCents else 0
  }

  function ExpectedIn(input: Input, month: int, category: string): int {
    SumOver(ExpectedOf(input.today, input.horizon, month, category), input.occurrences)
  }

  lemma OneMoreExpected(before: seq<Event>, after: seq<Event>, e: Event, counts: bool, month: int, category: string, adds: int)
    requires after == before + if counts then [e] else []
    requires adds == if counts then ExpenseIn(month, category)(e) else 0
    ensures SumOver(ExpenseIn(month, category), after) == SumOver(ExpenseIn(month, category), before) + adds
  {
    ForecastLaws.OneMoreSum(ExpenseIn(month, category), before, e);
    assert before + [] == before;
  }

  lemma {:induction false} RecordsAreExpected(occurrences: seq<Occurrence>, today: int, horizon: int, month: int, category: string)
    ensures SumOver(ExpenseIn(month, category), RecordEvents(occurrences, today, horizon))
            == SumOver(ExpectedOf(today, horizon, month, category), occurrences)
  {
    if occurrences != [] {
      var n := |occurrences| - 1;
      var before, one := RecordEvents(occurrences[..n], today, horizon), occurrences[n];
      RecordsAreExpected(occurrences[..n], today, horizon, month, category);
      OneIsExpected(one, today, horizon, month, category);
      OneMoreExpected(before, RecordEvents(occurrences, today, horizon), RecordEvent(one, today), IsForecast(one, today, horizon),
                      month, category, ExpectedOf(today, horizon, month, category)(one));
    }
  }

  lemma OneIsExpected(one: Occurrence, today: int, horizon: int, month: int, category: string)
    ensures ExpectedOf(today, horizon, month, category)(one)
            == if IsForecast(one, today, horizon) then ExpenseIn(month, category)(RecordEvent(one, today)) else 0
  {
    ForecastIsExpected(one, today, horizon);
  }

  lemma ForecastIsExpected(one: Occurrence, today: int, horizon: int)
    ensures IsForecast(one, today, horizon) <==> IsExpectedToMove(one) && Max(today, one.effectiveDate) <= horizon
    ensures RecordEvent(one, today).date == Max(today, one.effectiveDate)
  {
  }

  // ------------------------------------------------------------ what the plan adds

  /** What is planned for a row's month: all of it, or in the month under way what
      is left of it. */
  function PlannedCents(row: PlanRow, today: int): int {
    match Calendar.MonthOf(today) - row.month
    case 0 => row.remainingCents
    case _ => row.planCents
  }

  /** The row is of a month of the forecast, something is planned, and more than
      is expected anyway. */
  ghost predicate Adds(input: Input, row: PlanRow) {
    var from := Calendar.MonthOf(input.today);
    && from <= row.month <= Calendar.MonthOf(input.horizon) && row.month < from + 600
    && 0 < PlannedCents(row, input.today) && ExpectedIn(input, row.month, row.categoryName) < PlannedCents(row, input.today)
  }

  /** What is planned beyond that, as money out of the category on the first day of
      its month, or today in the month under way. */
  ghost predicate IsPlansEvent(e: Event, input: Input, row: PlanRow) {
    && e.source == FromPlan && e.recordId.None? && e.dueDate.None? && !e.suggested && !e.flagged
    && e.kind == Expense && e.name == row.categoryName && e.categoryName == Some(row.categoryName)
    && e.amountCents == PlannedCents(row, input.today) - ExpectedIn(input, row.month, row.categoryName)
    && Calendar.MonthOf(e.date) == row.month
    && (if row.month == Calendar.MonthOf(input.today) then e.date == input.today else Calendar.FromDay(e.date).day == 1)
  }

  lemma UncoveredWhenItAdds(input: Input, row: PlanRow)
    ensures var records := RecordEvents(input.occurrences, input.today, input.horizon);
      var uncovered := Uncovered(row, MonthsOf(input), Calendar.MonthOf(input.today), records);
      && (uncovered > 0 <==> Adds(input, row))
      && (uncovered > 0 ==> IsPlansEvent(PlanEvent(row, uncovered, input.today), input, row))
  {
    var records := RecordEvents(input.occurrences, input.today, input.horizon);
    RecordsAreExpected(input.occurrences, input.today, input.horizon, row.month, row.categoryName);
    Calendar.MonthsListsEach(Calendar.MonthOf(input.today), Calendar.MonthOf(input.horizon));
    if Calendar.MonthOf(input.today) <= row.month {
      PlanDateIs(row.month, input.today);
    }
  }

  lemma PlanDateIs(month: int, today: int)
    requires Calendar.MonthOf(today) <= month
    ensures Calendar.MonthOf(PlanDate(month, today)) == month
    ensures if month == Calendar.MonthOf(today) then PlanDate(month, today) == today else Calendar.FromDay(PlanDate(month, today)).day == 1
  {
    ForecastLaws.PlanDateIsInItsMonth(month, today);
    Calendar.MonthStartIsInItsMonth(month);
    if Calendar.MonthOf(today) < month {
      Calendar.LaterMonthIsLater(today, Calendar.MonthStart(month));
    } else {
      Calendar.StartIsFirst(today);
    }
  }

  lemma {:induction false} PlanEventsAre(plan: seq<PlanRow>, months: seq<int>, today: int, records: seq<Event>)
    ensures forall e :: e in PlanEvents(plan, months, today, records) <==>
              exists row :: row in plan && Uncovered(row, months, Calendar.MonthOf(today), records) > 0
                            && e == PlanEvent(row, Uncovered(row, months, Calendar.MonthOf(today), records), today)
  {
    if plan != [] {
      var n := |plan| - 1;
      PlanEventsAre(plan[..n], months, today, records);
      assert plan == plan[..n] + [plan[n]];
    }
  }

  lemma {:induction false} RecordEventsAre(occurrences: seq<Occurrence>, today: int, horizon: int)
    ensures forall e :: e in RecordEvents(occurrences, today, horizon) <==>
              exists one :: one in occurrences && IsForecast(one, today, horizon) && e == RecordEvent(one, today)
  {
    if occurrences != [] {
      var n := |occurrences| - 1;
      RecordEventsAre(occurrences[..n], today, horizon);
      assert occurrences == occurrences[..n] + [occurrences[n]];
    }
  }

  /** Every event is an expected occurrence's or a plan row's, */
  lemma EveryEventIsOfSomething(input: Input, e: Event)
    requires e in Events(input)
    ensures (exists one :: one in input.occurrences && IsExpectedToMove(one) && Max(input.today, one.effectiveDate) <= input.horizon
                           && IsItsEvent(e, one, input.today))
            || (exists row :: row in input.plan && Adds(input, row) && IsPlansEvent(e, input, row))
  {
    var records := RecordEvents(input.occurrences, input.today, input.horizon);
    SortMembers(Before, Gathered(input));
    if e in records {
      RecordEventsAre(input.occurrences, input.today, input.horizon);
      var one :| one in input.occurrences && IsForecast(one, input.today, input.horizon) && e == RecordEvent(one, input.today);
      ForecastIsExpected(one, input.today, input.horizon);
      assert IsItsEvent(e, one, input.today);
    } else {
      PlanEventsAre(input.plan, MonthsOf(input), input.today, records);
      var row :| row in input.plan && Uncovered(row, MonthsOf(input), Calendar.MonthOf(input.today), records) > 0
        && e == PlanEvent(row, Uncovered(row, MonthsOf(input), Calendar.MonthOf(input.today), records), input.today);
      UncoveredWhenItAdds(input, row);
    }
  }

  /** and every plan row that adds anything has its event. */
  lemma EveryRowThatAddsIsThere(input: Input, row: PlanRow)
    requires row in input.plan && Adds(input, row)
    ensures exists e :: e in Events(input) && IsPlansEvent(e, input, row)
  {
    var records := RecordEvents(input.occurrences, input.today, input.horizon);
    UncoveredWhenItAdds(input, row);
    var e := PlanEvent(row, Uncovered(row, MonthsOf(input), Calendar.MonthOf(input.today), records), input.today);
    PlanEventsAre(input.plan, MonthsOf(input), input.today, records);
    SortMembers(Before, Gathered(input));
    assert e in Gathered(input);
  }
}
