/** What becomes of an overdue expense when only the day changes. */
module Overdue {
  import opened Lists
  import opened Recurrence
  import opened Matching
  import opened MatchingLaws
  import opened DecisionLaws
  import opened Forecasting
  import ForecastLaws
  import Calendar

  ghost predicate Distinct(records: seq<PlannedRecord>) {
    && (forall i, j :: 0 <= i < j < |records| ==> records[i].id != records[j].id)
    && (forall record :: record in records ==> Recurrence.Dated(record))
  }

  /** What the plan shows on a day. */
  function Shown(records: seq<PlannedRecord>, rows: seq<Row>, today: int): seq<Occurrence> {
    Occurrences(records, rows, EarliestOf(records, today), Horizon(today), today)
  }

  /** The occurrence a later day shows in place of this one. */
  lemma StillPlanned(records: seq<PlannedRecord>, rows: seq<Row>, from: int, to: int, fromLater: int, toLater: int,
                     today: int, later: int, one: Occurrence) returns (again: Occurrence)
    requires forall record :: record in records ==> Recurrence.Dated(record)
    requires IsPlanned(records, rows, from, to, today, one) && one.state == OccurrenceState.Overdue
    requires today <= later && to <= toLater && forall record :: record in records ==> fromLater <= ExpectedFrom(record)
    ensures again == one.(state := OccurrenceState.Overdue)
    ensures IsPlanned(records, rows, fromLater, toLater, later, again)
  {
    var record :| record in records && !record.state.Retired? && from <= one.dueDate <= to && FallsOn(record, one.dueDate)
      && one == OccurrenceOn(record, RowFor(rows, record.id, one.dueDate), one.dueDate, today);
    again := OccurrenceOn(record, RowFor(rows, record.id, one.dueDate), one.dueDate, later);
  }

  /** Overdue today is overdue on every later day, in the plan window and all,
      as long as nobody decides anything about it. */
  lemma OverdueStaysOverdue(records: seq<PlannedRecord>, rows: seq<Row>, today: int, later: int, one: Occurrence)
    requires Distinct(records) && Calendar.FIRST_DAY <= today <= later
    requires one in Shown(records, rows, today) && one.state == OccurrenceState.Overdue
    ensures one in Shown(records, rows, later)
    ensures one.kind.Expense? ==> CountsAsExpected(one) && ForecastDate(one, later) == later <= Horizon(later)
  {
    var from, to, fromLater, toLater := EarliestOf(records, today), Horizon(today), EarliestOf(records, later), Horizon(later);
    TheSoonestIsAmong(records, later);
    Calendar.ShiftMonthsGrowsWithTheDay(today, later, PLAN_HORIZON_MONTHS);
    Calendar.ShiftMonthsGrowsWithTheCount(later, 0, PLAN_HORIZON_MONTHS);
    OccurrencesAreWhatIsPlanned(records, rows, from, to, today);
    OccurrencesAreWhatIsPlanned(records, rows, fromLater, toLater, later);
    var again := StillPlanned(records, rows, from, to, fromLater, toLater, today, later, one);
    OverdueIsBehind(records, rows, from, to, today, one);
  }

  lemma OverdueIsBehind(records: seq<PlannedRecord>, rows: seq<Row>, from: int, to: int, today: int, one: Occurrence)
    requires IsPlanned(records, rows, from, to, today, one) && one.state == OccurrenceState.Overdue
    ensures one.effectiveDate < today
  {
  }

  // -------------------------------------------------- subtracted exactly once

  predicate IsEventOf(e: Event, key: OccurrenceKey) {
    e.recordId == Some(key.0) && e.dueDate == Some(key.1)
  }

  function OneFor(key: OccurrenceKey): Event -> int {
    (e: Event) => if IsEventOf(e, key) then 1 else 0
  }

  lemma {:induction false} NoOccurrenceNoEvent(occurrences: seq<Occurrence>, today: int, horizon: int, key: OccurrenceKey)
    requires forall one :: one in occurrences ==> KeyOf(one) != key
    ensures SumOver(OneFor(key), RecordEvents(occurrences, today, horizon)) == 0
  {
    if occurrences != [] {
      var n := |occurrences| - 1;
      var before := RecordEvents(occurrences[..n], today, horizon);
      NoOccurrenceNoEvent(occurrences[..n], today, horizon, key);
      assert KeyOf(occurrences[n]) != key;
      assert OneFor(key)(RecordEvent(occurrences[n], today)) == 0;
      ForecastLaws.OneMoreSum(OneFor(key), before, RecordEvent(occurrences[n], today));
      assert before + [] == before;
    }
  }

  lemma {:induction false} OneOccurrenceOneEvent(occurrences: seq<Occurrence>, today: int, horizon: int, one: Occurrence)
    requires DistinctOccurrences(occurrences) && one in occurrences
    ensures SumOver(OneFor(KeyOf(one)), RecordEvents(occurrences, today, horizon)) == if IsForecast(one, today, horizon) then 1 else 0
    ensures IsForecast(one, today, horizon) ==> RecordEvent(one, today) in RecordEvents(occurrences, today, horizon)
  {
    var n := |occurrences| - 1;
    var last, f := occurrences[n], OneFor(KeyOf(one));
    var before := RecordEvents(occurrences[..n], today, horizon);
    assert occurrences == occurrences[..n] + [last];
    ForecastLaws.OneMoreSum(f, before, RecordEvent(last, today));
    assert before + [] == before;
    if one in occurrences[..n] {
      OneOccurrenceOneEvent(occurrences[..n], today, horizon, one);
      var k :| 0 <= k < n && occurrences[..n][k] == one;
      assert occurrences[k] == one && KeyOf(occurrences[k]) != KeyOf(last);
    } else {
      forall other | other in occurrences[..n] ensures KeyOf(other) != KeyOf(one) {
        var k :| 0 <= k < n && occurrences[..n][k] == other;
        assert KeyOf(occurrences[k]) != KeyOf(occurrences[n]);
      }
      NoOccurrenceNoEvent(occurrences[..n], today, horizon, KeyOf(one));
    }
  }

  lemma {:induction false} PlanEventsAreNobodys(plan: seq<PlanRow>, months: seq<int>, today: int, records: seq<Event>, key: OccurrenceKey)
    ensures SumOver(OneFor(key), PlanEvents(plan, months, today, records)) == 0
  {
    if plan != [] {
      var n := |plan| - 1;
      PlanEventsAreNobodys(plan[..n], months, today, records, key);
      assert plan[..n + 1] == plan;
      var added := PlanOneMore(plan, n, months, today, records);
      var uncovered := Uncovered(plan[n], months, Calendar.MonthOf(today), records);
      ForecastLaws.OneMoreSum(OneFor(key), added, PlanEvent(plan[n], uncovered, today));
    }
  }

  /** Neither paid nor dismissed; and if money is to come in, neither late nor
      only suggested. */
  predicate IsExpectedToMove(one: Occurrence) {
    match one.state
    case Matched => false
    case Struck => false
    case Overdue => one.kind == Expense
    case Expected => one.kind == Expense || !one.suggested
    case Rescheduled => one.kind == Expense || !one.suggested
  }

  /** The event of one occurrence: its record's money on its day, or today if that
      has gone by. */
  ghost predicate IsItsEvent(e: Event, one: Occurrence, today: int) {
    && e.recordId == Some(one.recordId) && e.dueDate == Some(one.dueDate) && e.source == FromRecord
    && e.kind == one.kind && e.amountCents == one.amountCents && e.name == one.name && e.categoryName == one.categoryName
    && e.suggested == one.suggested && (e.flagged <==> one.state == OccurrenceState.Overdue)
    && e.date == Max(today, one.effectiveDate)
  }

  /** An occurrence is one event of the forecast exactly when it is expected to
      move and the later of today and its day is by the horizon, and none when
      not. */
  lemma CountedOnce(input: Forecasting.Input, one: Occurrence)
    requires DistinctOccurrences(input.occurrences) && one in input.occurrences
    ensures SumOver(OneFor(KeyOf(one)), Events(input))
            == if IsExpectedToMove(one) && Max(input.today, one.effectiveDate) <= input.horizon then 1 else 0
    ensures IsExpectedToMove(one) && Max(input.today, one.effectiveDate) <= input.horizon ==>
              exists e :: e in Events(input) && IsItsEvent(e, one, input.today)
  {
    CountedWhenForecast(input, one);
    assert IsForecast(one, input.today, input.horizon) <==> IsExpectedToMove(one) && Max(input.today, one.effectiveDate) <= input.horizon;
    assert IsItsEvent(RecordEvent(one, input.today), one, input.today);
  }

  lemma CountedWhenForecast(input: Forecasting.Input, one: Occurrence)
    requires DistinctOccurrences(input.occurrences) && one in input.occurrences
    ensures SumOver(OneFor(KeyOf(one)), Events(input)) == if IsForecast(one, input.today, input.horizon) then 1 else 0
    ensures IsForecast(one, input.today, input.horizon) ==> RecordEvent(one, input.today) in Events(input)
  {
    var f := OneFor(KeyOf(one));
    var records := RecordEvents(input.occurrences, input.today, input.horizon);
    OneOccurrenceOneEvent(input.occurrences, input.today, input.horizon, one);
    PlanEventsAreNobodys(input.plan, MonthsOf(input), input.today, records, KeyOf(one));
    SumConcat(f, records, PlanEvents(input.plan, MonthsOf(input), input.today, records));
    SumPermutes(f, Events(input), Gathered(input));
    SortMembers(Before, Gathered(input));
  }

  lemma ShownIsDistinct(records: seq<PlannedRecord>, rows: seq<Row>, today: int)
    requires Distinct(records)
    ensures DistinctOccurrences(Shown(records, rows, today))
  {
    var from, to := EarliestOf(records, today), Horizon(today);
    PlanIsDistinct(records, rows, from, to, today);
    SortKeepsDistinct(Soonest, AllOccurrences(records, rows, from, to, today));
  }

  /** Told of records and rows: an occurrence the plan shows is one event exactly
      when nothing is matched to it, nobody dismissed it or its record, and either
      it is money out or it is neither late nor a mere suggestion; and none once it
      is paid. */
  lemma CountedThroughItsRow(records: seq<PlannedRecord>, rows: seq<Row>, today: int, record: PlannedRecord, dueDate: int,
                             forecast: Forecasting.Input)
    requires Distinct(records) && record in records && !record.state.Retired? && FallsOn(record, dueDate)
    requires forecast.today == today && forecast.occurrences == Shown(records, rows, today)
    requires EarliestOf(records, today) <= dueDate <= Horizon(today)
    ensures var row := RowFor(rows, record.id, dueDate);
      var day := if row.Some? then row.value.rescheduledTo.GetOr(dueDate) else dueDate;
      SumOver(OneFor((record.id, dueDate)), Events(forecast))
      == if && IsOpen(row) && !record.state.Dismissed?
            && (record.kind.Expense? || (today <= day && !record.state.Suggested?))
            && today <= forecast.horizon && day <= forecast.horizon
         then 1 else 0
  {
    var one := OccurrenceOn(record, RowFor(rows, record.id, dueDate), dueDate, today);
    OccurrencesAreWhatIsPlanned(records, rows, EarliestOf(records, today), Horizon(today), today);
    assert IsPlanned(records, rows, EarliestOf(records, today), Horizon(today), today, one);
    ShownIsDistinct(records, rows, today);
    CountedOnce(forecast, one);
  }

  /** Neither in the window nor on a date of a record that stands, it is no event. */
  lemma NotShownNotCounted(records: seq<PlannedRecord>, rows: seq<Row>, today: int, record: PlannedRecord, dueDate: int,
                           forecast: Forecasting.Input)
    requires Distinct(records) && record in records
    requires forecast.today == today && forecast.occurrences == Shown(records, rows, today)
    requires record.state.Retired? || !FallsOn(record, dueDate) || !(EarliestOf(records, today) <= dueDate <= Horizon(today))
    ensures SumOver(OneFor((record.id, dueDate)), Events(forecast)) == 0
  {
    NotShown(records, rows, today, record, dueDate);
    NoOccurrenceNotCounted(forecast, (record.id, dueDate));
  }

  lemma NotShown(records: seq<PlannedRecord>, rows: seq<Row>, today: int, record: PlannedRecord, dueDate: int)
    requires Distinct(records) && record in records
    requires record.state.Retired? || !FallsOn(record, dueDate) || !(EarliestOf(records, today) <= dueDate <= Horizon(today))
    ensures forall one :: one in Shown(records, rows, today) ==> KeyOf(one) != (record.id, dueDate)
  {
    var from, to := EarliestOf(records, today), Horizon(today);
    OccurrencesAreWhatIsPlanned(records, rows, from, to, today);
    forall one | one in Shown(records, rows, today) ensures KeyOf(one) != (record.id, dueDate) {
      assert IsPlanned(records, rows, from, to, today, one);
    }
  }

  lemma NoOccurrenceNotCounted(input: Forecasting.Input, key: OccurrenceKey)
    requires forall one :: one in input.occurrences ==> KeyOf(one) != key
    ensures SumOver(OneFor(key), Events(input)) == 0
  {
    var counted := RecordEvents(input.occurrences, input.today, input.horizon);
    NoOccurrenceNoEvent(input.occurrences, input.today, input.horizon, key);
    PlanEventsAreNobodys(input.plan, MonthsOf(input), input.today, counted, key);
    SumConcat(OneFor(key), counted, PlanEvents(input.plan, MonthsOf(input), input.today, counted));
    SumPermutes(OneFor(key), Events(input), Gathered(input));
  }

  /** With records and decisions as they are, an expense overdue today is, on
      every later day, in the forecast of that day exactly once: as money out, of
      the record's amount, dated that day. */
  lemma OverdueExpenseNeverFallsAway(records: seq<PlannedRecord>, rows: seq<Row>, today: int, later: int, one: Occurrence,
                                     forecast: Forecasting.Input)
    requires Distinct(records) && Calendar.FIRST_DAY <= today <= later
    requires one in Shown(records, rows, today) && one.state == OccurrenceState.Overdue && one.kind.Expense?
    requires forecast.today == later && forecast.horizon == Horizon(later) && forecast.occurrences == Shown(records, rows, later)
    ensures SumOver(OneFor(KeyOf(one)), Events(forecast)) == 1
    ensures exists e :: e in Events(forecast) && IsEventOf(e, KeyOf(one))
              && e.date == later && e.kind.Expense? && e.amountCents == one.amountCents && e.flagged
  {
    OverdueStaysOverdue(records, rows, today, later, one);
    ShownIsDistinct(records, rows, later);
    CountedWhenForecast(forecast, one);
    var e := RecordEvent(one, later);
    assert e in Events(forecast) && IsEventOf(e, KeyOf(one));
  }
}
