/** Planned records, the dates their rhythm falls on, and what each occurrence
    is on a given day (ayq-plan-series.ts). Dates are day numbers. */
module Recurrence {
  import opened Lists
  import Calendar
  import Strings

  datatype Frequency = Once | Weekly | Fortnightly | Monthly | Quarterly | HalfYearly | Yearly

  datatype Kind = Expense | Income

  datatype PlanState = Suggested | Confirmed | Dismissed | Retired

  datatype Provenance = Manual | Detected

  datatype PlannedRecord = PlannedRecord(
    id: string,
    name: string,
    kind: Kind,
    amountCents: int,
    categoryName: Option<string>,
    counterpartyKey: Option<string>,
    mandateId: Option<string>,
    startDate: int,
    frequency: Frequency,
    interval: real,
    endDate: Option<int>,
    state: PlanState,
    provenance: Provenance,
    confirmedAt: Option<int>,
    suggestedAt: Option<int>)

  /** Its start can be written as a date. */
  predicate Dated(record: PlannedRecord) {
    Calendar.FIRST_DAY <= record.startDate
  }

  /** The day from which its dates count: its start, or when it was decided, if
      that is later. */
  function ExpectedFrom(record: PlannedRecord): int {
    var decided :=
      if record.state.Suggested? then record.suggestedAt
      else if record.confirmedAt.Some? then record.confirmedAt
      else record.suggestedAt;
    if decided.None? then record.startDate else Max(decided.value, record.startDate)
  }

  const MAX_OCCURRENCES: nat := 4000

  function StepDays(frequency: Frequency): Option<int> {
    match frequency
    case Weekly => Some(7)
    case Fortnightly => Some(14)
    case _ => None
  }

  function StepMonths(frequency: Frequency): Option<int> {
    match frequency
    case Monthly => Some(1)
    case Quarterly => Some(3)
    case HalfYearly => Some(6)
    case Yearly => Some(12)
    case _ => None
  }

  /** `Math.max(1, Math.round(interval))`. */
  function WholeInterval(interval: real): (n: int)
    ensures n >= 1
  {
    Max(1, (interval + 0.5).Floor)
  }

  /** The date at an index, always counted from the start. */
  function RhythmDate(record: PlannedRecord, index: int): int {
    var interval := WholeInterval(record.interval);
    var days := StepDays(record.frequency);
    var months := StepMonths(record.frequency);
    if days.Some? then record.startDate + index * interval * days.value
    else if months.Some? then Calendar.ShiftMonths(record.startDate, index * interval * months.value)
    else record.startDate
  }

  function LastDate(record: PlannedRecord, to: int): int {
    if record.endDate.Some? && record.endDate.value < to then record.endDate.value else to
  }

  function DatesFrom(record: PlannedRecord, index: nat, first: int, last: int): seq<int>
    decreases MAX_OCCURRENCES - index
  {
    if index >= MAX_OCCURRENCES then []
    else
      var date := RhythmDate(record, index);
      if date > last then []
      else (if date >= first then [date] else []) + DatesFrom(record, index + 1, first, last)
  }

  function Dates(record: PlannedRecord, from: int, to: int): seq<int> {
    var last := LastDate(record, to);
    if last < record.startDate then []
    else
      var first := Max(from, ExpectedFrom(record));
      if record.frequency.Once? then
        if first <= record.startDate <= last then [record.startDate] else []
      else DatesFrom(record, 0, first, last)
  }

  method StepThrough(record: PlannedRecord, first: int, last: int) returns (dates: seq<int>)
    ensures dates == DatesFrom(record, 0, first, last)
  {
    dates := [];
    ghost var all := DatesFrom(record, 0, first, last);
    ghost var rest := all;
    assert dates + rest == all;
    for index := 0 to MAX_OCCURRENCES
      invariant rest == DatesFrom(record, index, first, last)
      invariant dates + rest == all
    {
      ghost var after := DatesFromHere(record, index, first, last);
      var date := RhythmDate(record, index);
      if date > last {
        return;
      }
      var kept := if date >= first then [date] else [];
      StepJoins(dates, kept, after);
      dates, rest := dates + kept, after;
    }
  }

  lemma StepJoins(dates: seq<int>, kept: seq<int>, after: seq<int>)
    ensures (dates + kept) + after == dates + (kept + after)
  {
  }

  method OccurrenceDates(record: PlannedRecord, from: int, to: int) returns (dates: seq<int>)
    ensures dates == Dates(record, from, to)
  {
    var last := if record.endDate.Some? && record.endDate.value < to then record.endDate.value else to;
    if last < record.startDate { return []; }
    var earliest := ExpectedFrom(record);
    var first := if from > earliest then from else earliest;
    if record.frequency.Once? {
      return if record.startDate >= first && record.startDate <= last then [record.startDate] else [];
    }
    dates := StepThrough(record, first, last);
  }

  lemma DatesFromHere(record: PlannedRecord, index: nat, first: int, last: int) returns (after: seq<int>)
    requires index < MAX_OCCURRENCES
    ensures after == DatesFrom(record, index + 1, first, last)
    ensures var date := RhythmDate(record, index);
      DatesFrom(record, index, first, last) ==
        if date > last then [] else (if date >= first then [date] else []) + after
  {
    after := DatesFrom(record, index + 1, first, last);
  }

  // -------------------------------------------------- what the rhythm is

  lemma ScaleGrows(i: int, j: int, k: int)
    requires 0 <= i < j && k >= 1
    ensures 0 <= i * k < j * k
  {
    assert j * k == i * k + (j - i) * k;
    assert i * k >= 0 && (j - i) * k >= 1;
  }

  lemma ProductGrows(i: nat, j: nat, interval: int, step: int)
    requires i < j && interval >= 1 && step >= 1
    ensures 0 <= i * interval * step < j * interval * step
  {
    ScaleGrows(i, j, interval);
    ScaleGrows(i * interval, j * interval, step);
  }

  lemma RhythmGrows(record: PlannedRecord, i: nat, j: nat)
    requires Dated(record) && !record.frequency.Once? && i < j
    ensures RhythmDate(record, i) < RhythmDate(record, j)
  {
    var interval := WholeInterval(record.interval);
    if StepDays(record.frequency).Some? {
      ProductGrows(i, j, interval, StepDays(record.frequency).value);
    } else {
      var months := StepMonths(record.frequency).value;
      ProductGrows(i, j, interval, months);
      Calendar.ShiftMonthsGrowsWithTheCount(record.startDate, i * interval * months, j * interval * months);
    }
  }

  /** A month-based series never drifts: every date of it lies the same number
      of months after the last and on the day it started on, or on the last day
      of a month too short for that. */
  lemma MonthlyNeverDrifts(record: PlannedRecord, index: nat)
    requires Dated(record) && StepMonths(record.frequency).Some?
    ensures var start, date := Calendar.FromDay(record.startDate), Calendar.FromDay(RhythmDate(record, index));
      var months := index * WholeInterval(record.interval) * StepMonths(record.frequency).value;
      && Calendar.MonthIndex(date) == Calendar.MonthIndex(start) + months
      && date.day == Min(start.day, Calendar.DaysInMonth(date.year, date.month))
  {
    var months := index * WholeInterval(record.interval) * StepMonths(record.frequency).value;
    if index > 0 {
      ProductGrows(0, index, WholeInterval(record.interval), StepMonths(record.frequency).value);
    }
    Calendar.NotBeforeTheYearNought(record.startDate);
    Calendar.FromDayIsADate(record.startDate);
    Calendar.AddMonthsKeepsTheDay(Calendar.FromDay(record.startDate), months);
    Calendar.FromDayOfDayNumber(Calendar.AddMonths(Calendar.FromDay(record.startDate), months));
  }

  /** The whole number of periods nearest to an interval, a half upwards, and one
      at the least. */
  ghost predicate IsNearestPeriod(n: int, interval: real) {
    if interval < 1.5 then n == 1 else n as real - 0.5 <= interval < n as real + 0.5
  }

  /** Days from date to date for the two rhythms that count in days, and months
      for the four that count in months. */
  ghost predicate StepsBy(record: PlannedRecord, index: nat, n: int, date: int) {
    var start, day := Calendar.FromDay(record.startDate), Calendar.FromDay(date);
    var months := Calendar.MonthIndex(day) - Calendar.MonthIndex(start);
    match record.frequency
    case Once => date == record.startDate
    case Weekly => date == record.startDate + index * n * 7
    case Fortnightly => date == record.startDate + index * n * 14
    case Monthly => months == index * n && OnThatDay(start, day)
    case Quarterly => months == index * n * 3 && OnThatDay(start, day)
    case HalfYearly => months == index * n * 6 && OnThatDay(start, day)
    case Yearly => months == index * n * 12 && OnThatDay(start, day)
  }

  ghost predicate OnThatDay(start: Calendar.Civil, day: Calendar.Civil) {
    1 <= day.month <= 12 && day.day == Min(start.day, Calendar.DaysInMonth(day.year, day.month))
  }

  /** Every date of a rhythm is so many weeks, fortnights, months, quarters, half
      years or years from its start, counted in whole periods of its interval. */
  lemma EachDateIsSoManyPeriodsOn(record: PlannedRecord, index: nat) returns (n: int)
    requires Dated(record)
    ensures IsNearestPeriod(n, record.interval) && StepsBy(record, index, n, RhythmDate(record, index))
  {
    n := WholeInterval(record.interval);
    if StepMonths(record.frequency).Some? {
      MonthlyNeverDrifts(record, index);
      Calendar.FromDayIsADate(RhythmDate(record, index));
    }
  }

  /** The dates a record falls on, with no window: a rhythm date below the cap,
      not before the decision and not after the end. */
  ghost predicate FallsOn(record: PlannedRecord, date: int) {
    && ExpectedFrom(record) <= date
    && (record.endDate.Some? ==> date <= record.endDate.value)
    && if record.frequency.Once? then date == record.startDate
       else exists index: nat :: index < MAX_OCCURRENCES && RhythmDate(record, index) == date
  }

  /** Told of the record: not before its start; nor before it was suggested, while
      it is a suggestion; nor, once it is more, before it was confirmed, or was
      suggested if nothing says when it was confirmed; not after its end; and one
      of the first four thousand dates of its rhythm. */
  lemma WhenARecordFalls(record: PlannedRecord, date: int)
    ensures FallsOn(record, date) <==>
      && record.startDate <= date
      && (record.state == Suggested && record.suggestedAt.Some? ==> record.suggestedAt.value <= date)
      && (record.state != Suggested && record.confirmedAt.Some? ==> record.confirmedAt.value <= date)
      && (record.state != Suggested && record.confirmedAt.None? && record.suggestedAt.Some? ==> record.suggestedAt.value <= date)
      && (record.endDate.None? || date <= record.endDate.value)
      && (if record.frequency == Once then date == record.startDate
          else exists index: nat :: index < 4000 && RhythmDate(record, index) == date)
  {
  }

  /** The rhythm's dates in a stretch, from an index on. */
  ghost predicate IsRhythmDate(record: PlannedRecord, index: nat, first: int, last: int, date: int) {
    first <= date <= last && exists i: nat :: index <= i < MAX_OCCURRENCES && RhythmDate(record, i) == date
  }

  lemma OneDateMore(record: PlannedRecord, index: nat, first: int, last: int, rest: seq<int>)
    requires Dated(record) && !record.frequency.Once? && index < MAX_OCCURRENCES && RhythmDate(record, index) <= last
    requires Increasing(rest) && forall date :: date in rest <==> IsRhythmDate(record, index + 1, first, last, date)
    ensures var here := RhythmDate(record, index);
      var all := (if here >= first then [here] else []) + rest;
      Increasing(all) && forall date :: date in all <==> IsRhythmDate(record, index, first, last, date)
  {
    var here := RhythmDate(record, index);
    forall k | 0 <= k < |rest| ensures here < rest[k] {
      assert rest[k] in rest;
      var i: nat :| index + 1 <= i < MAX_OCCURRENCES && RhythmDate(record, i) == rest[k];
      RhythmGrows(record, index, i);
    }
    forall date ensures IsRhythmDate(record, index, first, last, date)
                        <==> (date == here && here >= first) || IsRhythmDate(record, index + 1, first, last, date) {
    }
  }

  lemma {:induction false} DatesFromMembers(record: PlannedRecord, index: nat, first: int, last: int)
    requires Dated(record) && !record.frequency.Once?
    ensures Increasing(DatesFrom(record, index, first, last))
    ensures forall date :: date in DatesFrom(record, index, first, last) <==> IsRhythmDate(record, index, first, last, date)
    decreases MAX_OCCURRENCES - index
  {
    if index < MAX_OCCURRENCES {
      var rest := DatesFromHere(record, index, first, last);
      if RhythmDate(record, index) <= last {
        DatesFromMembers(record, index + 1, first, last);
        OneDateMore(record, index, first, last, rest);
      } else {
        forall i: nat | index < i ensures RhythmDate(record, index) < RhythmDate(record, i) {
          RhythmGrows(record, index, i);
        }
      }
    }
  }

  /** The dates between two days are exactly the dates the record falls on
      there, soonest first: none is missed, none is added. */
  lemma DatesAreWhereItFalls(record: PlannedRecord, from: int, to: int)
    requires Dated(record)
    ensures Increasing(Dates(record, from, to))
    ensures forall date :: date in Dates(record, from, to) <==> from <= date <= to && FallsOn(record, date)
  {
    if !record.frequency.Once? {
      DatesFromMembers(record, 0, Max(from, ExpectedFrom(record)), LastDate(record, to));
    }
  }

  /** Reading one window or two that meet gives the same dates. */
  lemma WindowsJoin(record: PlannedRecord, from: int, mid: int, to: int)
    requires Dated(record) && from <= mid + 1 && mid <= to
    ensures Dates(record, from, to) == Dates(record, from, mid) + Dates(record, mid + 1, to)
  {
    DatesAreWhereItFalls(record, from, to);
    DatesAreWhereItFalls(record, from, mid);
    DatesAreWhereItFalls(record, mid + 1, to);
    var left, right := Dates(record, from, mid), Dates(record, mid + 1, to);
    JoinIncreases(left, right, mid);
    IncreasingIsUnique(Dates(record, from, to), left + right);
  }

  lemma JoinIncreases(left: seq<int>, right: seq<int>, mid: int)
    requires Increasing(left) && Increasing(right)
    requires (forall date :: date in left ==> date <= mid) && (forall date :: date in right ==> mid < date)
    ensures Increasing(left + right)
  {
    forall i, j | 0 <= i < j < |left + right| ensures (left + right)[i] < (left + right)[j] {
      if i < |left| <= j {
        assert left[i] in left && right[j - |left|] in right;
      }
    }
  }

  predicate IsOccurrenceOf(record: PlannedRecord, dueDate: int) {
    |Dates(record, dueDate, dueDate)| == 1
  }

  /** Asking about one date agrees with looking for it in any window round it. */
  lemma OccurrenceInAnyWindow(record: PlannedRecord, dueDate: int, from: int, to: int)
    requires Dated(record) && from <= dueDate <= to
    ensures IsOccurrenceOf(record, dueDate) <==> dueDate in Dates(record, from, to)
  {
    DatesAreWhereItFalls(record, from, to);
    DatesAreWhereItFalls(record, dueDate, dueDate);
    IncreasingIsUnique(Dates(record, dueDate, dueDate), if FallsOn(record, dueDate) then [dueDate] else []);
  }

  // ------------------------------------------------------- occurrences

  datatype MatchedBy = ByHand | Automatically

  /** A stored decision; its key is the record and the due date. */
  datatype Row = Row(
    recordId: string,
    dueDate: int,
    rescheduledTo: Option<int>,
    matchedTransactionId: Option<string>,
    matchedAt: Option<int>,
    matchProvenance: Option<MatchedBy>,
    dismissed: bool,
    rejected: seq<string>)

  datatype OccurrenceState = Expected | Matched | Overdue | Rescheduled | Struck

  datatype Occurrence = Occurrence(
    recordId: string,
    name: string,
    kind: Kind,
    amountCents: int,
    categoryName: Option<string>,
    dueDate: int,
    effectiveDate: int,
    state: OccurrenceState,
    suggested: bool,
    matchedTransactionId: Option<string>,
    matchProvenance: Option<MatchedBy>)

  function StateOn(record: PlannedRecord, decided: Option<Row>, effectiveDate: int, today: int): OccurrenceState {
    if record.state.Dismissed? || (decided.Some? && decided.value.dismissed) then Struck
    else if decided.Some? && decided.value.matchedTransactionId.Some? then Matched
    else if effectiveDate < today then Overdue
    else if decided.Some? && decided.value.rescheduledTo.Some? then Rescheduled
    else Expected
  }

  predicate IsFor(row: Row, recordId: string, dueDate: int) {
    row.recordId == recordId && row.dueDate == dueDate
  }

  /** The row of an occurrence; the lookup table keeps the last of a key. */
  function RowFor(rows: seq<Row>, recordId: string, dueDate: int): (r: Option<Row>)
    ensures r.Some? ==> r.value in rows && IsFor(r.value, recordId, dueDate)
    ensures r.None? ==> forall row :: row in rows ==> !IsFor(row, recordId, dueDate)
  {
    if rows == [] then None
    else
      var n := |rows| - 1;
      if IsFor(rows[n], recordId, dueDate) then Some(rows[n])
      else
        assert forall row :: row in rows ==> row in rows[..n] || row == rows[n];
        RowFor(rows[..n], recordId, dueDate)
  }

  function EffectiveDate(decided: Option<Row>, dueDate: int): int {
    if decided.Some? && decided.value.rescheduledTo.Some? then decided.value.rescheduledTo.value else dueDate
  }

  function OccurrenceOn(record: PlannedRecord, decided: Option<Row>, dueDate: int, today: int): Occurrence {
    var effectiveDate := EffectiveDate(decided, dueDate);
    Occurrence(
      record.id, record.name, record.kind, record.amountCents, record.categoryName,
      dueDate, effectiveDate,
      StateOn(record, decided, effectiveDate, today),
      record.state.Suggested?,
      if decided.Some? then decided.value.matchedTransactionId else None,
      if decided.Some? then decided.value.matchProvenance else None)
  }

  ghost predicate IsStruck(record: PlannedRecord, row: Option<Row>) {
    record.state == Dismissed || (row.Some? && row.value.dismissed)
  }

  ghost predicate HasMatch(row: Option<Row>) {
    row.Some? && row.value.matchedTransactionId.Some?
  }

  /** What an occurrence is on a day: struck if it or its record is dismissed,
      else matched if a transaction is, else overdue once its day is past, else
      moved if it was, else to come. */
  lemma WhatAnOccurrenceIs(record: PlannedRecord, row: Option<Row>, dueDate: int, today: int)
    ensures var one := OccurrenceOn(record, row, dueDate, today);
      var day := if row.Some? && row.value.rescheduledTo.Some? then row.value.rescheduledTo.value else dueDate;
      var late := !IsStruck(record, row) && !HasMatch(row) && day < today;
      && one.recordId == record.id && one.name == record.name && one.kind == record.kind && one.amountCents == record.amountCents
      && one.categoryName == record.categoryName && one.dueDate == dueDate && one.effectiveDate == day
      && (one.suggested <==> record.state == Suggested)
      && (one.state == Struck <==> IsStruck(record, row))
      && (one.state == Matched <==> HasMatch(row) && !IsStruck(record, row))
      && (one.state == Overdue <==> late)
      && (one.state == Rescheduled ==> row.Some? && row.value.rescheduledTo.Some?)
      && (one.state == Expected && row.Some? ==> row.value.rescheduledTo.None?)
      && (row.Some? ==> one.matchedTransactionId == row.value.matchedTransactionId && one.matchProvenance == row.value.matchProvenance)
      && (row.None? ==> one.matchedTransactionId.None? && one.matchProvenance.None?)
  {
  }

  function OccurrencesAt(record: PlannedRecord, rows: seq<Row>, dates: seq<int>, today: int): seq<Occurrence> {
    if dates == [] then []
    else
      var n := |dates| - 1;
      OccurrencesAt(record, rows, dates[..n], today)
      + [OccurrenceOn(record, RowFor(rows, record.id, dates[n]), dates[n], today)]
  }

  /** A withdrawn offer generates nothing. */
  function OccurrencesOf(record: PlannedRecord, rows: seq<Row>, from: int, to: int, today: int): seq<Occurrence> {
    if record.state.Retired? then [] else OccurrencesAt(record, rows, Dates(record, from, to), today)
  }

  function AllOccurrences(records: seq<PlannedRecord>, rows: seq<Row>, from: int, to: int, today: int): seq<Occurrence> {
    if records == [] then []
    else
      var n := |records| - 1;
      AllOccurrences(records[..n], rows, from, to, today) + OccurrencesOf(records[n], rows, from, to, today)
  }

  predicate Soonest(a: Occurrence, b: Occurrence) {
    if a.effectiveDate != b.effectiveDate then a.effectiveDate < b.effectiveDate
    else if a.recordId != b.recordId then Strings.TextLess(a.recordId, b.recordId)
    else a.dueDate < b.dueDate
  }

  function Occurrences(records: seq<PlannedRecord>, rows: seq<Row>, from: int, to: int, today: int): seq<Occurrence> {
    Sort(Soonest, AllOccurrences(records, rows, from, to, today))
  }

  method OccurrencesFor(record: PlannedRecord, rows: seq<Row>, from: int, to: int, today: int)
    returns (found: seq<Occurrence>)
    requires !record.state.Retired?
    ensures found == OccurrencesOf(record, rows, from, to, today)
  {
    var dates := OccurrenceDates(record, from, to);
    found := OccurrencesEach(record, rows, dates, today);
  }

  method OccurrencesEach(record: PlannedRecord, rows: seq<Row>, dates: seq<int>, today: int) returns (found: seq<Occurrence>)
    ensures found == OccurrencesAt(record, rows, dates, today)
  {
    found := [];
    for k := 0 to |dates|
      invariant found == OccurrencesAt(record, rows, dates[..k], today)
    {
      assert dates[..k + 1][..k] == dates[..k];
      var one := RowFor(rows, record.id, dates[k]);
      found := found + [OccurrenceOn(record, one, dates[k], today)];
    }
    assert dates[..|dates|] == dates;
  }

  method OccurrencesBetween(records: seq<PlannedRecord>, rows: seq<Row>, from: int, to: int, today: int)
    returns (r: seq<Occurrence>)
    ensures r == Occurrences(records, rows, from, to, today)
  {
    var found := [];
    for i := 0 to |records|
      invariant found == AllOccurrences(records[..i], rows, from, to, today)
    {
      assert records[..i + 1][..i] == records[..i];
      if records[i].state.Retired? { continue; }
      var more := OccurrencesFor(records[i], rows, from, to, today);
      found := found + more;
    }
    assert records[..|records|] == records;
    r := Sort(Soonest, found);
  }

  const PLAN_HORIZON_MONTHS: nat := 12

  function EarliestOf(records: seq<PlannedRecord>, today: int): int {
    if records == [] then today
    else Min(EarliestOf(records[..|records| - 1], today), ExpectedFrom(records[|records| - 1]))
  }

  function Horizon(today: int): int {
    Calendar.ShiftMonths(today, PLAN_HORIZON_MONTHS)
  }

  method PlanWindow(today: int, records: seq<PlannedRecord>) returns (from: int, to: int)
    ensures from == EarliestOf(records, today) && to == Horizon(today)
  {
    from := today;
    for i := 0 to |records|
      invariant from == EarliestOf(records[..i], today)
    {
      assert records[..i + 1][..i] == records[..i];
      var earliest := ExpectedFrom(records[i]);
      if earliest < from { from := earliest; }
    }
    assert records[..|records|] == records;
    to := Horizon(today);
  }

  /** The window begins today, or with the soonest expectation if that is before,
      and ends twelve months from today, on its day or that month's last. */
  lemma WhatTheWindowSpans(records: seq<PlannedRecord>, today: int)
    requires Calendar.FIRST_DAY <= today
    ensures var from := EarliestOf(records, today);
      && from <= today && (forall record :: record in records ==> from <= ExpectedFrom(record))
      && (from == today || exists record :: record in records && ExpectedFrom(record) == from)
    ensures var day, last := Calendar.FromDay(today), Calendar.FromDay(Horizon(today));
      && Calendar.MonthIndex(last) == Calendar.MonthIndex(day) + 12 && OnThatDay(day, last)
  {
    TheSoonestIsAmong(records, today);
    Calendar.NotBeforeTheYearNought(today);
    Calendar.FromDayIsADate(today);
    Calendar.AddMonthsKeepsTheDay(Calendar.FromDay(today), 12);
    Calendar.FromDayOfDayNumber(Calendar.AddMonths(Calendar.FromDay(today), 12));
    Calendar.FromDayIsADate(Horizon(today));
  }

  lemma {:induction false} TheSoonestIsAmong(records: seq<PlannedRecord>, today: int)
    ensures var from := EarliestOf(records, today);
      && from <= today && (forall record :: record in records ==> from <= ExpectedFrom(record))
      && (from == today || exists record :: record in records && ExpectedFrom(record) == from)
  {
    if records != [] {
      var n := |records| - 1;
      TheSoonestIsAmong(records[..n], today);
      assert records == records[..n] + [records[n]];
    }
  }

  // ------------------------------------------------ who is among them

  lemma {:induction false} OccurrencesAtMembers(record: PlannedRecord, rows: seq<Row>, dates: seq<int>, today: int)
    ensures forall one :: one in OccurrencesAt(record, rows, dates, today) <==>
              one.dueDate in dates && one == OccurrenceOn(record, RowFor(rows, record.id, one.dueDate), one.dueDate, today)
  {
    if dates != [] {
      var n := |dates| - 1;
      OccurrencesAtMembers(record, rows, dates[..n], today);
      assert dates == dates[..n] + [dates[n]];
    }
  }

  /** One occurrence for every record that still stands and every date in the
      window that it falls on. */
  ghost predicate IsPlanned(records: seq<PlannedRecord>, rows: seq<Row>, from: int, to: int, today: int, one: Occurrence) {
    exists record :: record in records && !record.state.Retired?
      && from <= one.dueDate <= to && FallsOn(record, one.dueDate)
      && one == OccurrenceOn(record, RowFor(rows, record.id, one.dueDate), one.dueDate, today)
  }

  lemma {:induction false} AllOccurrencesMembers(records: seq<PlannedRecord>, rows: seq<Row>, from: int, to: int, today: int)
    requires forall record :: record in records ==> Dated(record)
    ensures forall one :: one in AllOccurrences(records, rows, from, to, today) <==>
              IsPlanned(records, rows, from, to, today, one)
  {
    if records != [] {
      var n := |records| - 1;
      var record := records[n];
      AllOccurrencesMembers(records[..n], rows, from, to, today);
      assert records == records[..n] + [record];
      DatesAreWhereItFalls(record, from, to);
      OccurrencesAtMembers(record, rows, Dates(record, from, to), today);
      forall one ensures one in AllOccurrences(records, rows, from, to, today) <==>
                         IsPlanned(records, rows, from, to, today, one) {
        assert one in AllOccurrences(records, rows, from, to, today) <==>
          one in AllOccurrences(records[..n], rows, from, to, today) || one in OccurrencesOf(record, rows, from, to, today);
      }
    }
  }

  lemma OccurrencesAreWhatIsPlanned(records: seq<PlannedRecord>, rows: seq<Row>, from: int, to: int, today: int)
    requires forall record :: record in records ==> Dated(record)
    ensures forall one :: one in Occurrences(records, rows, from, to, today) <==>
              IsPlanned(records, rows, from, to, today, one)
  {
    AllOccurrencesMembers(records, rows, from, to, today);
    SortMembers(Soonest, AllOccurrences(records, rows, from, to, today));
  }
}
