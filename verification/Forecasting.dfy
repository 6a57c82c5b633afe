/** The forecast of a position (ayq-forecast.ts): what counts, when it is placed,
    what a category's plan adds, and the running balance. */
module Forecasting {
  import opened Lists
  import opened Recurrence
  import Calendar
  import Strings

  datatype PlanRow = PlanRow(month: int, categoryName: string, planCents: int, remainingCents: int)

  datatype Source = FromRecord | FromPlan

  datatype Event = Event(
    date: int,
    kind: Kind,
    name: string,
    amountCents: int,
    source: Source,
    recordId: Option<string>,
    dueDate: Option<int>,
    categoryName: Option<string>,
    suggested: bool,
    flagged: bool)

  /** An event and the position just after it, when a position is known. */
  datatype DatedEvent = DatedEvent(event: Event, balanceCents: Option<int>)

  datatype MonthRow = MonthRow(month: int, expectedIncomeCents: int, expectedExpenseCents: int, closingCents: Option<int>)

  datatype Low = Low(date: int, balanceCents: int)

  datatype Input = Input(
    today: int,
    horizon: int,
    availableFundsCents: Option<int>,
    occurrences: seq<Occurrence>,
    plan: seq<PlanRow>)

  datatype Forecast = Forecast(
    events: seq<DatedEvent>,
    months: seq<MonthRow>,
    lowest: Option<Low>,
    closingCents: Option<int>)

  // ------------------------------------------------------- what counts

  predicate CountsAsExpected(one: Occurrence) {
    && !one.state.Matched? && !one.state.Struck?
    && !(one.kind.Income? && one.state.Overdue?)
    && !(one.kind.Income? && one.suggested)
  }

  function ForecastDate(one: Occurrence, today: int): int {
    if one.effectiveDate < today then today else one.effectiveDate
  }

  function ExpectedExpenseForCategory(planCents: int, recordsCents: int): int {
    Max(planCents, recordsCents)
  }

  function PlanDate(month: int, today: int): int {
    var start := Calendar.MonthStart(month);
    if start < today then today else start
  }

  function RecordEvent(one: Occurrence, today: int): Event {
    Event(ForecastDate(one, today), one.kind, one.name, one.amountCents, FromRecord, Some(one.recordId), Some(one.dueDate),
          one.categoryName, one.suggested, one.state.Overdue?)
  }

  predicate IsForecast(one: Occurrence, today: int, horizon: int) {
    CountsAsExpected(one) && ForecastDate(one, today) <= horizon
  }

  function RecordEvents(occurrences: seq<Occurrence>, today: int, horizon: int): seq<Event> {
    if occurrences == [] then []
    else
      var n := |occurrences| - 1;
      RecordEvents(occurrences[..n], today, horizon)
      + if IsForecast(occurrences[n], today, horizon) then [RecordEvent(occurrences[n], today)] else []
  }

  /** The cents an event adds to the expense of a category in a month. */
  function ExpenseIn(month: int, category: string): Event -> int {
    (e: Event) =>
      if e.kind.Expense? && e.categoryName == Some(category) && Calendar.MonthOf(e.date) == month then e.amountCents else 0
  }

  function PlannedFor(row: PlanRow, currentMonth: int): int {
    if row.month == currentMonth then row.remainingCents else row.planCents
  }

  function PlanEvent(row: PlanRow, uncovered: int, today: int): Event {
    Event(PlanDate(row.month, today), Expense, row.categoryName, uncovered, FromPlan, None, None,
          Some(row.categoryName), false, false)
  }

  /** The part of one plan row that no record accounts for. */
  function Uncovered(row: PlanRow, months: seq<int>, currentMonth: int, records: seq<Event>): int {
    var planCents := PlannedFor(row, currentMonth);
    if row.month !in months || planCents <= 0 then 0
    else
      var recordsCents := SumOver(ExpenseIn(row.month, row.categoryName), records);
      Max(0, ExpectedExpenseForCategory(planCents, recordsCents) - recordsCents)
  }

  function PlanEvents(plan: seq<PlanRow>, months: seq<int>, today: int, records: seq<Event>): seq<Event> {
    if plan == [] then []
    else
      var n := |plan| - 1;
      var uncovered := Uncovered(plan[n], months, Calendar.MonthOf(today), records);
      PlanEvents(plan[..n], months, today, records)
      + if uncovered > 0 then [PlanEvent(plan[n], uncovered, today)] else []
  }

  /** By date, within a day expenses first, within those by label. */
  predicate Before(a: Event, b: Event) {
    if a.date != b.date then a.date < b.date
    else if a.kind != b.kind then a.kind.Expense?
    else Strings.TextLess(a.name, b.name)
  }

  function MonthsOf(input: Input): seq<int> {
    Calendar.Months(Calendar.MonthOf(input.today), Calendar.MonthOf(input.horizon))
  }

  function Gathered(input: Input): seq<Event> {
    var records := RecordEvents(input.occurrences, input.today, input.horizon);
    records + PlanEvents(input.plan, MonthsOf(input), input.today, records)
  }

  function Events(input: Input): seq<Event> {
    Sort(Before, Gathered(input))
  }

  // ------------------------------------------------- the running position

  function Signed(e: Event): int {
    if e.kind.Income? then e.amountCents else -e.amountCents
  }

  /** The position after some events, when there is one to start from. */
  function Position(funds: Option<int>, events: seq<Event>): Option<int> {
    if funds.None? then None else Some(funds.value + SumOver(Signed, events))
  }

  function WithBalances(funds: Option<int>, events: seq<Event>): seq<DatedEvent> {
    if events == [] then []
    else WithBalances(funds, events[..|events| - 1]) + [DatedEvent(events[|events| - 1], Position(funds, events))]
  }

  function LowestOf(funds: int, today: int, events: seq<Event>): Low {
    if events == [] then Low(today, funds)
    else
      var n := |events| - 1;
      var low := LowestOf(funds, today, events[..n]);
      var running := funds + SumOver(Signed, events);
      if running < low.balanceCents then Low(events[n].date, running) else low
  }

  // ---------------------------------------------------------- the months

  function IncomeIn(month: int): Event -> int {
    (e: Event) => if e.kind.Income? && Calendar.MonthOf(e.date) == month then e.amountCents else 0
  }

  function OutIn(month: int): Event -> int {
    (e: Event) => if e.kind.Expense? && Calendar.MonthOf(e.date) == month then e.amountCents else 0
  }

  /** Where the last event of a month leaves the position. */
  function LastIn(funds: Option<int>, events: seq<Event>, month: int): Option<int> {
    if events == [] then funds
    else if Calendar.MonthOf(events[|events| - 1].date) == month then Position(funds, events)
    else LastIn(funds, events[..|events| - 1], month)
  }

  /** A month in which nothing moves takes over the closing carried to it. */
  function MonthRowFor(funds: Option<int>, events: seq<Event>, month: int, carried: Option<int>): MonthRow {
    var income, expense := SumOver(IncomeIn(month), events), SumOver(OutIn(month), events);
    MonthRow(month, income, expense, if income == 0 && expense == 0 then carried else LastIn(funds, events, month))
  }

  function ClosingOf(funds: Option<int>, rows: seq<MonthRow>): Option<int> {
    if rows == [] then funds else rows[|rows| - 1].closingCents
  }

  function MonthRows(funds: Option<int>, events: seq<Event>, months: seq<int>): seq<MonthRow> {
    if months == [] then []
    else
      var n := |months| - 1;
      var rows := MonthRows(funds, events, months[..n]);
      rows + [MonthRowFor(funds, events, months[n], ClosingOf(funds, rows))]
  }

  function Computed(input: Input): Forecast {
    var events, funds := Events(input), input.availableFundsCents;
    Forecast(
      WithBalances(funds, events),
      MonthRows(funds, events, MonthsOf(input)),
      if funds.Some? then Some(LowestOf(funds.value, input.today, events)) else None,
      Position(funds, events))
  }

  // ------------------------------------------------------- the computation

  type CategoryMonth = (int, string)

  function Known(fromRecords: map<CategoryMonth, int>, month: int, category: string): int {
    if (month, category) in fromRecords then fromRecords[(month, category)] else 0
  }

  ghost predicate CountsRecords(fromRecords: map<CategoryMonth, int>, records: seq<Event>) {
    forall month, category :: Known(fromRecords, month, category) == SumOver(ExpenseIn(month, category), records)
  }

  method GatherRecords(occurrences: seq<Occurrence>, today: int, horizon: int)
    returns (events: seq<Event>, fromRecords: map<CategoryMonth, int>)
    ensures events == RecordEvents(occurrences, today, horizon)
    ensures CountsRecords(fromRecords, events)
  {
    events, fromRecords := [], map[];
    for i := 0 to |occurrences|
      invariant events == RecordEvents(occurrences[..i], today, horizon)
      invariant CountsRecords(fromRecords, events)
    {
      assert occurrences[..i + 1][..i] == occurrences[..i];
      var one := occurrences[i];
      if !CountsAsExpected(one) { continue; }
      var date := ForecastDate(one, today);
      if date > horizon { continue; }
      var event := RecordEvent(one, today);
      ghost var before := events;
      events := events + [event];
      OneMoreRecord(fromRecords, before, event);
      if one.kind.Expense? && one.categoryName.Some? {
        var key := (Calendar.MonthOf(date), one.categoryName.value);
        fromRecords := fromRecords[key := Known(fromRecords, key.0, key.1) + one.amountCents];
      }
    }
    assert occurrences[..|occurrences|] == occurrences;
  }

  lemma OneMoreRecord(fromRecords: map<CategoryMonth, int>, records: seq<Event>, e: Event)
    requires CountsRecords(fromRecords, records)
    ensures if e.kind.Expense? && e.categoryName.Some? then
              var month, category := Calendar.MonthOf(e.date), e.categoryName.value;
              CountsRecords(fromRecords[(month, category) := Known(fromRecords, month, category) + e.amountCents], records + [e])
            else CountsRecords(fromRecords, records + [e])
  {
    assert (records + [e])[..|records|] == records;
  }

  /** What one plan row still adds; nought when it adds no event. */
  method StillPlanned(row: PlanRow, months: seq<int>, currentMonth: int, ghost records: seq<Event>, fromRecords: map<CategoryMonth, int>)
    returns (uncovered: int)
    requires CountsRecords(fromRecords, records)
    ensures uncovered == Uncovered(row, months, currentMonth, records)
  {
    if row.month !in months { return 0; }
    var planCents := if row.month == currentMonth then row.remainingCents else row.planCents;
    if planCents <= 0 { return 0; }
    var recordsCents := Known(fromRecords, row.month, row.categoryName);
    uncovered := ExpectedExpenseForCategory(planCents, recordsCents) - recordsCents;
    if uncovered <= 0 { return 0; }
  }

  method GatherPlan(plan: seq<PlanRow>, months: seq<int>, today: int, records: seq<Event>, fromRecords: map<CategoryMonth, int>)
    returns (events: seq<Event>)
    requires CountsRecords(fromRecords, records)
    ensures events == records + PlanEvents(plan, months, today, records)
  {
    events := records;
    var currentMonth := Calendar.MonthOf(today);
    for i := 0 to |plan|
      invariant events == records + PlanEvents(plan[..i], months, today, records)
    {
      ghost var added := PlanOneMore(plan, i, months, today, records);
      var uncovered := StillPlanned(plan[i], months, currentMonth, records, fromRecords);
      if uncovered <= 0 { continue; }
      assert records + (added + [PlanEvent(plan[i], uncovered, today)]) == (records + added) + [PlanEvent(plan[i], uncovered, today)];
      events := events + [PlanEvent(plan[i], uncovered, today)];
    }
    assert plan[..|plan|] == plan;
  }

  lemma PlanOneMore(plan: seq<PlanRow>, i: nat, months: seq<int>, today: int, records: seq<Event>) returns (added: seq<Event>)
    requires i < |plan|
    ensures added == PlanEvents(plan[..i], months, today, records)
    ensures var uncovered := Uncovered(plan[i], months, Calendar.MonthOf(today), records);
      PlanEvents(plan[..i + 1], months, today, records) ==
        if uncovered > 0 then added + [PlanEvent(plan[i], uncovered, today)] else added
  {
    assert plan[..i + 1][..i] == plan[..i];
    added := PlanEvents(plan[..i], months, today, records);
  }

  method RunBalance(funds: Option<int>, today: int, events: seq<Event>)
    returns (dated: seq<DatedEvent>, lowest: Option<Low>, running: Option<int>)
    ensures dated == WithBalances(funds, events)
    ensures lowest == if funds.Some? then Some(LowestOf(funds.value, today, events)) else None
    ensures running == Position(funds, events)
  {
    running := funds;
    lowest := if funds.Some? then Some(Low(today, funds.value)) else None;
    dated := [];
    for i := 0 to |events|
      invariant dated == WithBalances(funds, events[..i])
      invariant running == Position(funds, events[..i])
      invariant lowest == if funds.Some? then Some(LowestOf(funds.value, today, events[..i])) else None
    {
      assert events[..i + 1][..i] == events[..i];
      var event := events[i];
      if running.Some? {
        running := Some(running.value + if event.kind.Income? then event.amountCents else -event.amountCents);
      }
      dated := dated + [DatedEvent(event, running)];
      if running.Some? && lowest.Some? && running.value < lowest.value.balanceCents {
        lowest := Some(Low(event.date, running.value));
      }
    }
    assert events[..|events|] == events;
  }

  /** The rows as the events fill them in, before any closing is carried. */
  ghost predicate FilledIn(byMonth: map<int, MonthRow>, months: seq<int>, funds: Option<int>, events: seq<Event>) {
    && (forall month :: month in byMonth <==> month in months)
    && (forall month :: month in byMonth ==>
          byMonth[month] == MonthRow(month, SumOver(IncomeIn(month), events), SumOver(OutIn(month), events), LastIn(funds, events, month)))
  }

  method FillMonths(funds: Option<int>, events: seq<Event>, dated: seq<DatedEvent>, months: seq<int>)
    returns (byMonth: map<int, MonthRow>)
    requires dated == WithBalances(funds, events)
    ensures FilledIn(byMonth, months, funds, events)
  {
    byMonth := Quiet(months, funds);
    QuietIsFilled(months, funds);
    BalancesEach(funds, events);
    for i := 0 to |dated|
      invariant FilledIn(byMonth, months, funds, events[..i])
    {
      FillOne(byMonth, months, funds, events, i);
      var event := dated[i].event;
      var month := Calendar.MonthOf(event.date);
      if month !in byMonth { continue; }
      var row := byMonth[month];
      if event.kind.Income? {
        row := row.(expectedIncomeCents := row.expectedIncomeCents + event.amountCents);
      } else {
        row := row.(expectedExpenseCents := row.expectedExpenseCents + event.amountCents);
      }
      byMonth := byMonth[month := row.(closingCents := dated[i].balanceCents)];
    }
    assert events[..|events|] == events;
  }

  function Quiet(months: seq<int>, funds: Option<int>): map<int, MonthRow> {
    map month | month in months :: MonthRow(month, 0, 0, funds)
  }

  lemma QuietIsFilled(months: seq<int>, funds: Option<int>)
    ensures FilledIn(Quiet(months, funds), months, funds, [])
  {
  }

  lemma {:induction false} BalancesEach(funds: Option<int>, events: seq<Event>)
    ensures |WithBalances(funds, events)| == |events|
    ensures forall i :: 0 <= i < |events| ==> WithBalances(funds, events)[i] == DatedEvent(events[i], Position(funds, events[..i + 1]))
  {
    if events != [] {
      var n := |events| - 1;
      BalancesEach(funds, events[..n]);
      assert events[..n + 1] == events;
      forall i | 0 <= i < n
        ensures WithBalances(funds, events)[i] == DatedEvent(events[i], Position(funds, events[..i + 1]))
      {
        assert events[..n][..i + 1] == events[..i + 1];
      }
    }
  }

  lemma FillOne(byMonth: map<int, MonthRow>, months: seq<int>, funds: Option<int>, events: seq<Event>, i: nat)
    requires i < |events| && FilledIn(byMonth, months, funds, events[..i])
    ensures var e := events[i];
      var month := Calendar.MonthOf(e.date);
      if month !in byMonth then FilledIn(byMonth, months, funds, events[..i + 1])
      else
        var row := if e.kind.Income? then byMonth[month].(expectedIncomeCents := byMonth[month].expectedIncomeCents + e.amountCents)
                   else byMonth[month].(expectedExpenseCents := byMonth[month].expectedExpenseCents + e.amountCents);
        FilledIn(byMonth[month := row.(closingCents := Position(funds, events[..i + 1]))], months, funds, events[..i + 1])
  {
    assert events[..i + 1][..i] == events[..i];
  }

  method CarryClosings(funds: Option<int>, events: seq<Event>, byMonth: map<int, MonthRow>, months: seq<int>)
    returns (rows: seq<MonthRow>)
    requires FilledIn(byMonth, months, funds, events)
    ensures rows == MonthRows(funds, events, months)
  {
    rows := [];
    var carried := funds;
    for i := 0 to |months|
      invariant rows == MonthRows(funds, events, months[..i])
      invariant carried == ClosingOf(funds, rows)
    {
      assert months[..i + 1][..i] == months[..i];
      var month := months[i];
      assert month in months;
      var row := byMonth[month];
      if row.expectedIncomeCents == 0 && row.expectedExpenseCents == 0 {
        row := row.(closingCents := carried);
      }
      carried := row.closingCents;
      rows := rows + [row];
    }
    assert months[..|months|] == months;
  }

  method ComputeForecast(input: Input) returns (forecast: Forecast)
    requires Calendar.FIRST_DAY <= input.today
    ensures forecast == Computed(input)
  {
    Calendar.NotBeforeTheYearNought(input.today);
    var months := Calendar.MonthsBetween(Calendar.MonthOf(input.today), Calendar.MonthOf(input.horizon));
    var records, fromRecords := GatherRecords(input.occurrences, input.today, input.horizon);
    var gathered := GatherPlan(input.plan, months, input.today, records, fromRecords);
    var events := Sort(Before, gathered);
    var dated, lowest, running := RunBalance(input.availableFundsCents, input.today, events);
    var byMonth := FillMonths(input.availableFundsCents, events, dated, months);
    var rows := CarryClosings(input.availableFundsCents, events, byMonth, months);
    forecast := Forecast(dated, rows, lowest, running);
  }
}
