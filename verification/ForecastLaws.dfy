/** What the forecast promises about the position it projects. */
module ForecastLaws {
  import opened Lists
  import opened Recurrence
  import opened Forecasting
  import Calendar
  import Strings

  // ------------------------------------------------ the lowest position

  ghost predicate DateRespecting(events: seq<Event>) {
    forall i, j :: 0 <= i < j < |events| ==> events[i].date <= events[j].date
  }

  ghost predicate MoneyOutFirst(events: seq<Event>) {
    forall i, j :: 0 <= i < j < |events| && events[i].date == events[j].date && events[i].kind.Income? ==> events[j].kind.Income?
  }

  function After(funds: int, events: seq<Event>, k: nat): int
    requires k <= |events|
  {
    funds + SumOver(Signed, events[..k])
  }

  /** After so many events the position is that one, and it was above it before. */
  ghost predicate ReachedFirst(funds: int, today: int, events: seq<Event>, low: Low, k: nat) {
    && k <= |events| && After(funds, events, k) == low.balanceCents
    && low.date == (if k == 0 then today else events[k - 1].date)
    && forall earlier :: 0 <= earlier < k ==> After(funds, events, earlier) > low.balanceCents
  }

  lemma SamePositions(funds: int, events: seq<Event>, n: nat)
    requires n <= |events|
    ensures forall k :: 0 <= k <= n ==> After(funds, events[..n], k) == After(funds, events, k)
  {
    forall k | 0 <= k <= n ensures After(funds, events[..n], k) == After(funds, events, k) {
      assert events[..n][..k] == events[..k];
    }
  }

  /** The lowest position is the least of all of them, the starting one
      included, and its date is the first on which it is reached. */
  lemma {:induction false} LowestIsTheLeast(funds: int, today: int, events: seq<Event>)
    ensures var low := LowestOf(funds, today, events);
      && (forall k :: 0 <= k <= |events| ==> low.balanceCents <= After(funds, events, k))
      && (exists k :: ReachedFirst(funds, today, events, low, k))
  {
    if events == [] {
      assert ReachedFirst(funds, today, events, LowestOf(funds, today, events), 0);
    } else {
      var n := |events| - 1;
      var before := events[..n];
      LowestIsTheLeast(funds, today, before);
      SamePositions(funds, events, n);
      assert events[..n + 1] == events;
      var low, was := LowestOf(funds, today, events), LowestOf(funds, today, before);
      if low == was {
        var k :| ReachedFirst(funds, today, before, was, k);
        assert ReachedFirst(funds, today, events, low, k);
      } else {
        assert ReachedFirst(funds, today, events, low, n + 1);
      }
    }
  }

  /** What a day costs at its worst: everything before it, and all it pays out. */
  function Worst(day: int): Event -> int {
    (e: Event) => if e.date < day || (e.date == day && e.kind.Expense?) then Signed(e) else 0
  }

  /** In any order that respects dates, no position is below the worst of the
      day its last event falls on. */
  lemma NoPositionIsWorse(events: seq<Event>, k: nat)
    requires DateRespecting(events) && 0 < k <= |events|
    requires forall e :: e in events ==> e.amountCents >= 0
    ensures SumOver(Worst(events[k - 1].date), events) <= SumOver(Signed, events[..k])
  {
    var worst := Worst(events[k - 1].date);
    assert events == events[..k] + events[k..];
    SumConcat(worst, events[..k], events[k..]);
    WorstOfEarlier(events, k);
    forall e | e in events[k..] ensures events[k - 1].date <= e.date && e.amountCents >= 0 {
      var i :| 0 <= i < |events[k..]| && events[k..][i] == e;
      assert events[k + i] == e;
    }
    WorstOfLater(events[k..], events[k - 1].date);
  }

  lemma WorstOfEarlier(events: seq<Event>, k: nat)
    requires DateRespecting(events) && 0 < k <= |events|
    requires forall e :: e in events ==> e.amountCents >= 0
    ensures SumOver(Worst(events[k - 1].date), events[..k]) <= SumOver(Signed, events[..k])
  {
    var worst := Worst(events[k - 1].date);
    forall e | e in events[..k] ensures worst(e) <= Signed(e) {
      var i :| 0 <= i < k && events[i] == e;
      assert i < k - 1 ==> events[i].date <= events[k - 1].date;
    }
    SumBounded(worst, Signed, events[..k]);
  }

  lemma WorstOfLater(events: seq<Event>, day: int)
    requires forall e :: e in events ==> day <= e.date && e.amountCents >= 0
    ensures SumOver(Worst(day), events) <= 0
  {
    SumBounded(Worst(day), (e: Event) => 0, events);
    SumOfNought((e: Event) => 0, events);
  }

  function CutAt(events: seq<Event>, day: int): (k: nat)
    ensures k <= |events|
    ensures forall i :: 0 <= i < k ==> events[i].date < day || (events[i].date == day && events[i].kind.Expense?)
    ensures k < |events| ==> !(events[k].date < day || (events[k].date == day && events[k].kind.Expense?))
  {
    if events == [] then 0
    else if events[0].date < day || (events[0].date == day && events[0].kind.Expense?) then 1 + CutAt(events[1..], day)
    else 0
  }

  /** With money out first, that worst is a position that is really passed through. */
  lemma TheWorstIsReached(events: seq<Event>, day: int)
    requires DateRespecting(events) && MoneyOutFirst(events)
    ensures SumOver(Worst(day), events) == SumOver(Signed, events[..CutAt(events, day)])
  {
    var k := CutAt(events, day);
    assert events == events[..k] + events[k..];
    SumConcat(Worst(day), events[..k], events[k..]);
    SumAgrees(Worst(day), Signed, events[..k]);
    NothingAfterTheCut(events, day);
  }

  lemma NothingAfterTheCut(events: seq<Event>, day: int)
    requires DateRespecting(events) && MoneyOutFirst(events)
    ensures SumOver(Worst(day), events[CutAt(events, day)..]) == 0
  {
    var k := CutAt(events, day);
    forall e | e in events[k..] ensures Worst(day)(e) == 0 {
      var i :| 0 <= i < |events[k..]| && events[k..][i] == e;
      assert e == events[k + i];
      if i > 0 {
        assert events[k].date <= e.date;
      }
    }
    SumOfNought(Worst(day), events[k..]);
  }

  /** The stated lowest point cannot be improved on by looking at the days'
      events in another order: any order that respects dates has a lowest point
      at least as high, and the very same one, its date included, if it too puts
      money out first. */
  lemma LowestIsPessimal(funds: int, today: int, stated: seq<Event>, other: seq<Event>)
    requires DateRespecting(stated) && MoneyOutFirst(stated) && DateRespecting(other)
    requires multiset(stated) == multiset(other)
    requires forall e :: e in stated ==> e.amountCents >= 0
    ensures LowestOf(funds, today, stated).balanceCents <= LowestOf(funds, today, other).balanceCents
    ensures MoneyOutFirst(other) ==> LowestOf(funds, today, stated) == LowestOf(funds, today, other)
  {
    SameEvents(stated, other);
    LowestNotAbove(funds, today, stated, other);
    if MoneyOutFirst(other) {
      LowestNotAbove(funds, today, other, stated);
      LowestIsTheLeast(funds, today, stated);
      LowestIsTheLeast(funds, today, other);
      var low, same := LowestOf(funds, today, stated), LowestOf(funds, today, other);
      var k :| ReachedFirst(funds, today, stated, low, k);
      var l :| ReachedFirst(funds, today, other, same, l);
      if k == 0 || l == 0 {
        assert After(funds, stated, 0) == funds == After(funds, other, 0);
      } else {
        NotReachedSooner(funds, today, stated, k, other, l);
        NotReachedSooner(funds, today, other, l, stated, k);
      }
    }
  }

  /** Where two orders put money out first, neither comes to the lowest point on a
      day before the other does: by the end of what that day pays out the other
      has come to it too. */
  lemma NotReachedSooner(funds: int, today: int, one: seq<Event>, k: nat, other: seq<Event>, l: nat)
    requires DateRespecting(one) && DateRespecting(other) && MoneyOutFirst(other)
    requires multiset(one) == multiset(other) && forall e :: e in one ==> e.amountCents >= 0
    requires LowestOf(funds, today, one).balanceCents == LowestOf(funds, today, other).balanceCents
    requires k > 0 && ReachedFirst(funds, today, one, LowestOf(funds, today, one), k)
    requires l > 0 && ReachedFirst(funds, today, other, LowestOf(funds, today, other), l)
    ensures other[l - 1].date <= one[k - 1].date
  {
    var day := one[k - 1].date;
    var cut := CutAt(other, day);
    NoPositionIsWorse(one, k);
    TheWorstIsReached(other, day);
    SumPermutes(Worst(day), one, other);
    assert After(funds, other, cut) <= After(funds, one, k);
    assert cut >= l;
  }

  lemma SameEvents(a: seq<Event>, b: seq<Event>)
    requires multiset(a) == multiset(b)
    ensures forall e :: e in a <==> e in b
  {
    forall e ensures e in a <==> e in b {
      assert e in a <==> e in multiset(a);
      assert e in b <==> e in multiset(b);
    }
  }

  lemma LowestNotAbove(funds: int, today: int, stated: seq<Event>, other: seq<Event>)
    requires DateRespecting(stated) && MoneyOutFirst(stated) && DateRespecting(other)
    requires multiset(stated) == multiset(other)
    requires forall e :: e in other ==> e.amountCents >= 0
    ensures LowestOf(funds, today, stated).balanceCents <= LowestOf(funds, today, other).balanceCents
  {
    LowestIsTheLeast(funds, today, stated);
    LowestIsTheLeast(funds, today, other);
    var k :| 0 <= k <= |other| && After(funds, other, k) == LowestOf(funds, today, other).balanceCents;
    if k == 0 {
      assert After(funds, stated, 0) == funds;
    } else {
      var day := other[k - 1].date;
      NoPositionIsWorse(other, k);
      TheWorstIsReached(stated, day);
      SumPermutes(Worst(day), stated, other);
      assert After(funds, stated, CutAt(stated, day)) <= After(funds, other, k);
    }
  }

  lemma BeforeIsAnOrder()
    ensures WeakOrder(Before)
  {
    forall a: Event, b: Event ensures Before(a, b) ==> !Before(b, a) {
      Strings.TextLessIsTotal(a.name, b.name);
    }
    forall a: Event, b: Event, c: Event ensures !Before(b, a) && !Before(c, b) ==> !Before(c, a) {
      Strings.TextLessIsTotal(a.name, b.name);
      Strings.TextLessIsTotal(b.name, c.name);
      if Strings.TextLess(c.name, a.name) {
        if Strings.TextLess(a.name, b.name) {
          Strings.TextLessIsTransitive(c.name, a.name, b.name);
        }
      }
    }
  }

  /** The forecast's own order: by date, money out first. */
  lemma EventsAreInOrder(input: Input)
    ensures DateRespecting(Events(input)) && MoneyOutFirst(Events(input))
  {
    BeforeIsAnOrder();
    SortIsOrdered(Before, Gathered(input));
    var events := Events(input);
    forall i, j | 0 <= i < j < |events|
      ensures events[i].date <= events[j].date
      ensures events[i].date == events[j].date && events[i].kind.Income? ==> events[j].kind.Income?
    {
      assert !Before(events[j], events[i]);
    }
  }

  // ------------------------------------------------- nothing counts twice

  ghost predicate OneRowEach(plan: seq<PlanRow>) {
    forall i, j :: 0 <= i < j < |plan| ==> (plan[i].month, plan[i].categoryName) != (plan[j].month, plan[j].categoryName)
  }

  predicate IsRowOf(row: PlanRow, month: int, category: string) {
    row.month == month && row.categoryName == category
  }

  /** What the plan itself sets aside for a category in a month of the forecast. */
  function Contribution(plan: seq<PlanRow>, months: seq<int>, currentMonth: int, month: int, category: string): int {
    if plan == [] then 0
    else
      var n := |plan| - 1;
      Contribution(plan[..n], months, currentMonth, month, category)
      + if IsRowOf(plan[n], month, category) && month in months then Max(0, PlannedFor(plan[n], currentMonth)) else 0
  }

  lemma PlanDateIsInItsMonth(month: int, today: int)
    requires Calendar.MonthOf(today) <= month
    ensures Calendar.MonthOf(PlanDate(month, today)) == month
    ensures today <= PlanDate(month, today)
  {
    Calendar.MonthStartIsInItsMonth(month);
    if Calendar.MonthStart(month) < today {
      Calendar.LaterMonthIsLater(Calendar.MonthStart(month), today);
    }
  }

  lemma {:induction false} NoRowNoContribution(plan: seq<PlanRow>, months: seq<int>, today: int, records: seq<Event>, month: int, category: string)
    requires forall row :: row in plan ==> !IsRowOf(row, month, category)
    requires forall m :: m in months ==> Calendar.MonthOf(today) <= m
    ensures Contribution(plan, months, Calendar.MonthOf(today), month, category) == 0
    ensures SumOver(ExpenseIn(month, category), PlanEvents(plan, months, today, records)) == 0
  {
    if plan != [] {
      NoRowNoContribution(plan[..|plan| - 1], months, today, records, month, category);
      PlanEventAdds(plan, months, today, records, month, category);
    }
  }

  /** The last row adds what is uncovered of it, in its own month and category. */
  lemma PlanEventAdds(plan: seq<PlanRow>, months: seq<int>, today: int, records: seq<Event>, month: int, category: string)
    requires plan != [] && forall m :: m in months ==> Calendar.MonthOf(today) <= m
    ensures var n := |plan| - 1;
      SumOver(ExpenseIn(month, category), PlanEvents(plan, months, today, records)) ==
      SumOver(ExpenseIn(month, category), PlanEvents(plan[..n], months, today, records))
      + if IsRowOf(plan[n], month, category) then Uncovered(plan[n], months, Calendar.MonthOf(today), records) else 0
  {
    var n := |plan| - 1;
    var uncovered := LastPlanRow(ExpenseIn(month, category), plan, months, today, records);
    if uncovered > 0 {
      PlanEventCounts(plan[n], uncovered, today, month, category);
    }
  }

  lemma LastPlanRow(f: Event -> int, plan: seq<PlanRow>, months: seq<int>, today: int, records: seq<Event>) returns (uncovered: int)
    requires plan != []
    ensures uncovered == Uncovered(plan[|plan| - 1], months, Calendar.MonthOf(today), records) >= 0
    ensures uncovered > 0 ==> plan[|plan| - 1].month in months
    ensures SumOver(f, PlanEvents(plan, months, today, records)) ==
      SumOver(f, PlanEvents(plan[..|plan| - 1], months, today, records))
      + if uncovered > 0 then f(PlanEvent(plan[|plan| - 1], uncovered, today)) else 0
  {
    var n := |plan| - 1;
    assert plan[..n + 1] == plan;
    var added := PlanOneMore(plan, n, months, today, records);
    uncovered := Uncovered(plan[n], months, Calendar.MonthOf(today), records);
    OneMoreSum(f, added, PlanEvent(plan[n], uncovered, today));
  }

  lemma PlanEventCounts(row: PlanRow, uncovered: int, today: int, month: int, category: string)
    requires Calendar.MonthOf(today) <= row.month
    ensures ExpenseIn(month, category)(PlanEvent(row, uncovered, today)) == if IsRowOf(row, month, category) then uncovered else 0
  {
    PlanDateIsInItsMonth(row.month, today);
  }

  lemma OneMoreSum(f: Event -> int, events: seq<Event>, e: Event)
    ensures SumOver(f, events + [e]) == SumOver(f, events) + f(e)
  {
    assert (events + [e])[..|events|] == events;
  }

  lemma NoOtherRow(plan: seq<PlanRow>, month: int, category: string)
    requires OneRowEach(plan) && plan != [] && IsRowOf(plan[|plan| - 1], month, category)
    ensures forall row :: row in plan[..|plan| - 1] ==> !IsRowOf(row, month, category)
  {
    forall row | row in plan[..|plan| - 1] ensures !IsRowOf(row, month, category) {
      var i :| 0 <= i < |plan| - 1 && plan[i] == row;
    }
  }

  lemma OthersAreOneEach(plan: seq<PlanRow>)
    requires OneRowEach(plan) && plan != []
    ensures OneRowEach(plan[..|plan| - 1])
  {
  }

  lemma {:induction false} PlanFillsUp(plan: seq<PlanRow>, months: seq<int>, today: int, records: seq<Event>, month: int, category: string)
    requires OneRowEach(plan) && forall m :: m in months ==> Calendar.MonthOf(today) <= m
    requires SumOver(ExpenseIn(month, category), records) >= 0
    ensures var recorded := SumOver(ExpenseIn(month, category), records);
      recorded + SumOver(ExpenseIn(month, category), PlanEvents(plan, months, today, records))
      == Max(Contribution(plan, months, Calendar.MonthOf(today), month, category), recorded)
  {
    if plan != [] {
      var n := |plan| - 1;
      PlanEventAdds(plan, months, today, records, month, category);
      if IsRowOf(plan[n], month, category) {
        NoOtherRow(plan, month, category);
        NoRowNoContribution(plan[..n], months, today, records, month, category);
      } else {
        OthersAreOneEach(plan);
        PlanFillsUp(plan[..n], months, today, records, month, category);
      }
    }
  }

  lemma MonthsFromToday(input: Input)
    ensures forall month :: month in MonthsOf(input) ==> Calendar.MonthOf(input.today) <= month <= Calendar.MonthOf(input.horizon)
  {
    Calendar.MonthsListsEach(Calendar.MonthOf(input.today), Calendar.MonthOf(input.horizon));
  }

  ghost predicate AmountsArePositive(input: Input) {
    forall one :: one in input.occurrences ==> one.amountCents >= 0
  }

  lemma {:induction false} RecordEventsArePositive(occurrences: seq<Occurrence>, today: int, horizon: int)
    requires forall one :: one in occurrences ==> one.amountCents >= 0
    ensures forall e :: e in RecordEvents(occurrences, today, horizon) ==> e.amountCents >= 0
  {
    if occurrences != [] {
      RecordEventsArePositive(occurrences[..|occurrences| - 1], today, horizon);
    }
  }

  lemma {:induction false} PlanEventsArePositive(plan: seq<PlanRow>, months: seq<int>, today: int, records: seq<Event>)
    ensures forall e :: e in PlanEvents(plan, months, today, records) ==> e.amountCents >= 0
  {
    if plan != [] {
      PlanEventsArePositive(plan[..|plan| - 1], months, today, records);
    }
  }

  /** For each month and category the forecast expects the larger of the plan
      and the records, never their sum. */
  lemma PlanAndRecordsNeverCountTwice(input: Input, month: int, category: string)
    requires OneRowEach(input.plan) && AmountsArePositive(input)
    ensures var recorded := SumOver(ExpenseIn(month, category), RecordEvents(input.occurrences, input.today, input.horizon));
      SumOver(ExpenseIn(month, category), Events(input)) ==
      Max(Contribution(input.plan, MonthsOf(input), Calendar.MonthOf(input.today), month, category), recorded)
  {
    var f := ExpenseIn(month, category);
    var records := RecordEvents(input.occurrences, input.today, input.horizon);
    var planned := PlanEvents(input.plan, MonthsOf(input), input.today, records);
    SumPermutes(f, Events(input), Gathered(input));
    SumConcat(f, records, planned);
    RecordEventsArePositive(input.occurrences, input.today, input.horizon);
    SumBounded((e: Event) => 0, f, records);
    SumOfNought((e: Event) => 0, records);
    MonthsFromToday(input);
    PlanFillsUp(input.plan, MonthsOf(input), input.today, records, month, category);
  }

  /** The lowest point of a forecast, against every other order of its events. */
  lemma ForecastLowestIsPessimal(input: Input, other: seq<Event>)
    requires AmountsArePositive(input) && input.availableFundsCents.Some?
    requires multiset(other) == multiset(Events(input)) && DateRespecting(other)
    ensures Computed(input).lowest.value.balanceCents
            <= LowestOf(input.availableFundsCents.value, input.today, other).balanceCents
  {
    var records := RecordEvents(input.occurrences, input.today, input.horizon);
    EventsAreInOrder(input);
    RecordEventsArePositive(input.occurrences, input.today, input.horizon);
    PlanEventsArePositive(input.plan, MonthsOf(input), input.today, records);
    SortMembers(Before, Gathered(input));
    LowestIsPessimal(input.availableFundsCents.value, input.today, Events(input), other);
  }

  // ------------------------------------------------------ month closings

  /** What moves the position by the end of a month. */
  function UpTo(month: int): Event -> int {
    (e: Event) => if Calendar.MonthOf(e.date) <= month then Signed(e) else 0
  }

  ghost predicate MonthRespecting(events: seq<Event>) {
    forall i, j :: 0 <= i < j < |events| ==> Calendar.MonthOf(events[i].date) <= Calendar.MonthOf(events[j].date)
  }

  lemma MonthsFollowDates(events: seq<Event>)
    requires DateRespecting(events)
    ensures MonthRespecting(events)
  {
    forall i, j | 0 <= i < j < |events| ensures Calendar.MonthOf(events[i].date) <= Calendar.MonthOf(events[j].date) {
      Calendar.LaterMonthIsLater(events[i].date, events[j].date);
    }
  }

  lemma NoneLater(events: seq<Event>)
    requires MonthRespecting(events) && events != []
    ensures forall e :: e in events ==> Calendar.MonthOf(e.date) <= Calendar.MonthOf(events[|events| - 1].date)
  {
    var n := |events| - 1;
    forall e | e in events ensures Calendar.MonthOf(e.date) <= Calendar.MonthOf(events[n].date) {
      var k :| 0 <= k < |events| && events[k] == e;
      assert k < n ==> Calendar.MonthOf(events[k].date) <= Calendar.MonthOf(events[n].date);
    }
  }

  lemma LastInHere(funds: Option<int>, events: seq<Event>, month: int)
    requires events != [] && Calendar.MonthOf(events[|events| - 1].date) == month
    requires forall e :: e in events ==> Calendar.MonthOf(e.date) <= month
    ensures LastIn(funds, events, month) == if funds.None? then None else Some(funds.value + SumOver(UpTo(month), events))
  {
    SumAgrees(UpTo(month), Signed, events);
  }

  lemma LastInEarlier(funds: Option<int>, events: seq<Event>, month: int)
    requires events != [] && Calendar.MonthOf(events[|events| - 1].date) > month
    ensures LastIn(funds, events, month) == LastIn(funds, events[..|events| - 1], month)
    ensures SumOver(UpTo(month), events) == SumOver(UpTo(month), events[..|events| - 1])
  {
  }

  lemma LeadingRespects(events: seq<Event>, n: nat)
    requires MonthRespecting(events) && n <= |events|
    ensures MonthRespecting(events[..n])
  {
    forall i, j | 0 <= i < j < n ensures Calendar.MonthOf(events[..n][i].date) <= Calendar.MonthOf(events[..n][j].date) {
      assert events[..n][i] == events[i] && events[..n][j] == events[j];
    }
  }

  lemma EndsEarlier(funds: Option<int>, events: seq<Event>, month: int, i: nat)
    requires MonthRespecting(events) && i < |events| - 1 && Calendar.MonthOf(events[i].date) == month
    requires Calendar.MonthOf(events[|events| - 1].date) != month
    ensures var earlier := events[..|events| - 1];
      && MonthRespecting(earlier) && earlier[i] == events[i]
      && LastIn(funds, events, month) == LastIn(funds, earlier, month)
      && SumOver(UpTo(month), events) == SumOver(UpTo(month), earlier)
  {
    var n := |events| - 1;
    assert Calendar.MonthOf(events[i].date) <= Calendar.MonthOf(events[n].date);
    LastInEarlier(funds, events, month);
    LeadingRespects(events, n);
  }

  lemma EndsHere(funds: Option<int>, events: seq<Event>, month: int)
    requires MonthRespecting(events) && events != [] && Calendar.MonthOf(events[|events| - 1].date) == month
    ensures LastIn(funds, events, month) == if funds.None? then None else Some(funds.value + SumOver(UpTo(month), events))
  {
    NoneLater(events);
    LastInHere(funds, events, month);
  }

  lemma {:induction false} LastInIsTheMonthsEnd(funds: Option<int>, events: seq<Event>, month: int, i: nat)
    requires MonthRespecting(events) && i < |events| && Calendar.MonthOf(events[i].date) == month
    ensures LastIn(funds, events, month) == if funds.None? then None else Some(funds.value + SumOver(UpTo(month), events))
    decreases |events|
  {
    var n := |events| - 1;
    if i < n && Calendar.MonthOf(events[n].date) != month {
      EndsEarlier(funds, events, month, i);
      LastInIsTheMonthsEnd(funds, events[..n], month, i);
    } else {
      EndsHere(funds, events, month);
    }
  }

  /** One more month moves the position by its income less its expense. */
  lemma {:induction false} OneMoreMonth(events: seq<Event>, month: int)
    ensures SumOver(UpTo(month), events) ==
            SumOver(UpTo(month - 1), events) + SumOver(IncomeIn(month), events) - SumOver(OutIn(month), events)
  {
    if events != [] {
      OneMoreMonth(events[..|events| - 1], month);
    }
  }

  lemma {:induction false} SomethingInTheMonth(events: seq<Event>, month: int) returns (i: nat)
    requires SumOver(IncomeIn(month), events) != 0 || SumOver(OutIn(month), events) != 0
    ensures i < |events| && Calendar.MonthOf(events[i].date) == month
  {
    i := |events| - 1;
    if Calendar.MonthOf(events[i].date) != month {
      i := SomethingInTheMonth(events[..i], month);
    }
  }

  ghost predicate NothingBefore(events: seq<Event>, month: int) {
    forall e :: e in events ==> month <= Calendar.MonthOf(e.date)
  }

  /** A row says what its month takes in and pays out, and closes at the funds
      and everything up to its end. */
  ghost predicate RowIsRight(row: MonthRow, funds: int, events: seq<Event>, month: int) {
    && row.month == month
    && row.expectedIncomeCents == SumOver(IncomeIn(month), events)
    && row.expectedExpenseCents == SumOver(OutIn(month), events)
    && row.closingCents == Some(funds + SumOver(UpTo(month), events))
  }

  ghost predicate RowsAreRight(rows: seq<MonthRow>, funds: int, events: seq<Event>, months: seq<int>) {
    |rows| == |months| && forall i :: 0 <= i < |months| ==> RowIsRight(rows[i], funds, events, months[i])
  }

  lemma NothingUpTo(events: seq<Event>, first: int)
    requires NothingBefore(events, first)
    ensures SumOver(UpTo(first - 1), events) == 0
  {
    SumOfNought(UpTo(first - 1), events);
  }

  lemma {:induction false} ClosingsAre(funds: int, events: seq<Event>, months: seq<int>, first: int)
    requires MonthRespecting(events) && NothingBefore(events, first)
    requires forall i :: 0 <= i < |months| ==> months[i] == first + i
    ensures RowsAreRight(MonthRows(Some(funds), events, months), funds, events, months)
  {
    if months != [] {
      var n := |months| - 1;
      var rows := MonthRows(Some(funds), events, months[..n]);
      ClosingsAre(funds, events, months[..n], first);
      if n == 0 {
        NothingUpTo(events, first);
      }
      CarriedIs(rows, funds, events, months[..n], months[n]);
      ClosingIs(funds, events, months[n], ClosingOf(Some(funds), rows));
      OneMoreRow(rows, MonthRowFor(Some(funds), events, months[n], ClosingOf(Some(funds), rows)), funds, events, months);
    }
  }

  lemma CarriedIs(rows: seq<MonthRow>, funds: int, events: seq<Event>, months: seq<int>, next: int)
    requires RowsAreRight(rows, funds, events, months)
    requires if months == [] then SumOver(UpTo(next - 1), events) == 0 else months[|months| - 1] == next - 1
    ensures ClosingOf(Some(funds), rows) == Some(funds + SumOver(UpTo(next - 1), events))
  {
    if months != [] {
      assert RowIsRight(rows[|rows| - 1], funds, events, months[|months| - 1]);
    }
  }

  lemma OneMoreRow(rows: seq<MonthRow>, row: MonthRow, funds: int, events: seq<Event>, months: seq<int>)
    requires months != [] && RowsAreRight(rows, funds, events, months[..|months| - 1])
    requires RowIsRight(row, funds, events, months[|months| - 1])
    ensures RowsAreRight(rows + [row], funds, events, months)
  {
    forall i | 0 <= i < |months| ensures RowIsRight((rows + [row])[i], funds, events, months[i]) {
      assert i < |rows| ==> RowIsRight(rows[i], funds, events, months[..|months| - 1][i]);
    }
  }

  lemma ClosingIs(funds: int, events: seq<Event>, month: int, carried: Option<int>)
    requires MonthRespecting(events) && carried == Some(funds + SumOver(UpTo(month - 1), events))
    ensures RowIsRight(MonthRowFor(Some(funds), events, month, carried), funds, events, month)
  {
    OneMoreMonth(events, month);
    var income, expense := SumOver(IncomeIn(month), events), SumOver(OutIn(month), events);
    if income != 0 || expense != 0 {
      var i := SomethingInTheMonth(events, month);
      LastInIsTheMonthsEnd(Some(funds), events, month, i);
    }
  }

  lemma {:induction false} RecordsAreInTheMonths(occurrences: seq<Occurrence>, today: int, horizon: int)
    ensures forall e :: e in RecordEvents(occurrences, today, horizon) ==> today <= e.date <= horizon
  {
    if occurrences != [] {
      RecordsAreInTheMonths(occurrences[..|occurrences| - 1], today, horizon);
    }
  }

  lemma {:induction false} PlanIsInTheMonths(plan: seq<PlanRow>, months: seq<int>, today: int, records: seq<Event>)
    requires forall month :: month in months ==> Calendar.MonthOf(today) <= month
    ensures forall e :: e in PlanEvents(plan, months, today, records) ==> Calendar.MonthOf(e.date) in months
  {
    if plan != [] {
      var n := |plan| - 1;
      PlanIsInTheMonths(plan[..n], months, today, records);
      assert plan[..n + 1] == plan;
      var added := PlanOneMore(plan, n, months, today, records);
      if plan[n].month in months {
        PlanDateIsInItsMonth(plan[n].month, today);
      }
    }
  }

  lemma EventsAreInTheMonths(input: Input)
    ensures forall e :: e in Events(input) ==>
              Calendar.MonthOf(input.today) <= Calendar.MonthOf(e.date) <= Calendar.MonthOf(input.horizon)
  {
    var records := RecordEvents(input.occurrences, input.today, input.horizon);
    SortMembers(Before, Gathered(input));
    RecordsAreInTheMonths(input.occurrences, input.today, input.horizon);
    MonthsFromToday(input);
    PlanIsInTheMonths(input.plan, MonthsOf(input), input.today, records);
    forall e | e in Events(input)
      ensures Calendar.MonthOf(input.today) <= Calendar.MonthOf(e.date) <= Calendar.MonthOf(input.horizon)
    {
      Calendar.LaterMonthIsLater(input.today, e.date);
      Calendar.LaterMonthIsLater(e.date, input.horizon);
    }
  }

  /** What the rows of a forecast add up to. */
  ghost predicate Chained(rows: seq<MonthRow>, funds: int) {
    forall i :: 0 <= i < |rows| ==>
      && rows[i].closingCents.Some?
      && ClosingOf(Some(funds), rows[..i]).Some?
      && rows[i].closingCents.value ==
           ClosingOf(Some(funds), rows[..i]).value + rows[i].expectedIncomeCents - rows[i].expectedExpenseCents
  }

  lemma ForecastClosings(input: Input)
    requires input.availableFundsCents.Some?
    ensures RowsAreRight(Computed(input).months, input.availableFundsCents.value, Events(input), MonthsOf(input))
  {
    EventsAreInOrder(input);
    MonthsFollowDates(Events(input));
    EventsAreInTheMonths(input);
    ClosingsAre(input.availableFundsCents.value, Events(input), MonthsOf(input), Calendar.MonthOf(input.today));
  }

  lemma RowChains(before: Option<int>, row: MonthRow, funds: int, events: seq<Event>, month: int)
    requires RowIsRight(row, funds, events, month) && before == Some(funds + SumOver(UpTo(month - 1), events))
    ensures row.closingCents == Some(before.value + row.expectedIncomeCents - row.expectedExpenseCents)
  {
    OneMoreMonth(events, month);
  }

  lemma RowsChain(rows: seq<MonthRow>, funds: int, events: seq<Event>, months: seq<int>, first: int)
    requires RowsAreRight(rows, funds, events, months)
    requires forall i :: 0 <= i < |months| ==> months[i] == first + i
    requires SumOver(UpTo(first - 1), events) == 0
    ensures Chained(rows, funds)
  {
    forall i | 0 <= i < |rows|
      ensures rows[i].closingCents.Some? && ClosingOf(Some(funds), rows[..i]).Some?
      ensures rows[i].closingCents.value ==
              ClosingOf(Some(funds), rows[..i]).value + rows[i].expectedIncomeCents - rows[i].expectedExpenseCents
    {
      var before := ClosingOf(Some(funds), rows[..i]);
      if i > 0 {
        assert RowIsRight(rows[i - 1], funds, events, months[i - 1]);
        assert months[i - 1] == months[i] - 1;
        assert before == rows[i - 1].closingCents;
      } else {
        assert months[i] == first;
      }
      RowChains(before, rows[i], funds, events, months[i]);
    }
  }

  lemma LastRowClosesAll(rows: seq<MonthRow>, funds: int, events: seq<Event>, months: seq<int>, last: int)
    requires RowsAreRight(rows, funds, events, months)
    requires if months == [] then events == [] else months[|months| - 1] == last
    requires forall e :: e in events ==> Calendar.MonthOf(e.date) <= last
    ensures ClosingOf(Some(funds), rows) == Position(Some(funds), events)
  {
    if months != [] {
      assert RowIsRight(rows[|rows| - 1], funds, events, months[|months| - 1]);
      SumAgrees(UpTo(last), Signed, events);
    }
  }

  lemma MonthsOfEach(input: Input)
    ensures forall i :: 0 <= i < |MonthsOf(input)| ==> MonthsOf(input)[i] == Calendar.MonthOf(input.today) + i
    ensures |MonthsOf(input)| ==
            Max(0, Min(Calendar.MOST_MONTHS, Calendar.MonthOf(input.horizon) - Calendar.MonthOf(input.today) + 1))
  {
  }

  lemma MonthsComeAfterToday(input: Input) returns (first: int)
    ensures forall i :: 0 <= i < |MonthsOf(input)| ==> MonthsOf(input)[i] == first + i
    ensures SumOver(UpTo(first - 1), Events(input)) == 0
  {
    first := Calendar.MonthOf(input.today);
    MonthsCount(input, first);
    NothingMovesBefore(input, first);
  }

  lemma MonthsCount(input: Input, first: int)
    requires first == Calendar.MonthOf(input.today)
    ensures forall i :: 0 <= i < |MonthsOf(input)| ==> MonthsOf(input)[i] == first + i
  {
    MonthsOfEach(input);
  }

  lemma NothingMovesBefore(input: Input, first: int)
    requires first == Calendar.MonthOf(input.today)
    ensures SumOver(UpTo(first - 1), Events(input)) == 0
  {
    EventsAreInTheMonths(input);
    SumOfNought(UpTo(first - 1), Events(input));
  }

  /** Each month closes where the one before it did, plus what it takes in, less
      what it pays out; the first starts from the available funds and a quiet
      month carries. */
  lemma MonthsChain(input: Input)
    requires input.availableFundsCents.Some?
    ensures Chained(Computed(input).months, input.availableFundsCents.value)
  {
    var first := MonthsComeAfterToday(input);
    ForecastClosings(input);
    RowsChain(Computed(input).months, input.availableFundsCents.value, Events(input), MonthsOf(input), first);
  }

  function Beyond(month: int): Event -> int {
    (e: Event) => if Calendar.MonthOf(e.date) <= month then 0 else Signed(e)
  }

  lemma {:induction false} UpToAndBeyond(events: seq<Event>, month: int)
    ensures SumOver(Signed, events) == SumOver(UpTo(month), events) + SumOver(Beyond(month), events)
  {
    if events != [] {
      UpToAndBeyond(events[..|events| - 1], month);
    }
  }

  /** The last month listed closes where the forecast does but for what moves
      after it: there are never more than six hundred months, however far the
      horizon. */
  lemma OnlyWhatIsBeyondIsMissing(input: Input)
    requires input.availableFundsCents.Some? && MonthsOf(input) != []
    ensures var listed := ClosingOf(input.availableFundsCents, Computed(input).months);
      var last := MonthsOf(input)[|MonthsOf(input)| - 1];
      && listed.Some? && Computed(input).closingCents.Some?
      && Computed(input).closingCents.value == listed.value + SumOver(Beyond(last), Events(input))
  {
    var months, events := MonthsOf(input), Events(input);
    ForecastClosings(input);
    LastRowIs(Computed(input).months, input.availableFundsCents.value, events, months);
    UpToAndBeyond(events, months[|months| - 1]);
  }

  lemma LastRowIs(rows: seq<MonthRow>, funds: int, events: seq<Event>, months: seq<int>)
    requires RowsAreRight(rows, funds, events, months) && months != []
    ensures ClosingOf(Some(funds), rows) == Some(funds + SumOver(UpTo(months[|months| - 1]), events))
  {
    assert RowIsRight(rows[|rows| - 1], funds, events, months[|months| - 1]);
  }

  lemma LastOfForecast(input: Input) returns (last: int)
    requires Calendar.MonthOf(input.horizon) - Calendar.MonthOf(input.today) < Calendar.MOST_MONTHS
    ensures if MonthsOf(input) == [] then Events(input) == [] else MonthsOf(input)[|MonthsOf(input)| - 1] == last
    ensures forall e :: e in Events(input) ==> Calendar.MonthOf(e.date) <= last
  {
    last := Calendar.MonthOf(input.horizon);
    MonthsOfEach(input);
    EventsAreInTheMonths(input);
    assert Events(input) != [] ==> Events(input)[0] in Events(input);
  }

  /** The last month closes where the forecast does, provided the months, of
      which there are never more than six hundred, reach the horizon. */
  lemma LastMonthClosesTheForecast(input: Input)
    requires input.availableFundsCents.Some?
    requires Calendar.MonthOf(input.horizon) - Calendar.MonthOf(input.today) < Calendar.MOST_MONTHS
    ensures ClosingOf(input.availableFundsCents, Computed(input).months) == Computed(input).closingCents
  {
    var last := LastOfForecast(input);
    ForecastClosings(input);
    LastRowClosesAll(Computed(input).months, input.availableFundsCents.value, Events(input), MonthsOf(input), last);
  }

  // ------------------------------------------------------- unknown funds

  lemma {:induction false} BalancesKeepEvents(funds: Option<int>, events: seq<Event>)
    ensures |WithBalances(funds, events)| == |events|
    ensures forall i :: 0 <= i < |events| ==> WithBalances(funds, events)[i].event == events[i]
    ensures funds.None? ==> forall i :: 0 <= i < |events| ==> WithBalances(funds, events)[i].balanceCents.None?
  {
    if events != [] {
      BalancesKeepEvents(funds, events[..|events| - 1]);
    }
  }

  lemma {:induction false} LastInUnknown(events: seq<Event>, month: int)
    ensures LastIn(None, events, month).None?
  {
    if events != [] {
      LastInUnknown(events[..|events| - 1], month);
    }
  }

  lemma {:induction false} RowsKeepFlows(funds: Option<int>, events: seq<Event>, months: seq<int>)
    ensures var rows := MonthRows(funds, events, months);
      && |rows| == |months|
      && (forall i :: 0 <= i < |months| ==>
            && rows[i].month == months[i]
            && rows[i].expectedIncomeCents == SumOver(IncomeIn(months[i]), events)
            && rows[i].expectedExpenseCents == SumOver(OutIn(months[i]), events)
            && (funds.None? ==> rows[i].closingCents.None?))
  {
    if months != [] {
      var n := |months| - 1;
      RowsKeepFlows(funds, events, months[..n]);
      LastInUnknown(events, months[n]);
    }
  }

  /** Not knowing the funds takes away every position and nothing else. */
  lemma UnknownFundsKeepTheRest(known: Input)
    ensures var a, b := Computed(known), Computed(known.(availableFundsCents := None));
      && b.lowest.None? && b.closingCents.None?
      && |b.events| == |a.events|
      && (forall i :: 0 <= i < |a.events| ==> b.events[i] == DatedEvent(a.events[i].event, None))
      && |b.months| == |a.months|
      && (forall i :: 0 <= i < |a.months| ==> b.months[i] == a.months[i].(closingCents := None))
  {
    var unknown := known.(availableFundsCents := None);
    assert Gathered(unknown) == Gathered(known) && MonthsOf(unknown) == MonthsOf(known);
    BalancesKeepEvents(known.availableFundsCents, Events(known));
    BalancesKeepEvents(None, Events(known));
    RowsKeepFlows(known.availableFundsCents, Events(known), MonthsOf(known));
    RowsKeepFlows(None, Events(known), MonthsOf(known));
  }

  // ----------------------------------------- one more expense never helps

  lemma UpToPlanEvent(row: PlanRow, uncovered: int, today: int, month: int)
    requires Calendar.MonthOf(today) <= row.month
    ensures UpTo(month)(PlanEvent(row, uncovered, today)) == if row.month <= month then -uncovered else 0
  {
    PlanDateIsInItsMonth(row.month, today);
  }

  /** The cents by which an event may take the place of a plan row. */
  function Stands(e: Event, row: PlanRow): int {
    ExpenseIn(row.month, row.categoryName)(e)
  }

  lemma UncoveredFallsByAtMost(row: PlanRow, months: seq<int>, currentMonth: int, records: seq<Event>, e: Event)
    requires e.amountCents >= 0
    ensures Uncovered(row, months, currentMonth, records + [e]) >= Uncovered(row, months, currentMonth, records) - Stands(e, row)
  {
    OneMoreSum(ExpenseIn(row.month, row.categoryName), records, e);
  }

  /** What the whole plan could give way by, up to a month. */
  function GivesWay(plan: seq<PlanRow>, e: Event, month: int): int {
    if plan == [] then 0
    else
      var n := |plan| - 1;
      GivesWay(plan[..n], e, month) + if plan[n].month <= month then Stands(e, plan[n]) else 0
  }

  lemma {:induction false} PlanGivesWay(plan: seq<PlanRow>, months: seq<int>, today: int, records: seq<Event>, e: Event, month: int)
    requires e.amountCents >= 0 && forall m :: m in months ==> Calendar.MonthOf(today) <= m
    ensures SumOver(UpTo(month), PlanEvents(plan, months, today, records + [e]))
            <= SumOver(UpTo(month), PlanEvents(plan, months, today, records)) + GivesWay(plan, e, month)
  {
    if plan != [] {
      var n := |plan| - 1;
      PlanGivesWay(plan[..n], months, today, records, e, month);
      var was := LastPlanRow(UpTo(month), plan, months, today, records);
      var left := LastPlanRow(UpTo(month), plan, months, today, records + [e]);
      UncoveredFallsByAtMost(plan[n], months, Calendar.MonthOf(today), records, e);
      if plan[n].month in months {
        UpToPlanEvent(plan[n], was, today, month);
        UpToPlanEvent(plan[n], left, today, month);
      }
    }
  }

  lemma {:induction false} NothingGivesWay(plan: seq<PlanRow>, e: Event, month: int)
    requires forall row :: row in plan ==> Stands(e, row) == 0
    ensures GivesWay(plan, e, month) == 0
  {
    if plan != [] {
      NothingGivesWay(plan[..|plan| - 1], e, month);
    }
  }

  /** At most one row gives way to an event, and only in the event's own month. */
  lemma {:induction false} OnlyOneGivesWay(plan: seq<PlanRow>, e: Event, month: int)
    requires OneRowEach(plan) && e.kind.Expense? && e.amountCents >= 0
    ensures GivesWay(plan, e, month) <= if Calendar.MonthOf(e.date) <= month then e.amountCents else 0
  {
    if plan != [] {
      var n := |plan| - 1;
      var before, row := plan[..n], plan[n];
      if Stands(e, row) != 0 {
        forall other | other in before ensures Stands(e, other) == 0 {
          var i :| 0 <= i < n && plan[i] == other;
        }
        NothingGivesWay(before, e, month);
      } else {
        OnlyOneGivesWay(before, e, month);
      }
    }
  }

  lemma PositionFalls(input: Input, more: Input, one: Occurrence, month: int)
    requires OneRowEach(input.plan) && one.kind.Expense? && one.amountCents >= 0
    requires more == input.(occurrences := input.occurrences + [one])
    ensures SumOver(UpTo(month), Events(more)) <= SumOver(UpTo(month), Events(input))
  {
    var f := UpTo(month);
    var records := RecordEvents(input.occurrences, input.today, input.horizon);
    assert more.occurrences[..|input.occurrences|] == input.occurrences;
    SumPermutes(f, Events(input), Gathered(input));
    SumPermutes(f, Events(more), Gathered(more));
    if IsForecast(one, input.today, input.horizon) {
      GatheredFalls(input, records, RecordEvent(one, input.today), month);
    } else {
      assert records + [] == records;
    }
  }

  lemma GatheredFalls(input: Input, records: seq<Event>, e: Event, month: int)
    requires OneRowEach(input.plan) && e.kind.Expense? && e.amountCents >= 0
    ensures SumOver(UpTo(month), records + [e] + PlanEvents(input.plan, MonthsOf(input), input.today, records + [e]))
            <= SumOver(UpTo(month), records + PlanEvents(input.plan, MonthsOf(input), input.today, records))
  {
    var f := UpTo(month);
    SumConcat(f, records, PlanEvents(input.plan, MonthsOf(input), input.today, records));
    SumConcat(f, records + [e], PlanEvents(input.plan, MonthsOf(input), input.today, records + [e]));
    OneMoreSum(f, records, e);
    MonthsFromToday(input);
    PlanGivesWay(input.plan, MonthsOf(input), input.today, records, e, month);
    OnlyOneGivesWay(input.plan, e, month);
  }

  /** One more expected expense never makes a month close higher, whatever part
      of a plan it takes the place of. */
  lemma MoreExpenseNeverHelps(input: Input, more: Input, one: Occurrence)
    requires input.availableFundsCents.Some? && OneRowEach(input.plan)
    requires one.kind.Expense? && one.amountCents >= 0
    requires more == input.(occurrences := input.occurrences + [one])
    ensures |Computed(more).months| == |Computed(input).months|
    ensures forall i :: 0 <= i < |Computed(input).months| ==>
              && Computed(more).months[i].closingCents.Some? && Computed(input).months[i].closingCents.Some?
              && Computed(more).months[i].closingCents.value <= Computed(input).months[i].closingCents.value
  {
    var months, funds := MonthsOf(input), input.availableFundsCents.value;
    ForecastClosings(input);
    ForecastClosings(more);
    forall i | 0 <= i < |months|
      ensures RowIsRight(Computed(input).months[i], funds, Events(input), months[i])
      ensures RowIsRight(Computed(more).months[i], funds, Events(more), months[i])
      ensures SumOver(UpTo(months[i]), Events(more)) <= SumOver(UpTo(months[i]), Events(input))
    {
      PositionFalls(input, more, one, months[i]);
    }
  }
}
