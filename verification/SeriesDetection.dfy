/** Which histories may be offered as an expectation, and what a pass of offers
    does to the plan (ayq-series.ts, and ayq-plan.ts's use of it). Days are day
    numbers. */
module SeriesDetection {
  import opened Lists
  import opened Recurrence

  /** What the detector is given of one payment; outgoings are negative. */
  datatype Payment = Payment(counterpartyKey: string, name: string, date: int, amountCents: int, mandateId: Option<string>)

  datatype Key = Key(counterpartyKey: string, amountCents: int)

  datatype Window = Window(frequency: Frequency, least: int, most: int)

  datatype Series = Series(
    counterpartyKey: string,
    name: string,
    amountCents: int,
    frequency: Frequency,
    occurrences: nat,
    firstDate: int,
    lastDate: int,
    nextExpectedDate: int,
    mandateId: Option<string>)

  const WINDOWS: seq<Window> := [
    Window(Weekly, 5, 9), Window(Fortnightly, 12, 17), Window(Monthly, 24, 38),
    Window(Quarterly, 80, 100), Window(HalfYearly, 170, 195), Window(Yearly, 350, 380)]

  const MINIMUM_OCCURRENCES: nat := 3

  // ------------------------------------------------------- one group

  function Sooner(one: Payment, other: Payment): bool {
    one.date < other.date
  }

  function Less(one: int, other: int): bool {
    one < other
  }

  function Intervals(sorted: seq<Payment>): (r: seq<int>)
    requires sorted != []
  {
    seq(|sorted| - 1, i requires 0 <= i < |sorted| - 1 => sorted[i + 1].date - sorted[i].date)
  }

  predicate AllWithin(intervals: seq<int>, window: Window) {
    forall i :: 0 <= i < |intervals| ==> window.least <= intervals[i] <= window.most
  }

  function FirstFit(windows: seq<Window>, intervals: seq<int>): (fit: Option<Window>)
    ensures fit.Some? ==> fit.value in windows && AllWithin(intervals, fit.value)
    ensures fit.None? ==> forall window :: window in windows ==> !AllWithin(intervals, window)

  {
    if windows == [] then None
    else if AllWithin(intervals, windows[0]) then Some(windows[0])
    else FirstFit(windows[1..], intervals)
  }

  /** `Math.round` takes a half upwards. */
  function Median(values: seq<int>): int
    requires values != []
  {
    var sorted := Sort(Less, values);
    var middle := |sorted| / 2;
    if |sorted| % 2 == 0 then (sorted[middle - 1] + sorted[middle] + 1) / 2 else sorted[middle]
  }

  function FirstMandate(sorted: seq<Payment>): Option<string> {
    if sorted == [] then None
    else if sorted[0].mandateId.Some? then sorted[0].mandateId
    else FirstMandate(sorted[1..])
  }

  function Described(sorted: seq<Payment>, window: Window): Series
    requires |sorted| >= 2
  {
    var last := sorted[|sorted| - 1];
    Series(last.counterpartyKey, last.name, if last.amountCents < 0 then -last.amountCents else last.amountCents,
           window.frequency, |sorted|, sorted[0].date, last.date, last.date + Median(Intervals(sorted)), FirstMandate(sorted))
  }

  function SeriesFrom(sorted: seq<Payment>): Option<Series>
    requires |sorted| >= MINIMUM_OCCURRENCES
  {
    var window := FirstFit(WINDOWS, Intervals(sorted));
    if window.None? then None else Some(Described(sorted, window.value))
  }

  function SeriesOf(group: seq<Payment>): Option<Series> {
    if |group| < MINIMUM_OCCURRENCES then None else SeriesFrom(Sort(Sooner, group))
  }

  // ------------------------------------------------------- all of them

  function KeyOf(payment: Payment): Key {
    Key(payment.counterpartyKey, payment.amountCents)
  }

  predicate Belongs(payment: Payment, key: Key) {
    payment.amountCents < 0 && KeyOf(payment) == key
  }

  function In(key: Key): Payment -> bool {
    (payment: Payment) => Belongs(payment, key)
  }

  function Group(payments: seq<Payment>, key: Key): seq<Payment> {
    Filter(In(key), payments)
  }

  /** The groups, in the order their first payment comes. */
  function KeysOf(payments: seq<Payment>): (keys: seq<Key>)
    ensures forall i, j :: 0 <= i < j < |keys| ==> keys[i] != keys[j]
  {
    if payments == [] then []
    else
      var last := payments[|payments| - 1];
      var earlier := KeysOf(payments[..|payments| - 1]);
      if last.amountCents >= 0 || KeyOf(last) in earlier then earlier else earlier + [KeyOf(last)]
  }

  function Gathered(keys: seq<Key>, payments: seq<Payment>): seq<Series> {
    if keys == [] then []
    else
      var series := SeriesOf(Group(payments, keys[|keys| - 1]));
      Gathered(keys[..|keys| - 1], payments) + if series.Some? then [series.value] else []
  }

  /** Listed before: seen later, or as late and more often. */
  function Fresher(one: Series, other: Series): bool {
    if one.lastDate != other.lastDate then other.lastDate < one.lastDate else other.occurrences < one.occurrences
  }

  function Detected(payments: seq<Payment>): seq<Series> {
    Sort(Fresher, Gathered(KeysOf(payments), payments))
  }

  method IntervalsBetween(sorted: seq<Payment>) returns (intervals: seq<int>)
    requires sorted != []
    ensures intervals == Intervals(sorted)
  {
    intervals := [];
    for at := 1 to |sorted|
      invariant |intervals| == at - 1
      invariant forall i :: 0 <= i < at - 1 ==> intervals[i] == sorted[i + 1].date - sorted[i].date
    {
      intervals := intervals + [sorted[at].date - sorted[at - 1].date];
    }
  }

  method GroupPayments(payments: seq<Payment>) returns (order: seq<Key>, groups: map<Key, seq<Payment>>)
    ensures order == KeysOf(payments)
    ensures forall key :: key in groups <==> key in order
    ensures forall key :: key in groups ==> groups[key] == Group(payments, key)
  {
    order, groups := [], map[];
    for i := 0 to |payments|
      invariant order == KeysOf(payments[..i])
      invariant forall key :: key in groups <==> key in order
      invariant forall key :: key in groups ==> groups[key] == Group(payments[..i], key)
    {
      var one := payments[i];
      assert payments[..i + 1][..i] == payments[..i] && payments[..i + 1][i] == one;
      forall key ensures Group(payments[..i + 1], key) == Group(payments[..i], key) + if Belongs(one, key) then [one] else [] {
        FilterSnoc(In(key), payments, i);
      }
      if one.amountCents < 0 {
        var key := KeyOf(one);
        if key in groups {
          groups := groups[key := groups[key] + [one]];
        } else {
          KeysAreOfGroups(payments[..i], key);
          order, groups := order + [key], groups[key := [one]];
        }
      }
    }
    assert payments[..|payments|] == payments;
  }

  lemma {:induction false} KeysAreOfGroups(payments: seq<Payment>, key: Key)
    ensures key in KeysOf(payments) <==> Group(payments, key) != []
  {
    if payments != [] {
      var n := |payments| - 1;
      KeysAreOfGroups(payments[..n], key);
      FilterSnoc(In(key), payments, n);
      assert payments[..n + 1] == payments;
    }
  }

  /** What the detector makes of one group. */
  method DetectOne(group: seq<Payment>) returns (found: Option<Series>)
    ensures found == SeriesOf(group)
  {
    if |group| < MINIMUM_OCCURRENCES { return None; }
    var sorted := Sort(Sooner, group);
    var intervals := IntervalsBetween(sorted);
    var window := FirstFit(WINDOWS, intervals);
    if window.None? { return None; }
    var last := sorted[|sorted| - 1];
    found := Some(Series(
      last.counterpartyKey, last.name, if last.amountCents < 0 then -last.amountCents else last.amountCents,
      window.value.frequency, |sorted|, sorted[0].date, last.date, last.date + Median(intervals), FirstMandate(sorted)));
  }

  method DetectSeries(payments: seq<Payment>) returns (found: seq<Series>)
    ensures found == Detected(payments)
  {
    var order, groups := GroupPayments(payments);
    found := [];
    for i := 0 to |order|
      invariant found == Gathered(order[..i], payments)
    {
      assert order[..i + 1][..i] == order[..i] && order[i] in order;
      var one := DetectOne(groups[order[i]]);
      if one.Some? {
        found := found + [one.value];
      }
    }
    assert order[..|order|] == order;
    found := Sort(Fresher, found);
  }

  // ------------------------------------------------------- exact and local

  lemma SortedGroup(payments: seq<Payment>, key: Key)
    ensures forall payment :: payment in Sort(Sooner, Group(payments, key)) <==> payment in payments && Belongs(payment, key)
    ensures InDateOrder(Sort(Sooner, Group(payments, key)))
  {
    SortMembers(Sooner, Group(payments, key));
    SortedInDateOrder(Group(payments, key));
  }

  ghost predicate InDateOrder(sorted: seq<Payment>) {
    forall i, j :: 0 <= i < j < |sorted| ==> sorted[i].date <= sorted[j].date
  }

  lemma SortedInDateOrder(group: seq<Payment>)
    ensures InDateOrder(Sort(Sooner, group))
  {
    var sorted := Sort(Sooner, group);
    SortIsOrdered(Sooner, group);
    forall i, j | 0 <= i < j < |sorted| ensures sorted[i].date <= sorted[j].date {
      assert !Sooner(sorted[j], sorted[i]);
    }
  }

  lemma Spans(sorted: seq<Payment>, payment: Payment)
    requires InDateOrder(sorted) && payment in sorted
    ensures sorted[0].date <= payment.date <= sorted[|sorted| - 1].date
  {
    var i :| 0 <= i < |sorted| && sorted[i] == payment;
  }

  lemma SeriesHasItsKey(payments: seq<Payment>, key: Key)
    ensures var series := SeriesOf(Group(payments, key));
      series.Some? ==> key.amountCents < 0 && key in KeysOf(payments)
                       && key == Key(series.value.counterpartyKey, -series.value.amountCents)
  {
    var group := Group(payments, key);
    if SeriesOf(group).Some? {
      KeysAreOfGroups(payments, key);
      SortMembers(Sooner, group);
      var sorted := Sort(Sooner, group);
      assert sorted[|sorted| - 1] in sorted;
      FromNamesItsLast(sorted);
    }
  }

  lemma FromNamesItsLast(sorted: seq<Payment>)
    requires |sorted| >= MINIMUM_OCCURRENCES && SeriesFrom(sorted).Some?
    ensures var series, last := SeriesFrom(sorted).value, sorted[|sorted| - 1];
      series.counterpartyKey == last.counterpartyKey && (last.amountCents < 0 ==> series.amountCents == -last.amountCents)
  {
  }

  lemma {:induction false} GatheredMembers(keys: seq<Key>, payments: seq<Payment>, series: Series)
    ensures series in Gathered(keys, payments)
            <==> Key(series.counterpartyKey, -series.amountCents) in keys
                 && SeriesOf(Group(payments, Key(series.counterpartyKey, -series.amountCents))) == Some(series)
  {
    if keys != [] {
      GatheredMembers(keys[..|keys| - 1], payments, series);
      SeriesHasItsKey(payments, keys[|keys| - 1]);
    }
  }

  /** A series is detected exactly when the payments of its own counterparty and
      amount alone make it: nothing else in the history has any say. */
  lemma DetectedIsLocal(payments: seq<Payment>, series: Series)
    ensures series in Detected(payments)
            <==> SeriesOf(Group(payments, Key(series.counterpartyKey, -series.amountCents))) == Some(series)
  {
    SortMembers(Fresher, Gathered(KeysOf(payments), payments));
    GatheredMembers(KeysOf(payments), payments, series);
    SeriesHasItsKey(payments, Key(series.counterpartyKey, -series.amountCents));
  }

  lemma FromItsKey(payments: seq<Payment>, key: Key, series: Series)
    requires key == Key(series.counterpartyKey, -series.amountCents)
    ensures series in Detected(payments) <==> SeriesOf(Group(payments, key)) == Some(series)
  {
    DetectedIsLocal(payments, series);
  }

  lemma {:induction false} NoneBelong(payments: seq<Payment>, key: Key)
    requires forall payment :: payment in payments ==> KeyOf(payment) != key
    ensures Group(payments, key) == []
  {
    if payments != [] {
      assert payments[0] in payments;
      NoneBelong(payments[1..], key);
    }
  }

  /** Payments of another counterparty or amount cannot change a series. */
  lemma OthersDoNotMatter(before: seq<Payment>, others: seq<Payment>, after: seq<Payment>, series: Series)
    requires forall payment :: payment in others ==> KeyOf(payment) != Key(series.counterpartyKey, -series.amountCents)
    ensures series in Detected(before + others + after) <==> series in Detected(before + after)
  {
    var key := Key(series.counterpartyKey, -series.amountCents);
    FromItsKey(before + others + after, key, series);
    FromItsKey(before + after, key, series);
    FilterConcat(In(key), before + others, after);
    FilterConcat(In(key), before, others);
    FilterConcat(In(key), before, after);
    NoneBelong(others, key);
    assert Group(before, key) + [] == Group(before, key);
  }

  lemma {:induction false} OneSeriesEach(keys: seq<Key>, payments: seq<Payment>, series: Series)
    requires forall i, j :: 0 <= i < j < |keys| ==> keys[i] != keys[j]
    ensures multiset(Gathered(keys, payments))[series] <= 1
  {
    if keys != [] {
      OneSeriesEach(keys[..|keys| - 1], payments, series);
      GatheredMembers(keys[..|keys| - 1], payments, series);
      SeriesHasItsKey(payments, keys[|keys| - 1]);
    }
  }

  /** One series a counterparty and exact amount. */
  lemma OneSeriesPerAmount(payments: seq<Payment>, one: Series, other: Series)
    requires one in Detected(payments) && other in Detected(payments)
    requires one.counterpartyKey == other.counterpartyKey && one.amountCents == other.amountCents
    ensures one == other
  {
    var key := Key(one.counterpartyKey, -one.amountCents);
    FromItsKey(payments, key, one);
    FromItsKey(payments, key, other);
  }

  /** And it is listed once. */
  lemma EachIsListedOnce(payments: seq<Payment>, series: Series)
    ensures multiset(Detected(payments))[series] == if series in Detected(payments) then 1 else 0
  {
    var gathered := Gathered(KeysOf(payments), payments);
    OneSeriesEach(KeysOf(payments), payments, series);
    var listed := Sort(Fresher, gathered);
    assert series in listed <==> series in multiset(listed);
  }

  /** No interval is in two windows. */
  lemma WindowsAreApart(interval: int, one: Window, other: Window)
    requires one in WINDOWS && other in WINDOWS
    requires one.least <= interval <= one.most && other.least <= interval <= other.most
    ensures one == other
  {
    var i :| 0 <= i < |WINDOWS| && WINDOWS[i] == one;
    var j :| 0 <= j < |WINDOWS| && WINDOWS[j] == other;
  }

  lemma MedianIsWithin(values: seq<int>, least: int, most: int)
    requires values != [] && forall i :: 0 <= i < |values| ==> least <= values[i] <= most
    ensures least <= Median(values) <= most
  {
    var sorted := Sort(Less, values);
    SortMembers(Less, values);
    forall i | 0 <= i < |sorted| ensures least <= sorted[i] <= most {
      assert sorted[i] in values;
    }
  }

  function Below(value: int): int -> int {
    (x: int) => if x < value then 1 else 0
  }

  function UpTo(value: int): int -> int {
    (x: int) => if x <= value then 1 else 0
  }

  /** No more than so many of the values are less, and more than so many are not
      greater: sorted, that is the value at that place. */
  ghost predicate HasRank(values: seq<int>, k: int, value: int) {
    SumOver(Below(value), values) <= k < SumOver(UpTo(value), values)
  }

  lemma {:induction false} NoneIsBelow(value: int, values: seq<int>)
    requires forall i :: 0 <= i < |values| ==> value <= values[i]
    ensures SumOver(Below(value), values) == 0
  {
    if values != [] {
      NoneIsBelow(value, values[..|values| - 1]);
    }
  }

  lemma {:induction false} AllAreUpTo(value: int, values: seq<int>)
    requires forall i :: 0 <= i < |values| ==> values[i] <= value
    ensures SumOver(UpTo(value), values) == |values|
  {
    if values != [] {
      AllAreUpTo(value, values[..|values| - 1]);
    }
  }

  lemma {:induction false} CountedAtMost(value: int, values: seq<int>)
    ensures 0 <= SumOver(Below(value), values) <= |values| && 0 <= SumOver(UpTo(value), values)
  {
    if values != [] {
      CountedAtMost(value, values[..|values| - 1]);
    }
  }

  ghost predicate Rising(sorted: seq<int>) {
    forall i, j :: 0 <= i < j < |sorted| ==> sorted[i] <= sorted[j]
  }

  lemma FewAreBelow(sorted: seq<int>, k: nat)
    requires k < |sorted| && Rising(sorted)
    ensures SumOver(Below(sorted[k]), sorted) <= k
  {
    assert sorted == sorted[..k] + sorted[k..];
    SumConcat(Below(sorted[k]), sorted[..k], sorted[k..]);
    NoneIsBelow(sorted[k], sorted[k..]);
    CountedAtMost(sorted[k], sorted[..k]);
  }

  lemma ManyAreUpTo(sorted: seq<int>, k: nat)
    requires k < |sorted| && Rising(sorted)
    ensures k < SumOver(UpTo(sorted[k]), sorted)
  {
    assert sorted == sorted[..k + 1] + sorted[k + 1..];
    SumConcat(UpTo(sorted[k]), sorted[..k + 1], sorted[k + 1..]);
    AllAreUpTo(sorted[k], sorted[..k + 1]);
    CountedAtMost(sorted[k], sorted[k + 1..]);
  }

  lemma SortedHasRank(values: seq<int>, sorted: seq<int>, k: nat)
    requires sorted == Sort(Less, values) && k < |sorted|
    ensures HasRank(values, k, sorted[k])
  {
    SortIsOrdered(Less, values);
    forall i, j | 0 <= i < j < |sorted| ensures sorted[i] <= sorted[j] {
      assert !Less(sorted[j], sorted[i]);
    }
    FewAreBelow(sorted, k);
    ManyAreUpTo(sorted, k);
    SumPermutes(Below(sorted[k]), values, sorted);
    SumPermutes(UpTo(sorted[k]), values, sorted);
  }

  /** One value only has a rank. */
  lemma RankIsUnique(values: seq<int>, k: int, one: int, other: int)
    requires HasRank(values, k, one) && HasRank(values, k, other)
    ensures one == other
  {
    if one < other {
      SumBounded(UpTo(one), Below(other), values);
    } else if other < one {
      SumBounded(UpTo(other), Below(one), values);
    }
  }

  /** The median is the middle value, or halfway between the two, a half rounded
      up: ranks do not look at the order of the values. */
  lemma MedianIsTheMiddle(values: seq<int>) returns (lower: int, upper: int)
    requires values != []
    ensures HasRank(values, (|values| - 1) / 2, lower) && HasRank(values, |values| / 2, upper)
    ensures Median(values) == if |values| % 2 == 1 then lower else (lower + upper + 1) / 2
  {
    var sorted := Sort(Less, values);
    SortedHasRank(values, sorted, (|values| - 1) / 2);
    SortedHasRank(values, sorted, |values| / 2);
    lower, upper := sorted[(|values| - 1) / 2], sorted[|values| / 2];
  }

  lemma MedianOfAnyOrder(a: seq<int>, b: seq<int>)
    requires a != [] && multiset(a) == multiset(b)
    ensures b != [] && Median(a) == Median(b)
  {
    assert |a| == |multiset(a)| && |b| == |multiset(b)|;
    var la, ua := MedianIsTheMiddle(a);
    var lb, ub := MedianIsTheMiddle(b);
    RanksPermute(a, b, (|a| - 1) / 2, lb);
    RanksPermute(a, b, |a| / 2, ub);
    RankIsUnique(a, (|a| - 1) / 2, la, lb);
    RankIsUnique(a, |a| / 2, ua, ub);
  }

  lemma RanksPermute(a: seq<int>, b: seq<int>, k: int, value: int)
    requires multiset(a) == multiset(b) && HasRank(b, k, value)
    ensures HasRank(a, k, value)
  {
    SumPermutes(Below(value), a, b);
    SumPermutes(UpTo(value), a, b);
  }

  /** What makes payments a rhythm: every consecutive pair of them the right
      number of days apart for one cadence. */
  ghost predicate Keeps(sorted: seq<Payment>, window: Window) {
    forall i :: 0 <= i < |sorted| - 1 ==> window.least <= sorted[i + 1].date - sorted[i].date <= window.most
  }

  lemma KeepsIsAllWithin(sorted: seq<Payment>, window: Window)
    requires sorted != []
    ensures AllWithin(Intervals(sorted), window) <==> Keeps(sorted, window)
  {
    var intervals := Intervals(sorted);
    forall i | 0 <= i < |sorted| - 1 && AllWithin(intervals, window)
      ensures window.least <= sorted[i + 1].date - sorted[i].date <= window.most
    {
      assert intervals[i] == sorted[i + 1].date - sorted[i].date;
    }
  }

  /** Three payments or more, and one window for every interval between them. */
  ghost predicate IsRhythm(sorted: seq<Payment>) {
    |sorted| >= MINIMUM_OCCURRENCES && exists window :: window in WINDOWS && Keeps(sorted, window)
  }

  lemma FromRhythm(sorted: seq<Payment>)
    requires |sorted| >= MINIMUM_OCCURRENCES
    ensures SeriesFrom(sorted).Some? <==> IsRhythm(sorted)
  {
    var fit := FirstFit(WINDOWS, Intervals(sorted));
    if fit.Some? {
      KeepsIsAllWithin(sorted, fit.value);
    } else {
      forall window | window in WINDOWS ensures !Keeps(sorted, window) {
        KeepsIsAllWithin(sorted, window);
      }
    }
  }

  lemma GroupIsRhythm(group: seq<Payment>)
    ensures SeriesOf(group).Some? <==> IsRhythm(Sort(Sooner, group))
  {
    if |group| >= MINIMUM_OCCURRENCES {
      FromRhythm(Sort(Sooner, group));
    }
  }

  /** A counterparty's payments of one amount are a series exactly when there are
      three of them or more and one window holds every interval between them. */
  lemma DetectedExactly(payments: seq<Payment>, key: Key)
    ensures (exists series :: series in Detected(payments) && key == Key(series.counterpartyKey, -series.amountCents))
            <==> IsRhythm(Sort(Sooner, Group(payments, key)))
  {
    SeriesHasItsKey(payments, key);
    GroupIsRhythm(Group(payments, key));
    var found := SeriesOf(Group(payments, key));
    if found.Some? {
      FromItsKey(payments, key, found.value);
    }
    forall series | series in Detected(payments) && key == Key(series.counterpartyKey, -series.amountCents) ensures found.Some? {
      FromItsKey(payments, key, series);
    }
  }

  /** The series that sorted payments make, told of the payments themselves. */
  ghost predicate Tells(series: Series, sorted: seq<Payment>, window: Window) {
    && |sorted| == series.occurrences >= MINIMUM_OCCURRENCES
    && window in WINDOWS && window.frequency == series.frequency && Keeps(sorted, window)
    && series.firstDate == sorted[0].date && series.lastDate == sorted[|sorted| - 1].date
    && series.nextExpectedDate - series.lastDate == Median(Intervals(sorted))
    && window.least <= series.nextExpectedDate - series.lastDate <= window.most
  }

  lemma FromTells(sorted: seq<Payment>) returns (window: Window)
    requires |sorted| >= MINIMUM_OCCURRENCES && SeriesFrom(sorted).Some?
    ensures Tells(SeriesFrom(sorted).value, sorted, window)
  {
    var intervals := Intervals(sorted);
    window := FirstFit(WINDOWS, intervals).value;
    KeepsIsAllWithin(sorted, window);
    MedianIsWithin(intervals, window.least, window.most);
  }

  lemma GroupTells(group: seq<Payment>, series: Series) returns (window: Window)
    requires SeriesOf(group) == Some(series)
    ensures Tells(series, Sort(Sooner, group), window)
  {
    window := FromTells(Sort(Sooner, group));
  }

  /** What a detected series says of its payments: every interval is in the window
      of its cadence, and the next date is the median of them on, and so within it. */
  lemma DetectedIsExact(payments: seq<Payment>, key: Key, series: Series) returns (window: Window)
    requires series in Detected(payments) && key == Key(series.counterpartyKey, -series.amountCents)
    ensures Tells(series, Sort(Sooner, Group(payments, key)), window)
  {
    FromItsKey(payments, key, series);
    window := GroupTells(Group(payments, key), series);
  }

  /** No payment of the series is outside its first and last dates. */
  lemma DetectedSpansAll(payments: seq<Payment>, key: Key, series: Series, payment: Payment)
    requires series in Detected(payments) && key == Key(series.counterpartyKey, -series.amountCents)
    requires payment in payments && Belongs(payment, key)
    ensures series.firstDate <= payment.date <= series.lastDate
  {
    var window := DetectedIsExact(payments, key, series);
    SortedGroup(payments, key);
    Spans(Sort(Sooner, Group(payments, key)), payment);
  }

  /** The cadence of a series is the only one any of its intervals could have. */
  lemma CadenceIsUnique(series: Series, sorted: seq<Payment>, window: Window, other: Window, i: nat)
    requires Tells(series, sorted, window) && other in WINDOWS && i < |sorted| - 1
    requires other.least <= sorted[i + 1].date - sorted[i].date <= other.most
    ensures other == window
  {
    WindowsAreApart(sorted[i + 1].date - sorted[i].date, other, window);
  }

  // ---------------------------------------- the order payments are read in

  lemma FirstIsFirst(a: seq<Payment>, b: seq<Payment>)
    requires a != [] && b != [] && a[0] in b && b[0] in a
    requires forall i, j :: 0 <= i < j < |a| ==> a[i].date < a[j].date
    requires InDateOrder(b)
    ensures a[0] == b[0]
  {
    var m :| 0 <= m < |b| && b[m] == a[0];
    var k :| 0 <= k < |a| && a[k] == b[0];
  }

  lemma RestOf(s: seq<Payment>)
    requires s != []
    ensures multiset(s[1..]) == multiset(s) - multiset{s[0]}
  {
    assert s == [s[0]] + s[1..];
  }

  lemma {:induction false} StrictOrderIsUnique(a: seq<Payment>, b: seq<Payment>)
    requires multiset(a) == multiset(b)
    requires forall i, j :: 0 <= i < j < |a| ==> a[i].date < a[j].date
    requires InDateOrder(b)
    ensures a == b
  {
    assert |a| == |multiset(a)| && |b| == |multiset(b)|;
    if a != [] {
      assert a[0] in multiset(b) && b[0] in multiset(a);
      FirstIsFirst(a, b);
      RestOf(a);
      RestOf(b);
      StrictOrderIsUnique(a[1..], b[1..]);
      assert a == [a[0]] + a[1..] && b == [b[0]] + b[1..];
    }
  }

  lemma {:induction false} GroupCounts(payments: seq<Payment>, key: Key, payment: Payment)
    ensures multiset(Group(payments, key))[payment] == if Belongs(payment, key) then multiset(payments)[payment] else 0
  {
    if payments != [] {
      GroupCounts(payments[1..], key, payment);
      assert payments == [payments[0]] + payments[1..];
    }
  }

  lemma GroupsAgree(a: seq<Payment>, b: seq<Payment>, key: Key)
    requires multiset(a) == multiset(b)
    ensures multiset(Group(a, key)) == multiset(Group(b, key)) && |Group(a, key)| == |Group(b, key)|
  {
    var mine, theirs := multiset(Group(a, key)), multiset(Group(b, key));
    forall payment ensures mine[payment] == theirs[payment] {
      GroupCounts(a, key, payment);
      GroupCounts(b, key, payment);
    }
    assert |multiset(Group(a, key))| == |Group(a, key)| && |multiset(Group(b, key))| == |Group(b, key)|;
  }

  /** The order the payments are read in does not change what is detected. */
  lemma AnyOrderWillDo(a: seq<Payment>, b: seq<Payment>, series: Series)
    requires multiset(a) == multiset(b) && series in Detected(a)
    ensures series in Detected(b)
  {
    var key := Key(series.counterpartyKey, -series.amountCents);
    var window := DetectedIsExact(a, key, series);
    GroupsAgree(a, b, key);
    SortedAgree(Group(a, key), Group(b, key), window);
    FromItsKey(a, key, series);
    FromItsKey(b, key, series);
  }

  lemma SortedAgree(a: seq<Payment>, b: seq<Payment>, window: Window)
    requires multiset(a) == multiset(b) && window in WINDOWS && Keeps(Sort(Sooner, a), window)
    ensures Sort(Sooner, a) == Sort(Sooner, b)
  {
    SortedInDateOrder(b);
    Apart(Sort(Sooner, a), window);
    StrictOrderIsUnique(Sort(Sooner, a), Sort(Sooner, b));
  }

  lemma {:induction false} Apart(sorted: seq<Payment>, window: Window)
    requires window in WINDOWS && Keeps(sorted, window)
    ensures forall i, j :: 0 <= i < j < |sorted| ==> sorted[i].date < sorted[j].date
  {
    if sorted != [] {
      var n := |sorted| - 1;
      forall i | 0 <= i < n - 1 ensures window.least <= sorted[..n][i + 1].date - sorted[..n][i].date <= window.most {
        assert sorted[i + 1].date - sorted[i].date <= window.most;
      }
      Apart(sorted[..n], window);
      forall i, j | 0 <= i < j < |sorted| ensures sorted[i].date < sorted[j].date {
        assert j < n ==> sorted[..n][i].date < sorted[..n][j].date;
        if j == n {
          assert sorted[n - 1 + 1].date - sorted[n - 1].date >= window.least;
          assert i < n - 1 ==> sorted[..n][i].date < sorted[..n][n - 1].date;
        }
      }
    }
  }

  // ------------------------------------------------------- the offers

  predicate StillHolds(series: seq<Series>, record: PlannedRecord) {
    && record.counterpartyKey.Some?
    && exists one :: one in series && one.counterpartyKey == record.counterpartyKey.value
                       && one.amountCents == record.amountCents && one.frequency == record.frequency
  }

  predicate IsOffer(record: PlannedRecord) {
    record.provenance.Detected? && record.state.Suggested?
  }

  function Judged(record: PlannedRecord, series: seq<Series>): PlannedRecord {
    if IsOffer(record) && !StillHolds(series, record) then record.(state := Retired) else record
  }

  function AllJudged(planned: seq<PlannedRecord>, series: seq<Series>): seq<PlannedRecord> {
    Map(record => Judged(record, series), planned)
  }

  predicate SameIdentity(record: PlannedRecord, one: Series) {
    record.counterpartyKey == Some(one.counterpartyKey) && record.amountCents == one.amountCents
  }

  predicate Known(planned: seq<PlannedRecord>, one: Series) {
    exists record :: record in planned && SameIdentity(record, one)
  }

  function Offer(id: string, one: Series, today: int): PlannedRecord {
    PlannedRecord(id, one.name, Expense, one.amountCents, None, Some(one.counterpartyKey), one.mandateId,
                  one.nextExpectedDate, one.frequency, 1.0, None, Suggested, Provenance.Detected, None, Some(today))
  }

  function WithOffers(planned: seq<PlannedRecord>, series: seq<Series>, today: int, mint: nat -> string): seq<PlannedRecord>
    decreases |series|
  {
    if series == [] then planned
    else
      WithOffers(
        if Known(planned, series[0]) then planned else planned + [Offer(mint(|planned|), series[0], today)],
        series[1..], today, mint)
  }

  /** One pass: offers that no longer hold go, then what is not known is offered. */
  function Pass(planned: seq<PlannedRecord>, series: seq<Series>, today: int, mint: nat -> string): seq<PlannedRecord> {
    WithOffers(AllJudged(planned, series), series, today, mint)
  }

  class Plan {
    var planned: seq<PlannedRecord>

    constructor (planned: seq<PlannedRecord>)
      ensures this.planned == planned
    {
      this.planned := planned;
    }

    method RetireInvalidSuggestions(series: seq<Series>) returns (retired: nat)
      modifies this
      ensures planned == AllJudged(old(planned), series)
      ensures retired == 0 <==> planned == old(planned)
    {
      retired := 0;
      for i := 0 to |planned|
        invariant |planned| == |old(planned)|
        invariant forall j :: 0 <= j < |planned| ==> planned[j] == if j < i then Judged(old(planned)[j], series) else old(planned)[j]
        invariant retired == 0 <==> planned == old(planned)
      {
        if IsOffer(planned[i]) && !StillHolds(series, planned[i]) {
          assert planned[i] == old(planned)[i] && planned[i].state != Retired;
          planned := planned[i := planned[i].(state := Retired)];
          retired := retired + 1;
        }
      }
    }

    method SuggestFromSeries(series: seq<Series>, today: int, mint: nat -> string) returns (added: nat)
      modifies this
      ensures planned == WithOffers(old(planned), series, today, mint)
      ensures |planned| == |old(planned)| + added && old(planned) <= planned
    {
      var known := set record | record in planned && record.counterpartyKey.Some?
        :: Key(record.counterpartyKey.value, record.amountCents);
      added := 0;
      for i := 0 to |series|
        invariant WithOffers(planned, series[i..], today, mint) == WithOffers(old(planned), series, today, mint)
        invariant |planned| == |old(planned)| + added && old(planned) <= planned
        invariant forall one: Series :: Key(one.counterpartyKey, one.amountCents) in known <==> Known(planned, one)
      {
        var one := series[i];
        assert series[i..][1..] == series[i + 1..];
        if Key(one.counterpartyKey, one.amountCents) !in known {
          ghost var before := planned;
          planned := planned + [Offer(mint(|planned|), one, today)];
          known := known + {Key(one.counterpartyKey, one.amountCents)};
          added := added + 1;
          OfferIsKnown(before, mint(|before|), one, today);
        }
      }
    }

    method Suggest(series: seq<Series>, today: int, mint: nat -> string) returns (added: nat)
      modifies this
      ensures planned == Pass(old(planned), series, today, mint)
      ensures |planned| == |old(planned)| + added
    {
      var _ := RetireInvalidSuggestions(series);
      added := SuggestFromSeries(series, today, mint);
    }
  }

  lemma OfferIsKnown(planned: seq<PlannedRecord>, id: string, one: Series, today: int)
    ensures forall other: Series :: Known(planned + [Offer(id, one, today)], other)
              <==> Known(planned, other) || (other.counterpartyKey == one.counterpartyKey && other.amountCents == one.amountCents)
  {
    var after := planned + [Offer(id, one, today)];
    forall other: Series
      ensures Known(after, other)
              <==> Known(planned, other) || (other.counterpartyKey == one.counterpartyKey && other.amountCents == one.amountCents)
    {
      assert Offer(id, one, today) in after;
      if Known(planned, other) {
        var record :| record in planned && SameIdentity(record, other);
        assert record in after;
      }
    }
  }

  /** A pass leaves every record a person typed, confirmed or dismissed exactly as
      it was and where it was; an offer keeps all but, at most, its standing. */
  lemma {:induction false} PassKeeps(planned: seq<PlannedRecord>, series: seq<Series>, today: int, mint: nat -> string, i: nat)
    requires i < |planned|
    ensures var after := Pass(planned, series, today, mint);
      && i < |after| && after[i] == Judged(planned[i], series)
      && (planned[i].provenance.Manual? || !planned[i].state.Suggested? ==> after[i] == planned[i])
      && after[i].(state := planned[i].state) == planned[i]
  {
    OffersAreAdded(AllJudged(planned, series), series, today, mint);
  }

  /** What is offered: exactly the series whose counterparty and amount no record
      has, whatever the state of that record. */
  lemma {:induction false} OffersAreAdded(planned: seq<PlannedRecord>, series: seq<Series>, today: int, mint: nat -> string)
    ensures var after := WithOffers(planned, series, today, mint);
      && planned <= after
      && (forall one: Series :: Known(after, one) <==> Known(planned, one) || exists other ::
            other in series && other.counterpartyKey == one.counterpartyKey && other.amountCents == one.amountCents)
      && (forall i :: |planned| <= i < |after| ==> Offered(after[i], planned, series, today))
    decreases |series|
  {
    if series != [] {
      var one := series[0];
      var more := if Known(planned, one) then planned else planned + [Offer(mint(|planned|), one, today)];
      OffersAreAdded(more, series[1..], today, mint);
      OfferIsKnown(planned, mint(|planned|), one, today);
      var after := WithOffers(planned, series, today, mint);
      forall i | |planned| <= i < |after| ensures Offered(after[i], planned, series, today) {
        if |planned| == i && !Known(planned, one) {
          assert after[i] == more[i] && one in series;
        } else {
          var offered :| offered in series[1..] && after[i] == Offer(after[i].id, offered, today) && !Known(more, offered);
          assert offered in series;
        }
      }
    }
  }

  ghost predicate Offered(record: PlannedRecord, planned: seq<PlannedRecord>, series: seq<Series>, today: int) {
    exists one :: one in series && record == Offer(record.id, one, today) && !Known(planned, one)
  }

  lemma {:induction false} NothingToOffer(planned: seq<PlannedRecord>, series: seq<Series>, today: int, mint: nat -> string)
    requires forall one :: one in series ==> Known(planned, one)
    ensures WithOffers(planned, series, today, mint) == planned
    decreases |series|
  {
    if series != [] {
      assert series[0] in series;
      NothingToOffer(planned, series[1..], today, mint);
    }
  }

  /** A second pass over the same history retires nothing and offers nothing. */
  lemma SuggestingAgainIsNothing(planned: seq<PlannedRecord>, series: seq<Series>, today: int, later: int, mint: nat -> string)
    ensures var once := Pass(planned, series, today, mint);
      AllJudged(once, series) == once && Pass(once, series, later, mint) == once
  {
    var judged := AllJudged(planned, series);
    var once := Pass(planned, series, today, mint);
    OffersAreAdded(judged, series, today, mint);
    forall i | 0 <= i < |once| ensures Judged(once[i], series) == once[i] {
      if i < |judged| {
        assert once[i] == judged[i];
      } else {
        var one :| one in series && once[i] == Offer(once[i].id, one, today) && !Known(judged, one);
      }
    }
    assert AllJudged(once, series) == once;
    NothingToOffer(once, series, later, mint);
  }

  function Passes(planned: seq<PlannedRecord>, histories: seq<seq<Series>>, today: int, mint: nat -> string): seq<PlannedRecord>
    decreases |histories|
  {
    if histories == [] then planned else Passes(Pass(planned, histories[0], today, mint), histories[1..], today, mint)
  }

  function Having(one: Series): PlannedRecord -> bool {
    (record: PlannedRecord) => SameIdentity(record, one)
  }

  lemma {:induction false} NoneOfThatIdentity(records: seq<PlannedRecord>, one: Series)
    requires forall record :: record in records ==> !SameIdentity(record, one)
    ensures Count(Having(one), records) == 0
  {
    if records != [] {
      assert records[0] in records;
      NoneOfThatIdentity(records[1..], one);
    }
  }

  lemma {:induction false} JudgingKeepsIdentity(planned: seq<PlannedRecord>, series: seq<Series>, one: Series)
    ensures Count(Having(one), AllJudged(planned, series)) == Count(Having(one), planned)
  {
    if planned != [] {
      JudgingKeepsIdentity(planned[1..], series, one);
      assert AllJudged(planned, series)[1..] == AllJudged(planned[1..], series);
    }
  }

  lemma PassOffersNoneOf(planned: seq<PlannedRecord>, series: seq<Series>, today: int, mint: nat -> string, one: Series)
    requires Known(planned, one)
    ensures Known(Pass(planned, series, today, mint), one)
    ensures Count(Having(one), Pass(planned, series, today, mint)) == Count(Having(one), planned)
  {
    var judged := AllJudged(planned, series);
    JudgedIsKnown(planned, series, one);
    JudgingKeepsIdentity(planned, series, one);
    OffersNoneOf(judged, series, today, mint, one);
  }

  lemma OffersNoneOf(judged: seq<PlannedRecord>, series: seq<Series>, today: int, mint: nat -> string, one: Series)
    requires Known(judged, one)
    ensures var after := WithOffers(judged, series, today, mint);
      Known(after, one) && Count(Having(one), after) == Count(Having(one), judged)
  {
    var after := WithOffers(judged, series, today, mint);
    OffersAreAdded(judged, series, today, mint);
    var offers := after[|judged|..];
    assert after == judged + offers;
    forall record | record in offers ensures !SameIdentity(record, one) {
      var i :| 0 <= i < |offers| && offers[i] == record;
      assert after[|judged| + i] == record;
      var other :| other in series && record == Offer(record.id, other, today) && !Known(judged, other);
      if SameIdentity(record, one) {
        SameIsKnown(judged, one, other);
      }
    }
    NoneOfThatIdentity(offers, one);
    CountConcat(Having(one), judged, offers);
  }

  /** Once any record has a counterparty and an amount, no pass over any history
      offers that counterparty and amount again. A dismissed suggestion does not
      come back; nor does a retired one, even at a rhythm that would now hold. */
  lemma {:induction false} AKnownIdentityIsNeverOffered(planned: seq<PlannedRecord>, histories: seq<seq<Series>>, today: int,
                                                        mint: nat -> string, one: Series)
    requires Known(planned, one)
    ensures Count(Having(one), Passes(planned, histories, today, mint)) == Count(Having(one), planned)
    decreases |histories|
  {
    if histories != [] {
      PassOffersNoneOf(planned, histories[0], today, mint, one);
      AKnownIdentityIsNeverOffered(Pass(planned, histories[0], today, mint), histories[1..], today, mint, one);
    }
  }

  lemma SameIsKnown(planned: seq<PlannedRecord>, one: Series, other: Series)
    requires one.counterpartyKey == other.counterpartyKey && one.amountCents == other.amountCents && Known(planned, one)
    ensures Known(planned, other)
  {
    var record :| record in planned && SameIdentity(record, one);
    assert SameIdentity(record, other);
  }

  lemma JudgedIsKnown(planned: seq<PlannedRecord>, series: seq<Series>, one: Series)
    requires Known(planned, one)
    ensures Known(AllJudged(planned, series), one)
  {
    var record :| record in planned && SameIdentity(record, one);
    var i :| 0 <= i < |planned| && planned[i] == record;
    var judged := AllJudged(planned, series);
    assert judged[i] in judged && SameIdentity(judged[i], one);
  }

  /** A pass that withdraws an offer never puts another rhythm of the same
      counterparty and amount in its place, then or in any later pass. */
  lemma WithdrawnIsNotReplaced(planned: seq<PlannedRecord>, i: nat, one: Series, histories: seq<seq<Series>>, today: int, mint: nat -> string)
    requires i < |planned| && histories != [] && IsOffer(planned[i]) && !StillHolds(histories[0], planned[i])
    requires one in histories[0] && SameIdentity(planned[i], one)
    ensures planned[i].frequency != one.frequency
    ensures var after := Pass(planned, histories[0], today, mint);
      i < |after| && after[i] == planned[i].(state := Retired)
    ensures Count(Having(one), Passes(planned, histories, today, mint)) == Count(Having(one), planned)
  {
    assert planned[i] in planned;
    PassKeeps(planned, histories[0], today, mint, i);
    AKnownIdentityIsNeverOffered(planned, histories, today, mint, one);
  }
}
