/** What is detected and what is offered (ayq-series.ts, and ayq-plan.ts's use of
    it), told of payments and records, in days and cents. */
module SeriesLaws {
  import opened Lists
  import opened Recurrence
  import opened SeriesDetection

  /** How many days apart two payments of a cadence may be. */
  predicate GapFits(frequency: Frequency, days: int) {
    match frequency
    case Once => false
    case Weekly => 5 <= days <= 9
    case Fortnightly => 12 <= days <= 17
    case Monthly => 24 <= days <= 38
    case Quarterly => 80 <= days <= 100
    case HalfYearly => 170 <= days <= 195
    case Yearly => 350 <= days <= 380
  }

  ghost predicate GapsFit(sorted: seq<Payment>, frequency: Frequency) {
    forall i :: 0 <= i < |sorted| - 1 ==> GapFits(frequency, sorted[i + 1].date - sorted[i].date)
  }

  lemma KeepsIsGapsFit(sorted: seq<Payment>, window: Window)
    requires window in WINDOWS
    ensures Keeps(sorted, window) <==> GapsFit(sorted, window.frequency)
  {
    GapIsTheWindows(window);
  }

  lemma GapIsTheWindows(window: Window)
    requires window in WINDOWS
    ensures forall days :: GapFits(window.frequency, days) <==> window.least <= days <= window.most
  {
  }

  lemma EveryCadenceHasAWindow(frequency: Frequency)
    requires !frequency.Once?
    ensures exists window :: window in WINDOWS && window.frequency == frequency
  {
    var i := match frequency
      case Weekly => 0
      case Fortnightly => 1
      case Monthly => 2
      case Quarterly => 3
      case HalfYearly => 4
      case _ => 5;
    assert WINDOWS[i] in WINDOWS && WINDOWS[i].frequency == frequency;
  }

  /** Paid to that counterparty, in exactly that amount. */
  predicate IsPaid(payment: Payment, counterpartyKey: string, amountCents: int) {
    payment.counterpartyKey == counterpartyKey && payment.amountCents == -amountCents
  }

  function Paid(counterpartyKey: string, amountCents: int): Payment -> bool {
    (payment: Payment) => IsPaid(payment, counterpartyKey, amountCents)
  }

  /** All the payments to a counterparty of one amount, in date order. */
  ghost predicate ArePaidInOrder(sorted: seq<Payment>, payments: seq<Payment>, counterpartyKey: string, amountCents: int) {
    && multiset(sorted) == multiset(Filter(Paid(counterpartyKey, amountCents), payments))
    && forall i, j :: 0 <= i < j < |sorted| ==> sorted[i].date <= sorted[j].date
  }

  lemma {:induction false} GroupIsPaid(payments: seq<Payment>, counterpartyKey: string, amountCents: int)
    requires amountCents > 0
    ensures Group(payments, Key(counterpartyKey, -amountCents)) == Filter(Paid(counterpartyKey, amountCents), payments)
  {
    if payments != [] {
      GroupIsPaid(payments[1..], counterpartyKey, amountCents);
    }
  }

  lemma TheGroupInOrder(payments: seq<Payment>, counterpartyKey: string, amountCents: int)
    requires amountCents > 0
    ensures ArePaidInOrder(Sort(Sooner, Group(payments, Key(counterpartyKey, -amountCents))), payments, counterpartyKey, amountCents)
  {
    GroupIsPaid(payments, counterpartyKey, amountCents);
    SortedInDateOrder(Group(payments, Key(counterpartyKey, -amountCents)));
  }

  /** Three payments or more, and one cadence that fits every gap between them. */
  ghost predicate HasRhythm(sorted: seq<Payment>) {
    |sorted| >= 3 && exists frequency :: GapsFit(sorted, frequency)
  }

  lemma AWindowIsACadence(sorted: seq<Payment>)
    requires IsRhythm(sorted)
    ensures HasRhythm(sorted)
  {
    var window :| window in WINDOWS && Keeps(sorted, window);
    KeepsIsGapsFit(sorted, window);
  }

  lemma ACadenceIsAWindow(sorted: seq<Payment>, frequency: Frequency)
    requires |sorted| >= 3 && GapsFit(sorted, frequency)
    ensures IsRhythm(sorted)
  {
    assert GapFits(frequency, sorted[1].date - sorted[0].date);
    EveryCadenceHasAWindow(frequency);
    var window :| window in WINDOWS && window.frequency == frequency;
    KeepsIsGapsFit(sorted, window);
  }

  lemma RhythmIsRhythm(sorted: seq<Payment>)
    ensures IsRhythm(sorted) <==> HasRhythm(sorted)
  {
    if IsRhythm(sorted) {
      AWindowIsACadence(sorted);
    } else if HasRhythm(sorted) {
      var frequency :| GapsFit(sorted, frequency);
      ACadenceIsAWindow(sorted, frequency);
    }
  }

  lemma OnlyOutgoings(payments: seq<Payment>, series: Series)
    requires series in SeriesDetection.Detected(payments)
    ensures series.amountCents > 0
  {
    var key := Key(series.counterpartyKey, -series.amountCents);
    var window := DetectedIsExact(payments, key, series);
    SortedGroup(payments, key);
    var sorted := Sort(Sooner, Group(payments, key));
    assert sorted[0] in sorted;
  }

  /** A series is detected for a counterparty and an amount exactly when money of
      that amount went out to it three times or more, and one cadence fits every
      gap between those payments. */
  lemma DetectedWhenTheGapsFit(payments: seq<Payment>, counterpartyKey: string, amountCents: int) returns (sorted: seq<Payment>)
    ensures ArePaidInOrder(sorted, payments, counterpartyKey, amountCents) || amountCents <= 0
    ensures (exists series :: series in SeriesDetection.Detected(payments) && series.counterpartyKey == counterpartyKey && series.amountCents == amountCents)
            <==> amountCents > 0 && HasRhythm(sorted)
  {
    var key := Key(counterpartyKey, -amountCents);
    sorted := Sort(Sooner, Group(payments, key));
    if amountCents > 0 {
      TheGroupInOrder(payments, counterpartyKey, amountCents);
    }
    DetectedExactly(payments, key);
    RhythmIsRhythm(sorted);
    forall series | series in SeriesDetection.Detected(payments) && series.counterpartyKey == counterpartyKey && series.amountCents == amountCents
      ensures amountCents > 0 && key == Key(series.counterpartyKey, -series.amountCents)
    {
      OnlyOutgoings(payments, series);
    }
  }

  /** The mandate of the first payment that has one. */
  ghost predicate IsFirstMandate(mandateId: Option<string>, sorted: seq<Payment>) {
    if mandateId.None? then forall i :: 0 <= i < |sorted| ==> sorted[i].mandateId.None?
    else exists i :: 0 <= i < |sorted| && sorted[i].mandateId == mandateId && forall j :: 0 <= j < i ==> sorted[j].mandateId.None?
  }

  ghost predicate TellsOf(series: Series, sorted: seq<Payment>) {
    && |sorted| == series.occurrences >= 3 && GapsFit(sorted, series.frequency)
    && series.firstDate == sorted[0].date && series.lastDate == sorted[|sorted| - 1].date
    && series.name == sorted[|sorted| - 1].name
    && IsFirstMandate(series.mandateId, sorted)
  }

  /** What a series says of its payments, in date order. */
  lemma WhatASeriesSays(payments: seq<Payment>, series: Series) returns (sorted: seq<Payment>)
    requires series in SeriesDetection.Detected(payments)
    ensures series.amountCents > 0
    ensures ArePaidInOrder(sorted, payments, series.counterpartyKey, series.amountCents) && TellsOf(series, sorted)
  {
    OnlyOutgoings(payments, series);
    var key := Key(series.counterpartyKey, -series.amountCents);
    sorted := Sort(Sooner, Group(payments, key));
    TheGroupInOrder(payments, series.counterpartyKey, series.amountCents);
    DetectedTellsOf(payments, key, series);
  }

  lemma DetectedTellsOf(payments: seq<Payment>, key: Key, series: Series)
    requires series in SeriesDetection.Detected(payments) && key == Key(series.counterpartyKey, -series.amountCents)
    ensures TellsOf(series, Sort(Sooner, Group(payments, key)))
  {
    FromItsKey(payments, key, series);
    GroupTellsOf(Group(payments, key), series);
  }

  lemma GroupTellsOf(group: seq<Payment>, series: Series)
    requires SeriesOf(group) == Some(series)
    ensures TellsOf(series, Sort(Sooner, group))
  {
    MadeTellsOf(Sort(Sooner, group), series);
  }

  lemma MadeTellsOf(sorted: seq<Payment>, series: Series)
    requires |sorted| >= MINIMUM_OCCURRENCES && SeriesFrom(sorted) == Some(series)
    ensures TellsOf(series, sorted)
  {
    var window := FromTells(sorted);
    KeepsIsGapsFit(sorted, window);
    FirstMandateIs(sorted);
  }

  lemma {:induction false} FirstMandateIs(sorted: seq<Payment>)
    ensures IsFirstMandate(FirstMandate(sorted), sorted)
  {
    if sorted != [] && sorted[0].mandateId.None? {
      var rest, mandateId := sorted[1..], FirstMandate(sorted);
      FirstMandateIs(rest);
      assert forall i :: 0 < i < |sorted| ==> sorted[i] == rest[i - 1];
      if mandateId.Some? {
        var i :| 0 <= i < |rest| && rest[i].mandateId == mandateId && forall j :: 0 <= j < i ==> rest[j].mandateId.None?;
        assert sorted[i + 1].mandateId == mandateId;
      }
    }
  }

  /** The list is in order: what was paid last comes first, and of those paid last
      on one day what was paid more often. */
  lemma FreshestFirst(payments: seq<Payment>, i: nat, j: nat)
    requires i < j < |SeriesDetection.Detected(payments)|
    ensures var one, other := SeriesDetection.Detected(payments)[i], SeriesDetection.Detected(payments)[j];
      one.lastDate > other.lastDate || (one.lastDate == other.lastDate && one.occurrences >= other.occurrences)
  {
    SortIsOrdered(Fresher, Gathered(KeysOf(payments), payments));
    assert !Fresher(SeriesDetection.Detected(payments)[j], SeriesDetection.Detected(payments)[i]);
  }

  // ----------------------------------------------------------- the offers

  /** History supports a record: money goes to its counterparty, in its amount,
      at its cadence. */
  ghost predicate IsSupported(record: PlannedRecord, series: seq<Series>) {
    exists one :: one in series && record.counterpartyKey == Some(one.counterpartyKey)
                  && record.amountCents == one.amountCents && record.frequency == one.frequency
  }

  /** A pass changes a record exactly when it is a detected suggestion that history
      does not support, and then it is withdrawn and otherwise as it was. */
  lemma WithdrawnWhenUnsupported(planned: seq<PlannedRecord>, series: seq<Series>, today: int, mint: nat -> string, i: nat)
    requires i < |planned|
    ensures var after, record := Pass(planned, series, today, mint), planned[i];
      && i < |after|
      && after[i] == if record.state.Suggested? && record.provenance.Detected? && !IsSupported(record, series)
                     then record.(state := Retired) else record
  {
    PassKeeps(planned, series, today, mint, i);
    assert StillHolds(series, planned[i]) <==> IsSupported(planned[i], series);
  }

  /** What a new record of a pass is: an expense to expect from the day the series
      would be paid next, at its cadence, suggested today. */
  ghost predicate IsOfferOf(record: PlannedRecord, one: Series, today: int) {
    && record.name == one.name && record.kind == Expense && record.amountCents == one.amountCents
    && record.categoryName.None? && record.counterpartyKey == Some(one.counterpartyKey) && record.mandateId == one.mandateId
    && record.startDate == one.nextExpectedDate && record.frequency == one.frequency && record.interval == 1.0
    && record.endDate.None? && record.state == Suggested && record.provenance == Provenance.Detected
    && record.confirmedAt.None? && record.suggestedAt == Some(today)
  }

  ghost predicate HasItsIdentity(planned: seq<PlannedRecord>, one: Series) {
    exists record :: record in planned && record.counterpartyKey == Some(one.counterpartyKey) && record.amountCents == one.amountCents
  }

  /** An offer of a series of which there was no record. */
  ghost predicate IsNewOffer(record: PlannedRecord, planned: seq<PlannedRecord>, series: seq<Series>, today: int) {
    exists one :: one in series && !HasItsIdentity(planned, one) && IsOfferOf(record, one, today)
  }

  /** A pass adds, behind what there was, offers of series of which there was no
      record, and leaves no series without one. */
  lemma WhatAPassOffers(planned: seq<PlannedRecord>, series: seq<Series>, today: int, mint: nat -> string)
    ensures var after := Pass(planned, series, today, mint);
      && |planned| <= |after|
      && (forall one :: one in series ==> HasItsIdentity(after, one))
      && (forall k :: |planned| <= k < |after| ==> IsNewOffer(after[k], planned, series, today))
  {
    var judged, after := AllJudged(planned, series), Pass(planned, series, today, mint);
    OffersAreAdded(judged, series, today, mint);
    assert |judged| == |planned| && |judged| <= |after|;
    forall one | one in series ensures HasItsIdentity(after, one) {
      assert one.counterpartyKey == one.counterpartyKey && Known(after, one);
      KnownHasIt(after, one);
    }
    forall k | |planned| <= k < |after| ensures IsNewOffer(after[k], planned, series, today) {
      assert Offered(after[k], judged, series, today);
      OfferedToNobody(after[k], planned, series, today);
    }
  }

  lemma KnownHasIt(planned: seq<PlannedRecord>, one: Series)
    ensures Known(planned, one) <==> HasItsIdentity(planned, one)
  {
  }

  lemma OfferedToNobody(record: PlannedRecord, planned: seq<PlannedRecord>, series: seq<Series>, today: int)
    requires Offered(record, AllJudged(planned, series), series, today)
    ensures IsNewOffer(record, planned, series, today)
  {
    var judged := AllJudged(planned, series);
    var one :| one in series && record == Offer(record.id, one, today) && !Known(judged, one);
    KnownHasIt(planned, one);
    if Known(planned, one) {
      JudgedIsKnown(planned, series, one);
    }
    assert IsOfferOf(record, one, today);
  }
}
