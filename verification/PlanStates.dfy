/** What saving a planned record and changing its state leave (ayq-plan.ts), and
    what accepting an offer does to the days it was already expected on. */
module PlanStates {
  import opened Lists
  import opened Recurrence
  import opened Decisions
  import opened DecisionLaws
  import opened DecisionEffects
  import opened Overlap
  import opened Overdue
  import Forecasting
  import Matching

  /** It is a person's own from now on, confirmed the day it first was. */
  ghost predicate IsConfirmed(now: PlannedRecord, was: PlannedRecord, today: int) {
    && now.state == PlanState.Confirmed && now.provenance == Provenance.Manual
    && (was.confirmedAt.Some? ==> now.confirmedAt == was.confirmedAt)
    && (was.confirmedAt.None? ==> now.confirmedAt == Some(today))
    && now.(state := was.state, provenance := was.provenance, confirmedAt := was.confirmedAt) == was
  }

  /** A record's state changes, no other record and no decision does, and one that
      is confirmed becomes a person's. */
  lemma WhatAChangeOfStateLeaves(s: Store, recordId: string, state: PlanState, today: int)
    requires Holds(s)
    ensures var after := SetStateOn(s, recordId, state, today);
      && after.rows == s.rows && |after.planned| == |s.planned|
      && forall i :: 0 <= i < |s.planned| ==>
           var was, now := s.planned[i], after.planned[i];
           if was.id != recordId then now == was
           else if state == PlanState.Confirmed then IsConfirmed(now, was, today)
           else now == was.(state := state)
  {
  }

  /** A record saved takes the place of the one with its id, or comes last. */
  lemma WhatSavingLeaves(s: Store, record: PlannedRecord)
    requires Holds(s)
    ensures var after := SaveOn(s, record);
      && after.rows == s.rows
      && (forall i :: 0 <= i < |s.planned| ==>
            i < |after.planned| && after.planned[i] == if s.planned[i].id == record.id then record else s.planned[i])
      && ((exists was :: was in s.planned && was.id == record.id) ==> |after.planned| == |s.planned|)
      && ((forall was :: was in s.planned ==> was.id != record.id) ==> after.planned == s.planned + [record])
  {
  }

  /** An offer accepted falls where it did, from the day it is accepted. */
  lemma AcceptedItFallsFromThen(record: PlannedRecord, today: int, date: int)
    requires record.state.Suggested? && record.confirmedAt.None?
    requires record.suggestedAt.Some? ==> record.suggestedAt.value <= today
    ensures FallsOn(Stated(record, PlanState.Confirmed, today), date) <==> FallsOn(record, date) && today <= date
  {
    SameRhythm(record, Stated(record, PlanState.Confirmed, today), date);
  }

  /** Confirmed once, it falls on the same days whatever it is told to be later,
      short of a suggestion again. */
  lemma ConfirmedItFallsAsItDid(record: PlannedRecord, state: PlanState, later: int, date: int)
    requires !record.state.Suggested? && record.confirmedAt.Some? && !state.Suggested?
    ensures FallsOn(Stated(record, state, later), date) <==> FallsOn(record, date)
  {
    SameRhythm(record, Stated(record, state, later), date);
  }

  lemma SameRhythm(record: PlannedRecord, other: PlannedRecord, date: int)
    requires other == record.(state := other.state, provenance := other.provenance, confirmedAt := other.confirmedAt)
    ensures forall index: nat :: RhythmDate(record, index) == RhythmDate(other, index)
  {
  }

  /** An expense only offered counts from its day on until something is decided
      about it. Accepting the offer is such a decision: what was due before that
      day is no longer expected, and what is due from then on still is. */
  lemma AcceptingForgetsWhatWasDue(s: Store, record: PlannedRecord, today: int, dueDate: int,
                                   before: Forecasting.Input, after: Forecasting.Input)
    requires Holds(s) && record in s.planned && record.state.Suggested? && record.confirmedAt.None? && record.kind.Expense?
    requires record.suggestedAt.Some? ==> record.suggestedAt.value <= today
    requires FallsOn(record, dueDate) && dueDate <= Horizon(today) && IsOpen(RowFor(s.rows, record.id, dueDate))
    requires EffectiveDate(RowFor(s.rows, record.id, dueDate), dueDate) <= before.horizon && today <= before.horizon == after.horizon
    requires before.today == today == after.today && before.occurrences == Shown(s.planned, s.rows, today)
    requires var accepted := SetStateOn(s, record.id, PlanState.Confirmed, today);
      after.occurrences == Shown(accepted.planned, accepted.rows, today)
    ensures SumOver(OneFor((record.id, dueDate)), Forecasting.Events(before)) == 1
    ensures SumOver(OneFor((record.id, dueDate)), Forecasting.Events(after)) == if today <= dueDate then 1 else 0
  {
    var accepted := SetStateOn(s, record.id, PlanState.Confirmed, today);
    var now := Stated(record, PlanState.Confirmed, today);
    TheSoonestIsAmong(s.planned, today);
    CountedThroughItsRow(s.planned, s.rows, today, record, dueDate, before);
    AcceptedItFallsFromThen(record, today, dueDate);
    AcceptedIsAmong(s, record, today);
    TheSoonestIsAmong(accepted.planned, today);
    if today <= dueDate {
      CountedThroughItsRow(accepted.planned, s.rows, today, now, dueDate, after);
    } else {
      NotShownNotCounted(accepted.planned, s.rows, today, now, dueDate, after);
    }
  }

  lemma AcceptedIsAmong(s: Store, record: PlannedRecord, today: int)
    requires Holds(s) && record in s.planned
    ensures var accepted := SetStateOn(s, record.id, PlanState.Confirmed, today);
      && Distinct(accepted.planned) && accepted.rows == s.rows && Stated(record, PlanState.Confirmed, today) in accepted.planned
  {
    WhatAChangeOfStateLeaves(s, record.id, PlanState.Confirmed, today);
    var accepted := SetStateOn(s, record.id, PlanState.Confirmed, today);
    var at := FindRecord(s.planned, record.id);
    assert s.planned[at.value] == record && accepted.planned[at.value] == Stated(record, PlanState.Confirmed, today);
    forall other | other in accepted.planned ensures Dated(other) {
      var i :| 0 <= i < |s.planned| && accepted.planned[i] == other;
      assert s.planned[i] in s.planned && other.startDate == s.planned[i].startDate;
    }
  }

  ghost predicate IsNobodyElses(rows: seq<Row>, recordId: string, dueDate: int, transactionId: string) {
    forall other :: other in rows && other.matchedTransactionId == Some(transactionId) ==> other.recordId == recordId && other.dueDate == dueDate
  }

  lemma MadeWhen(s: Store, recordId: string, dueDate: int, transactionId: string, at: int, known: seq<Matching.Candidate>)
    requires Holds(s)
    ensures ApplyMatchOn(s, recordId, dueDate, transactionId, at, known).1 == Done <==>
      && (exists record :: record in s.planned && record.id == recordId && FallsOn(record, dueDate))
      && IsNobodyElses(s.rows, recordId, dueDate, transactionId)
  {
    WhatAMatchLeaves(s, recordId, dueDate, transactionId, at, known);
    FoundIsOne(s, recordId, dueDate, ApplyMatchOn(s, recordId, dueDate, transactionId, at, known).1);
  }

  lemma FoundIsOne(s: Store, recordId: string, dueDate: int, outcome: Outcome)
    requires Holds(s) && Faults(s, recordId, dueDate, outcome)
    ensures outcome in {NotFound, NotOnDate} <==> !exists record :: record in s.planned && record.id == recordId && FallsOn(record, dueDate)
  {
    forall one, other | IsRecord(s, recordId, one) && IsRecord(s, recordId, other) ensures one == other {
    }
  }

  ghost predicate MayLearn(s: Store, recordId: string) {
    var place := FindRecord(s.planned, recordId);
    place.Some? && s.planned[place.value].counterpartyKey.None?
  }

  lemma AwaitsWhen(s: Store, recordId: string, dueDate: int, transactionId: string, at: int, known: seq<Matching.Candidate>)
    ensures !InOneStretch(s, Operation.ApplyMatch(recordId, dueDate, transactionId, at, known))
            <==> MayLearn(s, recordId) && ApplyMatchOn(s, recordId, dueDate, transactionId, at, known).1 == Done
  {
  }

  lemma LearnsWhen(s: Store, recordId: string, dueDate: int)
    requires Holds(s)
    ensures MayLearn(s, recordId) && (exists record :: record in s.planned && record.id == recordId && FallsOn(record, dueDate))
            <==> exists record :: record in s.planned && record.id == recordId && FallsOn(record, dueDate) && record.counterpartyKey.None?
  {
    var place := FindRecord(s.planned, recordId);
    if place.Some? {
      var record := s.planned[place.value];
      forall other | other in s.planned && other.id == recordId ensures other == record {
      }
    }
  }

  /** A person's match awaits between reading and writing exactly when it is going
      to be made and there is something it might learn: the record is there, falls
      on that day and has no counterparty, and the transaction is nobody else's. */
  lemma OnlyWhatMayLearnAwaits(s: Store, recordId: string, dueDate: int, transactionId: string, at: int, known: seq<Matching.Candidate>)
    requires Holds(s)
    ensures !InOneStretch(s, Operation.ApplyMatch(recordId, dueDate, transactionId, at, known)) <==>
      && (exists record :: record in s.planned && record.id == recordId && FallsOn(record, dueDate) && record.counterpartyKey.None?)
      && IsNobodyElses(s.rows, recordId, dueDate, transactionId)
  {
    AwaitsWhen(s, recordId, dueDate, transactionId, at, known);
    MadeWhen(s, recordId, dueDate, transactionId, at, known);
    LearnsWhen(s, recordId, dueDate);
  }
}
