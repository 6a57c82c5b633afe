/** What each decision leaves behind (ayq-plan.ts), field by field, and when it is
    not made: told of records, dates and rows. */
module DecisionEffects {
  import opened Lists
  import opened Recurrence
  import opened Matching
  import opened MatchingLaws
  import opened Decisions
  import opened DecisionLaws

  /** The row of an occurrence as it is, or with nothing decided yet. */
  function Was(rows: seq<Row>, recordId: string, dueDate: int): Row {
    match RowFor(rows, recordId, dueDate)
    case Some(row) => row
    case None => Row(recordId, dueDate, None, None, None, None, false, [])
  }

  ghost predicate IsRecord(s: Store, recordId: string, record: PlannedRecord) {
    record in s.planned && record.id == recordId
  }

  /** Why a decision about an occurrence is not made: there is no such record, or
      the record does not fall on that day. */
  ghost predicate Faults(s: Store, recordId: string, dueDate: int, outcome: Outcome) {
    && (outcome == NotFound <==> forall record :: record in s.planned ==> record.id != recordId)
    && (outcome == NotOnDate <==> exists record :: IsRecord(s, recordId, record) && !FallsOn(record, dueDate))
  }

  lemma FaultIs(s: Store, recordId: string, dueDate: int)
    requires Holds(s)
    ensures Faults(s, recordId, dueDate, OccurrenceFault(s, recordId, dueDate))
    ensures OccurrenceFault(s, recordId, dueDate) in {NotFound, NotOnDate, Done}
  {
    var at := FindRecord(s.planned, recordId);
    if at.Some? {
      var record := s.planned[at.value];
      assert IsRecord(s, recordId, record);
      OccurrenceInAnyWindow(record, dueDate, dueDate, dueDate);
      DatesAreWhereItFalls(record, dueDate, dueDate);
      forall other | IsRecord(s, recordId, other) ensures other == record {
      }
    }
  }

  lemma PutIs(s: Store, recordId: string, dueDate: int, row: Row)
    requires Holds(s) && IsFor(row, recordId, dueDate)
    ensures Standing(s.rows, recordId, dueDate) == Was(s.rows, recordId, dueDate)
    ensures RowFor(Put(s.rows, row), recordId, dueDate) == Some(row)
  {
    StandingIs(s.rows, recordId, dueDate);
    PutLookup(s.rows, row, recordId, dueDate);
  }

  /** A person's match: refused when the transaction is another occurrence's, and
      otherwise kept with who and when, and no longer refused. */
  lemma WhatAMatchLeaves(s: Store, recordId: string, dueDate: int, transactionId: string, now: int, known: seq<Candidate>)
    requires Holds(s)
    ensures var (after, outcome) := ApplyMatchOn(s, recordId, dueDate, transactionId, now, known);
      var was, row := Was(s.rows, recordId, dueDate), RowFor(after.rows, recordId, dueDate);
      && Faults(s, recordId, dueDate, outcome)
      && (outcome == AlreadyMatched ==>
            exists other :: (other in s.rows && other.matchedTransactionId == Some(transactionId)
                             && !(other.recordId == recordId && other.dueDate == dueDate)))
      && (outcome == Done ==>
            && (forall other :: other in s.rows && other.matchedTransactionId == Some(transactionId)
                                ==> other.recordId == recordId && other.dueDate == dueDate)
            && row.Some? && (forall id :: id in row.value.rejected <==> id in was.rejected && id != transactionId)
            && row.value == Row(recordId, dueDate, was.rescheduledTo, Some(transactionId), Some(now), Some(ByHand),
                                was.dismissed, row.value.rejected))
      && (outcome != Done ==> after == s)
  {
    FaultIs(s, recordId, dueDate);
    var standing := Standing(s.rows, recordId, dueDate);
    StandingHolds(s.rows, recordId, dueDate);
    PutIs(s, recordId, dueDate, MatchedTo(standing, transactionId, now, ByHand).(rejected := Without(standing.rejected, transactionId)));
  }

  /** A refusal: kept once, behind those there were; and if it was this very match,
      the match goes, with who and when. */
  lemma WhatARefusalLeaves(s: Store, recordId: string, dueDate: int, transactionId: string)
    requires Holds(s)
    ensures var (after, outcome) := RejectMatchOn(s, recordId, dueDate, transactionId);
      var was := Was(s.rows, recordId, dueDate);
      var refused := if transactionId in was.rejected then was.rejected else was.rejected + [transactionId];
      && Faults(s, recordId, dueDate, outcome) && after.planned == s.planned
      && (if outcome == Done
          then RowFor(after.rows, recordId, dueDate) == Some(
                 if was.matchedTransactionId == Some(transactionId)
                 then Row(recordId, dueDate, was.rescheduledTo, None, None, None, was.dismissed, refused)
                 else was.(rejected := refused))
          else after == s)
  {
    FaultIs(s, recordId, dueDate);
    var standing := Standing(s.rows, recordId, dueDate);
    StandingHolds(s.rows, recordId, dueDate);
    PutIs(s, recordId, dueDate, RejectedRow(standing, transactionId));
  }

  /** Undone, a match is gone with who and when, and nothing else. */
  lemma WhatUndoingLeaves(s: Store, recordId: string, dueDate: int)
    requires Holds(s)
    ensures var (after, outcome) := UnmatchOn(s, recordId, dueDate);
      var was := Was(s.rows, recordId, dueDate);
      && Faults(s, recordId, dueDate, outcome) && after.planned == s.planned
      && (if outcome == Done
          then RowFor(after.rows, recordId, dueDate)
               == Some(Row(recordId, dueDate, was.rescheduledTo, None, None, None, was.dismissed, was.rejected))
          else after == s)
  {
    FaultIs(s, recordId, dueDate);
    StandingHolds(s.rows, recordId, dueDate);
    PutIs(s, recordId, dueDate, Unmatched(Standing(s.rows, recordId, dueDate)));
  }

  /** Moved, only the day is another, and none when it is its own. */
  lemma WhatAMoveLeaves(s: Store, recordId: string, dueDate: int, to: int)
    requires Holds(s)
    ensures var (after, outcome) := RescheduleOn(s, recordId, dueDate, to);
      var was := Was(s.rows, recordId, dueDate);
      && Faults(s, recordId, dueDate, outcome) && after.planned == s.planned
      && (if outcome == Done
          then RowFor(after.rows, recordId, dueDate)
               == Some(Row(recordId, dueDate, if dueDate == to then None else Some(to), was.matchedTransactionId, was.matchedAt,
                           was.matchProvenance, was.dismissed, was.rejected))
          else after == s)
  {
    FaultIs(s, recordId, dueDate);
    var standing := Standing(s.rows, recordId, dueDate);
    StandingHolds(s.rows, recordId, dueDate);
    PutIs(s, recordId, dueDate, standing.(rescheduledTo := if to == dueDate then None else Some(to)));
  }

  /** Dismissed or taken back, only that is another. */
  lemma WhatADismissalLeaves(s: Store, recordId: string, dueDate: int, dismissed: bool)
    requires Holds(s)
    ensures var (after, outcome) := DismissOn(s, recordId, dueDate, dismissed);
      var was := Was(s.rows, recordId, dueDate);
      && Faults(s, recordId, dueDate, outcome) && after.planned == s.planned
      && (if outcome == Done
          then RowFor(after.rows, recordId, dueDate)
               == Some(Row(recordId, dueDate, was.rescheduledTo, was.matchedTransactionId, was.matchedAt, was.matchProvenance,
                           dismissed, was.rejected))
          else after == s)
  {
    FaultIs(s, recordId, dueDate);
    var standing := Standing(s.rows, recordId, dueDate);
    StandingHolds(s.rows, recordId, dueDate);
    PutIs(s, recordId, dueDate, standing.(dismissed := dismissed));
  }

  /** Removed, a record is gone with all that was decided about it, and what is
      another's stands. */
  lemma WhatRemovingLeaves(s: Store, recordId: string)
    ensures var (after, outcome) := RemoveOn(s, recordId);
      && (outcome == NotFound <==> forall record :: record in s.planned ==> record.id != recordId)
      && (outcome == NotFound || outcome == Done) && (outcome == NotFound ==> after == s)
      && (forall record :: record in after.planned <==> record in s.planned && record.id != recordId)
      && (outcome == Done ==> forall row :: row in after.rows <==> row in s.rows && row.recordId != recordId)
  {
    OthersCounted(s.planned, recordId);
  }

  lemma {:induction false} OthersCounted(planned: seq<PlannedRecord>, recordId: string)
    ensures var others := Filter((record: PlannedRecord) => record.id != recordId, planned);
      && (|others| == |planned| <==> forall record :: record in planned ==> record.id != recordId)
      && (|others| == |planned| ==> others == planned)
  {
    if planned != [] {
      OthersCounted(planned[1..], recordId);
      assert planned == [planned[0]] + planned[1..];
    }
  }

  /** What a run matches is matched now, by itself, and otherwise as it was. */
  lemma WhatARunLeaves(s: Store, today: int, now: int, candidates: seq<Candidate>, p: Proposal)
    requires Holds(s) && DistinctCandidates(candidates) && p.confident
    requires p in Proposals(MatchInput(s, EarliestOf(s.planned, today), Horizon(today), today, candidates))
    ensures var after, was := RunOn(s, today, now, candidates).store, Was(s.rows, p.recordId, p.dueDate);
      RowFor(after.rows, p.recordId, p.dueDate)
      == Some(Row(p.recordId, p.dueDate, was.rescheduledTo, Some(p.transactionId), Some(now), Some(Automatically), was.dismissed, was.rejected))
  {
    var from, to := EarliestOf(s.planned, today), Horizon(today);
    RunHolds(s, from, to, today, now, candidates);
    RanSays(s.rows, Proposals(MatchInput(s, from, to, today, candidates)), now, RunOn(s, today, now, candidates).store.rows, p);
  }

  lemma RanSays(rows: seq<Row>, proposals: seq<Proposal>, now: int, after: seq<Row>, p: Proposal)
    requires RanFrom(rows, proposals, now, after) && p in proposals && p.confident
    ensures var was := Was(rows, p.recordId, p.dueDate);
      RowFor(after, p.recordId, p.dueDate)
      == Some(Row(p.recordId, p.dueDate, was.rescheduledTo, Some(p.transactionId), Some(now), Some(Automatically), was.dismissed, was.rejected))
  {
    assert RowFor(after, p.recordId, p.dueDate) == Some(MatchedTo(Held(rows, KeyIn(p)), p.transactionId, now, Automatically));
  }

  lemma {:induction false} FoundIsTheOne(known: seq<Candidate>, candidate: Candidate)
    requires DistinctCandidates(known) && candidate in known
    ensures FindCandidate(known, candidate.transactionId) == Some(candidate)
  {
    if known[0] != candidate {
      assert candidate in known[1..];
      FoundIsTheOne(known[1..], candidate);
    }
  }

  lemma {:induction false} NoneIsFound(known: seq<Candidate>, transactionId: string)
    requires forall candidate :: candidate in known ==> candidate.transactionId != transactionId
    ensures FindCandidate(known, transactionId).None?
  {
    if known != [] {
      assert known[0] in known;
      NoneIsFound(known[1..], transactionId);
    }
  }

  /** A record without a counterparty takes that of the transaction a person
      matches it with, and its mandate if it has none of its own; an empty text is
      no counterparty and no mandate. One that has a counterparty learns nothing. */
  lemma WhatAMatchTeaches(s: Store, dueDate: int, candidate: Candidate, now: int, known: seq<Candidate>, i: nat)
    requires Holds(s) && i < |s.planned| && DistinctCandidates(known) && candidate in known
    requires ApplyMatchOn(s, s.planned[i].id, dueDate, candidate.transactionId, now, known).1 == Done
    ensures var record, after := s.planned[i], ApplyMatchOn(s, s.planned[i].id, dueDate, candidate.transactionId, now, known).0;
      && |after.planned| == |s.planned| && (forall j :: 0 <= j < |s.planned| && j != i ==> after.planned[j] == s.planned[j])
      && after.planned[i] == record.(
           counterpartyKey := if record.counterpartyKey.None? && candidate.counterpartyKey != None && candidate.counterpartyKey != Some("")
                              then candidate.counterpartyKey else record.counterpartyKey,
           mandateId := if record.counterpartyKey.None? && record.mandateId.None? && candidate.mandateId != Some("")
                        then candidate.mandateId else record.mandateId)
  {
    FoundIs(s.planned, i);
    FoundIsTheOne(known, candidate);
  }

  /** Nor does one matched with a transaction nothing is known of. */
  lemma AnUnknownTransactionTeachesNothing(s: Store, recordId: string, dueDate: int, transactionId: string, now: int, known: seq<Candidate>)
    requires Holds(s) && forall candidate :: candidate in known ==> candidate.transactionId != transactionId
    ensures ApplyMatchOn(s, recordId, dueDate, transactionId, now, known).0.planned == s.planned
  {
    NoneIsFound(known, transactionId);
  }
}
