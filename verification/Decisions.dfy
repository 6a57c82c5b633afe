/** The table of decisions about occurrences, and everything that changes it: a
    person's matches, refusals, moves and removals, and the automatic run
    (ayq-plan.ts). */
module Decisions {
  import opened Lists
  import opened Recurrence
  import opened Matching
  import opened MatchingLaws

  datatype Outcome = Done | NotFound | NotOnDate | AlreadyMatched

  datatype Store = Store(planned: seq<PlannedRecord>, rows: seq<Row>)

  // ------------------------------------------------------ one row of it

  function FreshRow(recordId: string, dueDate: int): Row {
    Row(recordId, dueDate, None, None, None, None, false, [])
  }

  function RowKey(row: Row): OccurrenceKey {
    (row.recordId, row.dueDate)
  }

  /** Where the first row of a key stands; the end of the table when there is none. */
  function Place(rows: seq<Row>, recordId: string, dueDate: int): (at: nat)
    ensures at <= |rows|
    ensures at < |rows| ==> IsFor(rows[at], recordId, dueDate)
    ensures forall i :: 0 <= i < at ==> !IsFor(rows[i], recordId, dueDate)
  {
    if rows == [] then 0
    else if IsFor(rows[0], recordId, dueDate) then 0
    else 1 + Place(rows[1..], recordId, dueDate)
  }

  /** The table with a row for this occurrence, made if this is its first decision. */
  function Decided(rows: seq<Row>, recordId: string, dueDate: int): (r: seq<Row>)
    ensures Place(rows, recordId, dueDate) < |r| && |rows| <= |r|
    ensures IsFor(r[Place(rows, recordId, dueDate)], recordId, dueDate)
  {
    if Place(rows, recordId, dueDate) < |rows| then rows else rows + [FreshRow(recordId, dueDate)]
  }

  /** The decision that stands for an occurrence before it is changed. */
  function Standing(rows: seq<Row>, recordId: string, dueDate: int): Row {
    Decided(rows, recordId, dueDate)[Place(rows, recordId, dueDate)]
  }

  function Put(rows: seq<Row>, row: Row): seq<Row> {
    Decided(rows, row.recordId, row.dueDate)[Place(rows, row.recordId, row.dueDate) := row]
  }

  /** A match says who, when and what, or nothing at all; and it is never of a
      transaction that has been refused. */
  predicate RowHolds(row: Row) {
    && (row.matchedTransactionId.Some? <==> row.matchedAt.Some?)
    && (row.matchedTransactionId.Some? <==> row.matchProvenance.Some?)
    && (row.matchedTransactionId.Some? ==> row.matchedTransactionId.value !in row.rejected)
  }

  ghost predicate OneRowEach(rows: seq<Row>) {
    forall i, j :: 0 <= i < j < |rows| ==> RowKey(rows[i]) != RowKey(rows[j])
  }

  ghost predicate MatchedOnce(rows: seq<Row>) {
    forall a, b :: a in rows && b in rows && a.matchedTransactionId.Some? && a.matchedTransactionId == b.matchedTransactionId ==> a == b
  }

  ghost predicate TableHolds(rows: seq<Row>) {
    OneRowEach(rows) && MatchedOnce(rows) && forall row :: row in rows ==> RowHolds(row)
  }

  /** Records have ids of their own and dates that can be written, and every
      decision is about a record there is. */
  ghost predicate Holds(s: Store) {
    && TableHolds(s.rows)
    && (forall i, j :: 0 <= i < j < |s.planned| ==> s.planned[i].id != s.planned[j].id)
    && (forall record :: record in s.planned ==> Dated(record))
    && (forall row :: row in s.rows ==> exists record :: record in s.planned && record.id == row.recordId)
  }

  lemma {:induction false} RowForPlace(rows: seq<Row>, recordId: string, dueDate: int)
    requires OneRowEach(rows)
    ensures var at := Place(rows, recordId, dueDate);
      RowFor(rows, recordId, dueDate) == if at < |rows| then Some(rows[at]) else None
  {
    var found := RowFor(rows, recordId, dueDate);
    if found.Some? {
      var i :| 0 <= i < |rows| && rows[i] == found.value;
      assert IsFor(rows[i], recordId, dueDate);
    }
  }

  /** Putting a row changes the decision about its own occurrence and no other. */
  lemma PutLookup(rows: seq<Row>, row: Row, recordId: string, dueDate: int)
    requires OneRowEach(rows)
    ensures OneRowEach(Put(rows, row))
    ensures RowFor(Put(rows, row), recordId, dueDate) ==
            if IsFor(row, recordId, dueDate) then Some(row) else RowFor(rows, recordId, dueDate)
  {
    var at, r := Place(rows, row.recordId, row.dueDate), Put(rows, row);
    forall i, j | 0 <= i < j < |r| ensures RowKey(r[i]) != RowKey(r[j]) {
      if j < |rows| {
        assert RowKey(rows[i]) != RowKey(rows[j]);
      }
    }
    RowForPlace(rows, recordId, dueDate);
    RowForPlace(r, recordId, dueDate);
    var before, after := Place(rows, recordId, dueDate), Place(r, recordId, dueDate);
    if IsFor(row, recordId, dueDate) {
      assert r[at] == row;
      assert after == at;
    } else if before < |rows| {
      assert r[before] == rows[before];
      assert after == before;
    } else {
      forall i | 0 <= i < |r| ensures !IsFor(r[i], recordId, dueDate) {
        assert i != at ==> r[i] == rows[i];
      }
    }
  }

  lemma PutMembers(rows: seq<Row>, row: Row)
    requires OneRowEach(rows)
    ensures forall other :: other in Put(rows, row) <==> other == row || (other in rows && RowKey(other) != RowKey(row))
  {
    var at, r := Place(rows, row.recordId, row.dueDate), Put(rows, row);
    assert r[at] == row;
    forall other | other in r && other != row ensures other in rows && RowKey(other) != RowKey(row) {
      var i :| 0 <= i < |r| && r[i] == other;
      assert other == rows[i];
      if at < |rows| {
        assert RowKey(rows[at]) == RowKey(row);
      }
    }
    forall other | other in rows && RowKey(other) != RowKey(row) ensures other in r {
      var i :| 0 <= i < |rows| && rows[i] == other;
      assert r[i] == other;
    }
  }

  lemma StandingIs(rows: seq<Row>, recordId: string, dueDate: int)
    requires OneRowEach(rows)
    ensures Standing(rows, recordId, dueDate) == RowFor(rows, recordId, dueDate).GetOr(FreshRow(recordId, dueDate))
  {
    RowForPlace(rows, recordId, dueDate);
  }

  /** Every change goes through one row, so this is all each of them owes. */
  lemma PutHolds(rows: seq<Row>, row: Row)
    requires TableHolds(rows) && RowHolds(row)
    requires row.matchedTransactionId.Some? ==>
               forall other :: other in rows && RowKey(other) != RowKey(row) ==> other.matchedTransactionId != row.matchedTransactionId
    ensures TableHolds(Put(rows, row))
  {
    PutLookup(rows, row, "", 0);
    PutMembers(rows, row);
  }

  // --------------------------------------------------- what a person does

  function FindRecord(planned: seq<PlannedRecord>, recordId: string): (r: Option<nat>)
    ensures r.Some? ==> r.value < |planned| && planned[r.value].id == recordId
    ensures r.None? ==> forall record :: record in planned ==> record.id != recordId
  {
    if planned == [] then None
    else if planned[0].id == recordId then Some(0)
    else
      assert planned == [planned[0]] + planned[1..];
      var rest := FindRecord(planned[1..], recordId);
      if rest.None? then None else Some(rest.value + 1)
  }

  /** The record behind an occurrence, or which of the two was wrong. */
  function OccurrenceFault(s: Store, recordId: string, dueDate: int): Outcome {
    var at := FindRecord(s.planned, recordId);
    if at.None? then NotFound
    else if !IsOccurrenceOf(s.planned[at.value], dueDate) then NotOnDate
    else Done
  }

  function Without(rejected: seq<string>, transactionId: string): (r: seq<string>)
    ensures forall id :: id in r <==> id in rejected && id != transactionId
  {
    Filter(id => id != transactionId, rejected)
  }

  function Unmatched(row: Row): Row {
    row.(matchedTransactionId := None, matchedAt := None, matchProvenance := None)
  }

  function MatchedTo(row: Row, transactionId: string, now: int, who: MatchedBy): Row {
    row.(matchedTransactionId := Some(transactionId), matchedAt := Some(now), matchProvenance := Some(who))
  }

  predicate TakenElsewhere(rows: seq<Row>, recordId: string, dueDate: int, transactionId: string) {
    exists row :: row in rows && row.matchedTransactionId == Some(transactionId) && !IsFor(row, recordId, dueDate)
  }

  function FindCandidate(candidates: seq<Candidate>, transactionId: string): Option<Candidate> {
    if candidates == [] then None
    else if candidates[0].transactionId == transactionId then Some(candidates[0])
    else FindCandidate(candidates[1..], transactionId)
  }

  /** A text there is, and that is not empty. */
  predicate IsGiven(text: Option<string>) {
    text.Some? && text.value != ""
  }

  /** A record typed by hand takes its identity from the first transaction a
      person matches it with. */
  function Learned(record: PlannedRecord, from: Option<Candidate>): PlannedRecord {
    if record.counterpartyKey.Some? || from.None? then record
    else
      var keyed := if IsGiven(from.value.counterpartyKey) then record.(counterpartyKey := from.value.counterpartyKey) else record;
      if keyed.mandateId.None? && IsGiven(from.value.mandateId) then keyed.(mandateId := from.value.mandateId) else keyed
  }

  datatype Operation =
    | Run(today: int, now: int, candidates: seq<Candidate>)
    | ApplyMatch(recordId: string, dueDate: int, transactionId: string, at: int, known: seq<Candidate>)
    | RejectMatch(recordId: string, dueDate: int, transactionId: string)
    | Unmatch(recordId: string, dueDate: int)
    | Reschedule(recordId: string, dueDate: int, to: int)
    | Dismiss(recordId: string, dueDate: int, dismissed: bool)
    | Remove(recordId: string)

  function ApplyMatchOn(s: Store, recordId: string, dueDate: int, transactionId: string, now: int, known: seq<Candidate>): (Store, Outcome) {
    var fault := OccurrenceFault(s, recordId, dueDate);
    if fault != Done then (s, fault)
    else if TakenElsewhere(s.rows, recordId, dueDate, transactionId) then (s, AlreadyMatched)
    else
      var standing := Standing(s.rows, recordId, dueDate);
      var row := MatchedTo(standing, transactionId, now, ByHand).(rejected := Without(standing.rejected, transactionId));
      var at := FindRecord(s.planned, recordId).value;
      (Store(s.planned[at := Learned(s.planned[at], FindCandidate(known, transactionId))], Put(s.rows, row)), Done)
  }

  function RejectedRow(standing: Row, transactionId: string): Row {
    var refused := if transactionId in standing.rejected then standing
                   else standing.(rejected := standing.rejected + [transactionId]);
    if standing.matchedTransactionId == Some(transactionId) then Unmatched(refused) else refused
  }

  function RejectMatchOn(s: Store, recordId: string, dueDate: int, transactionId: string): (Store, Outcome) {
    var fault := OccurrenceFault(s, recordId, dueDate);
    if fault != Done then (s, fault)
    else (s.(rows := Put(s.rows, RejectedRow(Standing(s.rows, recordId, dueDate), transactionId))), Done)
  }

  function UnmatchOn(s: Store, recordId: string, dueDate: int): (Store, Outcome) {
    var fault := OccurrenceFault(s, recordId, dueDate);
    if fault != Done then (s, fault)
    else (s.(rows := Put(s.rows, Unmatched(Standing(s.rows, recordId, dueDate)))), Done)
  }

  /** A move to its own due date is kept as no move at all. */
  function RescheduleOn(s: Store, recordId: string, dueDate: int, to: int): (Store, Outcome) {
    var fault := OccurrenceFault(s, recordId, dueDate);
    if fault != Done then (s, fault)
    else
      var standing := Standing(s.rows, recordId, dueDate);
      (s.(rows := Put(s.rows, standing.(rescheduledTo := if to == dueDate then None else Some(to)))), Done)
  }

  function DismissOn(s: Store, recordId: string, dueDate: int, dismissed: bool): (Store, Outcome) {
    var fault := OccurrenceFault(s, recordId, dueDate);
    if fault != Done then (s, fault)
    else (s.(rows := Put(s.rows, Standing(s.rows, recordId, dueDate).(dismissed := dismissed))), Done)
  }

  function RemoveOn(s: Store, recordId: string): (Store, Outcome) {
    var planned := Filter((record: PlannedRecord) => record.id != recordId, s.planned);
    if |planned| == |s.planned| then (s, NotFound)
    else (Store(planned, Filter((row: Row) => row.recordId != recordId, s.rows)), Done)
  }

  // ------------------------------------------------------ the automatic run

  predicate Unsettled(one: Occurrence) {
    !one.state.Matched? && !one.state.Struck?
  }

  function KeysOf(planned: seq<PlannedRecord>): map<string, RecordKey> {
    if planned == [] then map[]
    else
      var n := |planned| - 1;
      KeysOf(planned[..n])[planned[n].id := RecordKey(planned[n].counterpartyKey, planned[n].mandateId)]
  }

  function MatchedIds(rows: seq<Row>): set<string> {
    set row | row in rows && row.matchedTransactionId.Some? :: row.matchedTransactionId.value
  }

  function RefusedIn(rows: seq<Row>): map<OccurrenceKey, set<string>> {
    if rows == [] then map[]
    else
      var n := |rows| - 1;
      RefusedIn(rows[..n])[RowKey(rows[n]) := set id | id in rows[n].rejected]
  }

  function MatchInput(s: Store, from: int, to: int, today: int, candidates: seq<Candidate>): Input {
    Input(Filter(Unsettled, Occurrences(s.planned, s.rows, from, to, today)),
          KeysOf(s.planned), candidates, MatchedIds(s.rows), RefusedIn(s.rows))
  }

  /** One proposal: applied when it is confident, its record is there and no
      person's match stands in the way. */
  function ApplyProposal(planned: seq<PlannedRecord>, rows: seq<Row>, p: Proposal, now: int): seq<Row> {
    if !p.confident || FindRecord(planned, p.recordId).None? then rows
    else
      var standing := Standing(rows, p.recordId, p.dueDate);
      if standing.matchProvenance == Some(ByHand) then Decided(rows, p.recordId, p.dueDate)
      else Put(rows, MatchedTo(standing, p.transactionId, now, Automatically))
  }

  predicate Counts(planned: seq<PlannedRecord>, rows: seq<Row>, p: Proposal) {
    p.confident && FindRecord(planned, p.recordId).Some?
    && Standing(rows, p.recordId, p.dueDate).matchProvenance != Some(ByHand)
  }

  function ApplyAll(planned: seq<PlannedRecord>, rows: seq<Row>, proposals: seq<Proposal>, now: int): seq<Row>
    decreases |proposals|
  {
    if proposals == [] then rows
    else ApplyAll(planned, ApplyProposal(planned, rows, proposals[0], now), proposals[1..], now)
  }

  function AppliedCount(planned: seq<PlannedRecord>, rows: seq<Row>, proposals: seq<Proposal>, now: int): nat
    decreases |proposals|
  {
    if proposals == [] then 0
    else (if Counts(planned, rows, proposals[0]) then 1 else 0)
         + AppliedCount(planned, ApplyProposal(planned, rows, proposals[0], now), proposals[1..], now)
  }

  datatype Matches = Matches(store: Store, applied: nat, waiting: seq<Proposal>)

  function RunOn(s: Store, today: int, now: int, candidates: seq<Candidate>): Matches {
    RunIn(s, EarliestOf(s.planned, today), Horizon(today), today, now, candidates)
  }

  /** The run over the occurrences of one window. */
  function RunIn(s: Store, from: int, to: int, today: int, now: int, candidates: seq<Candidate>): Matches {
    var proposals := Proposals(MatchInput(s, from, to, today, candidates));
    var applied := AppliedCount(s.planned, s.rows, proposals, now);
    Matches(
      if applied > 0 then s.(rows := ApplyAll(s.planned, s.rows, proposals, now)) else s,
      applied, Filter(Waiting, proposals))
  }

  function Perform(s: Store, operation: Operation): Store {
    match operation
    case Run(today, now, candidates) => RunOn(s, today, now, candidates).store
    case ApplyMatch(recordId, dueDate, transactionId, at, known) => ApplyMatchOn(s, recordId, dueDate, transactionId, at, known).0
    case RejectMatch(recordId, dueDate, transactionId) => RejectMatchOn(s, recordId, dueDate, transactionId).0
    case Unmatch(recordId, dueDate) => UnmatchOn(s, recordId, dueDate).0
    case Reschedule(recordId, dueDate, to) => RescheduleOn(s, recordId, dueDate, to).0
    case Dismiss(recordId, dueDate, dismissed) => DismissOn(s, recordId, dueDate, dismissed).0
    case Remove(recordId) => RemoveOn(s, recordId).0
  }

  function PerformAll(s: Store, operations: seq<Operation>): Store
    decreases |operations|
  {
    if operations == [] then s else PerformAll(Perform(s, operations[0]), operations[1..])
  }

  // ----------------------------------------------------- the stored plan

  /** What is stored. Each operation reads it, changes what it read and, when it
      has something to keep, writes it back. */
  class PlanStore {
    var planned: seq<PlannedRecord>
    var rows: seq<Row>

    function Contents(): Store
      reads this
    {
      Store(planned, rows)
    }

    constructor (planned: seq<PlannedRecord>, rows: seq<Row>)
      ensures Contents() == Store(planned, rows)
    {
      this.planned := planned;
      this.rows := rows;
      new;
    }

    /** The row of an occurrence, pushed if this is its first decision. */
    method Decide(recordId: string, dueDate: int) returns (at: nat)
      modifies this`rows
      ensures rows == Decided(old(rows), recordId, dueDate)
      ensures at == Place(old(rows), recordId, dueDate) < |rows|
      ensures rows[at] == Standing(old(rows), recordId, dueDate)
    {
      at := Place(rows, recordId, dueDate);
      if at == |rows| {
        rows := rows + [FreshRow(recordId, dueDate)];
      }
    }

    method ApplyMatch(recordId: string, dueDate: int, transactionId: string, now: int, known: seq<Candidate>)
      returns (outcome: Outcome)
      modifies this
      ensures (Contents(), outcome) == ApplyMatchOn(old(Contents()), recordId, dueDate, transactionId, now, known)
    {
      outcome := OccurrenceFault(Contents(), recordId, dueDate);
      if outcome != Done { return; }
      if TakenElsewhere(rows, recordId, dueDate, transactionId) { return AlreadyMatched; }
      var at := Decide(recordId, dueDate);
      var decided := rows[at];
      decided := decided.(matchedTransactionId := Some(transactionId));
      decided := decided.(matchedAt := Some(now));
      decided := decided.(matchProvenance := Some(ByHand));
      decided := decided.(rejected := Without(decided.rejected, transactionId));
      rows := rows[at := decided];
      var record := FindRecord(planned, recordId).value;
      if planned[record].counterpartyKey.None? {
        var learned := FindCandidate(known, transactionId);
        if learned.Some? && IsGiven(learned.value.counterpartyKey) {
          planned := planned[record := planned[record].(counterpartyKey := learned.value.counterpartyKey)];
        }
        if planned[record].mandateId.None? && learned.Some? && IsGiven(learned.value.mandateId) {
          planned := planned[record := planned[record].(mandateId := learned.value.mandateId)];
        }
      }
      assert planned == old(planned)[record := Learned(old(planned)[record], FindCandidate(known, transactionId))];
    }

    method RejectMatch(recordId: string, dueDate: int, transactionId: string) returns (outcome: Outcome)
      modifies this`rows
      ensures (Contents(), outcome) == RejectMatchOn(old(Contents()), recordId, dueDate, transactionId)
    {
      outcome := OccurrenceFault(Contents(), recordId, dueDate);
      if outcome != Done { return; }
      var at := Decide(recordId, dueDate);
      var decided := rows[at];
      if transactionId !in decided.rejected {
        decided := decided.(rejected := decided.rejected + [transactionId]);
      }
      if decided.matchedTransactionId == Some(transactionId) {
        decided := decided.(matchedTransactionId := None, matchedAt := None, matchProvenance := None);
      }
      rows := rows[at := decided];
    }

    method Unmatch(recordId: string, dueDate: int) returns (outcome: Outcome)
      modifies this`rows
      ensures (Contents(), outcome) == UnmatchOn(old(Contents()), recordId, dueDate)
    {
      outcome := OccurrenceFault(Contents(), recordId, dueDate);
      if outcome != Done { return; }
      var at := Decide(recordId, dueDate);
      var decided := rows[at];
      decided := decided.(matchedTransactionId := None);
      decided := decided.(matchedAt := None);
      decided := decided.(matchProvenance := None);
      rows := rows[at := decided];
    }

    method Reschedule(recordId: string, dueDate: int, to: int) returns (outcome: Outcome)
      modifies this`rows
      ensures (Contents(), outcome) == RescheduleOn(old(Contents()), recordId, dueDate, to)
    {
      outcome := OccurrenceFault(Contents(), recordId, dueDate);
      if outcome != Done { return; }
      var at := Decide(recordId, dueDate);
      rows := rows[at := rows[at].(rescheduledTo := if to == dueDate then None else Some(to))];
    }

    method DismissOccurrence(recordId: string, dueDate: int, dismissed: bool) returns (outcome: Outcome)
      modifies this`rows
      ensures (Contents(), outcome) == DismissOn(old(Contents()), recordId, dueDate, dismissed)
    {
      outcome := OccurrenceFault(Contents(), recordId, dueDate);
      if outcome != Done { return; }
      var at := Decide(recordId, dueDate);
      rows := rows[at := rows[at].(dismissed := dismissed)];
    }

    method RemovePlan(recordId: string) returns (outcome: Outcome)
      modifies this
      ensures (Contents(), outcome) == RemoveOn(old(Contents()), recordId)
    {
      var kept := Filter((record: PlannedRecord) => record.id != recordId, planned);
      if |kept| == |planned| { return NotFound; }
      planned := kept;
      rows := Filter((row: Row) => row.recordId != recordId, rows);
      outcome := Done;
    }

    /** A clear match is applied where its record is there, and never over a
        person's decision. */
    method ApplyOne(rows: seq<Row>, p: Proposal, now: int) returns (held: seq<Row>, done: bool)
      requires p.confident
      ensures held == ApplyProposal(planned, rows, p, now)
      ensures done == Counts(planned, rows, p)
    {
      held, done := rows, false;
      var record := FindRecord(planned, p.recordId);
      if record.None? { return; }
      var at := Place(held, p.recordId, p.dueDate);
      held := Decided(held, p.recordId, p.dueDate);
      if held[at].matchProvenance == Some(ByHand) { return; }
      held := held[at := MatchedTo(held[at], p.transactionId, now, Automatically)];
      done := true;
    }

    /** Writes the confident proposals into the table and answers the others. */
    method RunMatching(today: int, now: int, candidates: seq<Candidate>) returns (applied: nat, waiting: seq<Proposal>)
      modifies this`rows
      ensures Matches(Contents(), applied, waiting) == RunOn(old(Contents()), today, now, candidates)
    {
      var from, to := PlanWindow(today, planned);
      var occurrences := OccurrencesBetween(planned, rows, from, to, today);
      var proposals := ProposeMatches(
        Input(Filter(Unsettled, occurrences), KeysOf(planned), candidates, MatchedIds(rows), RefusedIn(rows)));
      var held := rows;
      applied, waiting := 0, [];
      for i := 0 to |proposals|
        invariant rows == old(rows) && planned == old(planned)
        invariant ApplyAll(planned, held, proposals[i..], now) == ApplyAll(planned, rows, proposals, now)
        invariant applied + AppliedCount(planned, held, proposals[i..], now) == AppliedCount(planned, rows, proposals, now)
        invariant waiting == Filter(Waiting, proposals[..i])
      {
        var p := proposals[i];
        assert proposals[i..][0] == p && proposals[i..][1..] == proposals[i + 1..];
        FilterSnoc(Waiting, proposals, i);
        if !p.confident {
          waiting := waiting + [p];
          continue;
        }
        var done;
        held, done := ApplyOne(held, p, now);
        if done { applied := applied + 1; }
      }
      assert proposals[..|proposals|] == proposals;
      if applied > 0 { rows := held; }
    }
  }
}
