/** What every sequence of decisions keeps, and why running the matcher twice is
    running it once. */
module DecisionLaws {
  import opened Lists
  import opened Recurrence
  import opened Matching
  import opened MatchingLaws
  import opened Decisions

  // ------------------------------------------ what the matcher is given

  lemma {:induction false} OccurrencesAtEach(record: PlannedRecord, rows: seq<Row>, dates: seq<int>, today: int)
    ensures var r := OccurrencesAt(record, rows, dates, today);
      |r| == |dates| &&
      forall i :: 0 <= i < |dates| ==> r[i] == OccurrenceOn(record, RowFor(rows, record.id, dates[i]), dates[i], today)
  {
    if dates != [] {
      OccurrencesAtEach(record, rows, dates[..|dates| - 1], today);
    }
  }

  lemma {:induction false} PlanIsDistinct(planned: seq<PlannedRecord>, rows: seq<Row>, from: int, to: int, today: int)
    requires forall i, j :: 0 <= i < j < |planned| ==> planned[i].id != planned[j].id
    requires forall record :: record in planned ==> Dated(record)
    ensures DistinctOccurrences(AllOccurrences(planned, rows, from, to, today))
  {
    if planned != [] {
      var n := |planned| - 1;
      var record := planned[n];
      PlanIsDistinct(planned[..n], rows, from, to, today);
      AllOccurrencesMembers(planned[..n], rows, from, to, today);
      DatesAreWhereItFalls(record, from, to);
      OccurrencesAtEach(record, rows, Dates(record, from, to), today);
      var before, more := AllOccurrences(planned[..n], rows, from, to, today), OccurrencesOf(record, rows, from, to, today);
      forall i, j | 0 <= i < |before| && 0 <= j < |more| ensures KeyOf(before[i]) != KeyOf(more[j]) {
        assert before[i] in before;
        var other :| other in planned[..n] && before[i].recordId == other.id;
        var k :| 0 <= k < n && planned[..n][k] == other;
        assert planned[k] == other;
      }
    }
  }

  lemma {:induction false} FilterKeepsDistinct(p: Occurrence -> bool, s: seq<Occurrence>)
    requires DistinctOccurrences(s)
    ensures DistinctOccurrences(Filter(p, s))
  {
    if s != [] {
      FilterKeepsDistinct(p, s[1..]);
      var rest := Filter(p, s[1..]);
      forall k | 0 <= k < |rest| ensures KeyOf(rest[k]) != KeyOf(s[0]) {
        assert rest[k] in rest;
        var i :| 0 <= i < |s[1..]| && s[1..][i] == rest[k];
        assert s[i + 1] == rest[k];
      }
    }
  }

  lemma MatchInputIsWellFormed(s: Store, from: int, to: int, today: int, candidates: seq<Candidate>)
    requires Holds(s) && DistinctCandidates(candidates)
    ensures WellFormed(MatchInput(s, from, to, today, candidates))
  {
    PlanIsDistinct(s.planned, s.rows, from, to, today);
    SortKeepsDistinct(Soonest, AllOccurrences(s.planned, s.rows, from, to, today));
    FilterKeepsDistinct(Unsettled, Occurrences(s.planned, s.rows, from, to, today));
  }

  lemma {:induction false} RefusedInIsRejected(rows: seq<Row>, recordId: string, dueDate: int)
    ensures var row, refused := RowFor(rows, recordId, dueDate), RefusedIn(rows);
      && (row.Some? <==> (recordId, dueDate) in refused)
      && (row.Some? ==> refused[(recordId, dueDate)] == set id | id in row.value.rejected)
  {
    if rows != [] {
      RefusedInIsRejected(rows[..|rows| - 1], recordId, dueDate);
    }
  }

  /** An occurrence given to the matcher belongs to a record there is, and
      nothing has been decided that settles it. */
  lemma GivenIsOpen(s: Store, from: int, to: int, today: int, candidates: seq<Candidate>, one: Occurrence)
    requires Holds(s) && one in MatchInput(s, from, to, today, candidates).occurrences
    ensures FindRecord(s.planned, one.recordId).Some?
    ensures var row := RowFor(s.rows, one.recordId, one.dueDate);
      && (row.Some? ==> row.value.matchedTransactionId.None? && !row.value.dismissed)
      && Refused(MatchInput(s, from, to, today, candidates), one) == set id | id in row.GetOr(FreshRow(one.recordId, one.dueDate)).rejected
  {
    OccurrencesAreWhatIsPlanned(s.planned, s.rows, from, to, today);
    RefusedInIsRejected(s.rows, one.recordId, one.dueDate);
    assert IsPlanned(s.planned, s.rows, from, to, today, one);
  }

  /** Nothing has been decided that closes the occurrence. */
  predicate IsOpen(row: Option<Row>) {
    row.None? || (row.value.matchedTransactionId.None? && !row.value.dismissed)
  }

  /** Exactly the open occurrences reach the matcher, overdue or not: those of a
      record that is neither withdrawn nor dismissed, falling in the window, with
      no match and no dismissal of their own. */
  lemma OpenReachesTheMatcher(s: Store, from: int, to: int, today: int, candidates: seq<Candidate>, record: PlannedRecord, dueDate: int)
    requires Holds(s) && record in s.planned
    ensures (exists one :: one in MatchInput(s, from, to, today, candidates).occurrences && KeyOf(one) == (record.id, dueDate))
            <==> from <= dueDate <= to && FallsOn(record, dueDate) && !record.state.Retired? && !record.state.Dismissed?
                 && IsOpen(RowFor(s.rows, record.id, dueDate))
  {
    OccurrencesAreWhatIsPlanned(s.planned, s.rows, from, to, today);
    var given := MatchInput(s, from, to, today, candidates).occurrences;
    var it := OccurrenceOn(record, RowFor(s.rows, record.id, dueDate), dueDate, today);
    forall one | one in given && KeyOf(one) == (record.id, dueDate)
      ensures one == it && from <= dueDate <= to && FallsOn(record, dueDate) && !record.state.Retired?
    {
      GivenIsOfItsRecord(s, from, to, today, candidates, record, one);
    }
    if from <= dueDate <= to && FallsOn(record, dueDate) && !record.state.Retired? {
      assert IsPlanned(s.planned, s.rows, from, to, today, it);
      assert KeyOf(it) == (record.id, dueDate);
    }
  }

  lemma GivenIsOfItsRecord(s: Store, from: int, to: int, today: int, candidates: seq<Candidate>, record: PlannedRecord, one: Occurrence)
    requires Holds(s) && record in s.planned && one.recordId == record.id
    requires one in MatchInput(s, from, to, today, candidates).occurrences
    ensures one == OccurrenceOn(record, RowFor(s.rows, record.id, one.dueDate), one.dueDate, today)
    ensures from <= one.dueDate <= to && FallsOn(record, one.dueDate) && !record.state.Retired?
  {
    OccurrencesAreWhatIsPlanned(s.planned, s.rows, from, to, today);
    assert IsPlanned(s.planned, s.rows, from, to, today, one);
    var other :| other in s.planned && !other.state.Retired? && from <= one.dueDate <= to && FallsOn(other, one.dueDate)
      && one == OccurrenceOn(other, RowFor(s.rows, other.id, one.dueDate), one.dueDate, today);
    assert other == record;
  }

  /** And it is given with what the record says of it, on the day it was moved to
      if it was moved, and with the keys of its record, the transactions matched
      elsewhere and those refused for it. */
  lemma GivenReadsAs(s: Store, from: int, to: int, today: int, candidates: seq<Candidate>, record: PlannedRecord, one: Occurrence)
    requires Holds(s) && record in s.planned && one.recordId == record.id
    requires one in MatchInput(s, from, to, today, candidates).occurrences
    ensures var input, row := MatchInput(s, from, to, today, candidates), RowFor(s.rows, record.id, one.dueDate);
      && one.name == record.name && one.kind == record.kind && one.amountCents == record.amountCents
      && one.effectiveDate == (if row.Some? then row.value.rescheduledTo.GetOr(one.dueDate) else one.dueDate)
      && record.id in input.recordKeys && input.recordKeys[record.id] == RecordKey(record.counterpartyKey, record.mandateId)
      && input.candidates == candidates
      && (forall id :: id in input.taken <==> exists row :: row in s.rows && row.matchedTransactionId == Some(id))
      && (forall id :: id in Refused(input, one) <==> row.Some? && id in row.value.rejected)
  {
    GivenIsOfItsRecord(s, from, to, today, candidates, record, one);
    GivenIsOpen(s, from, to, today, candidates, one);
    KeysAreTheirs(s.planned, record);
  }

  lemma {:induction false} KeysAreTheirs(planned: seq<PlannedRecord>, record: PlannedRecord)
    requires record in planned && forall i, j :: 0 <= i < j < |planned| ==> planned[i].id != planned[j].id
    ensures record.id in KeysOf(planned) && KeysOf(planned)[record.id] == RecordKey(record.counterpartyKey, record.mandateId)
  {
    var n := |planned| - 1;
    if planned[n] != record {
      var i :| 0 <= i < n && planned[i] == record;
      assert record in planned[..n];
      KeysAreTheirs(planned[..n], record);
    }
  }

  // -------------------------------------------------- what a run does

  /** The decision an occurrence has, or would be given first. */
  function Held(rows: seq<Row>, key: OccurrenceKey): Row {
    RowFor(rows, key.0, key.1).GetOr(FreshRow(key.0, key.1))
  }

  function KeyIn(p: Proposal): OccurrenceKey {
    (p.recordId, p.dueDate)
  }

  /** These proposals can be applied to this table one after another. */
  ghost predicate Ready(planned: seq<PlannedRecord>, rows: seq<Row>, proposals: seq<Proposal>) {
    && TableHolds(rows)
    && UsesEachOnce(proposals)
    && forall p :: p in proposals && p.confident ==> IsReady(planned, rows, p)
  }

  ghost predicate IsReady(planned: seq<PlannedRecord>, rows: seq<Row>, p: Proposal) {
    && FindRecord(planned, p.recordId).Some?
    && p.transactionId !in MatchedIds(rows)
    && Held(rows, KeyIn(p)).matchedTransactionId.None?
    && p.transactionId !in Held(rows, KeyIn(p)).rejected
  }

  lemma RunIsReady(s: Store, from: int, to: int, today: int, candidates: seq<Candidate>)
    requires Holds(s) && DistinctCandidates(candidates)
    ensures Ready(s.planned, s.rows, Proposals(MatchInput(s, from, to, today, candidates)))
  {
    var input := MatchInput(s, from, to, today, candidates);
    MatchInputIsWellFormed(s, from, to, today, candidates);
    ProposalsAreSound(input);
    forall p | p in Proposals(input) && p.confident ensures IsReady(s.planned, s.rows, p) {
      var one, candidate :| one in input.occurrences && IsProposalOf(input, Tally(input), one, candidate, p);
      ProposalSays(input, Tally(input), one, candidate, p);
      GivenIsReady(s, from, to, today, candidates, one, p);
    }
  }

  lemma ProposalSays(input: Input, tally: seq<Pair>, one: Occurrence, candidate: Candidate, p: Proposal)
    requires IsProposalOf(input, tally, one, candidate, p)
    ensures p.recordId == one.recordId && p.dueDate == one.dueDate && p.transactionId !in Refused(input, one)
  {
  }

  lemma GivenIsReady(s: Store, from: int, to: int, today: int, candidates: seq<Candidate>, one: Occurrence, p: Proposal)
    requires Holds(s) && one in MatchInput(s, from, to, today, candidates).occurrences
    requires p.recordId == one.recordId && p.dueDate == one.dueDate
    requires p.transactionId !in Refused(MatchInput(s, from, to, today, candidates), one) && p.transactionId !in MatchedIds(s.rows)
    ensures IsReady(s.planned, s.rows, p)
  {
    GivenIsOpen(s, from, to, today, candidates, one);
  }

  lemma OneRowOfAKey(rows: seq<Row>, row: Row, recordId: string, dueDate: int)
    requires OneRowEach(rows) && row in rows && IsFor(row, recordId, dueDate)
    ensures RowFor(rows, recordId, dueDate) == Some(row)
  {
    var found := RowFor(rows, recordId, dueDate);
    var i :| 0 <= i < |rows| && rows[i] == row;
    var j :| 0 <= j < |rows| && rows[j] == found.value;
    assert RowKey(rows[i]) == RowKey(rows[j]);
  }

  /** One row becomes matched; nothing else changes. */
  ghost predicate MatchesOne(rows: seq<Row>, p: Proposal, now: int, next: seq<Row>) {
    && TableHolds(next)
    && MatchedIds(next) == MatchedIds(rows) + {p.transactionId}
    && RowFor(next, p.recordId, p.dueDate) == Some(MatchedTo(Held(rows, KeyIn(p)), p.transactionId, now, Automatically))
    && forall recordId, dueDate :: (recordId, dueDate) != KeyIn(p) ==> RowFor(next, recordId, dueDate) == RowFor(rows, recordId, dueDate)
  }

  lemma PutMatches(rows: seq<Row>, p: Proposal, now: int)
    requires TableHolds(rows) && p.transactionId !in MatchedIds(rows)
    requires Held(rows, KeyIn(p)).matchedTransactionId.None? && p.transactionId !in Held(rows, KeyIn(p)).rejected
    ensures MatchesOne(rows, p, now, Put(rows, MatchedTo(Held(rows, KeyIn(p)), p.transactionId, now, Automatically)))
  {
    var row := MatchedTo(Held(rows, KeyIn(p)), p.transactionId, now, Automatically);
    forall other | other in rows && other.matchedTransactionId.Some?
      ensures RowKey(other) != RowKey(row) && other.matchedTransactionId != row.matchedTransactionId
    {
      assert other.matchedTransactionId.value in MatchedIds(rows);
      if RowKey(other) == RowKey(row) {
        OneRowOfAKey(rows, other, row.recordId, row.dueDate);
      }
    }
    PutHolds(rows, row);
    PutMembers(rows, row);
    assert row in Put(rows, row);
    forall recordId, dueDate
      ensures RowFor(Put(rows, row), recordId, dueDate) ==
              if IsFor(row, recordId, dueDate) then Some(row) else RowFor(rows, recordId, dueDate)
    {
      PutLookup(rows, row, recordId, dueDate);
    }
  }

  lemma ApplyOne(planned: seq<PlannedRecord>, rows: seq<Row>, proposals: seq<Proposal>, now: int)
    requires proposals != [] && Ready(planned, rows, proposals) && proposals[0].confident
    ensures Counts(planned, rows, proposals[0])
    ensures MatchesOne(rows, proposals[0], now, ApplyProposal(planned, rows, proposals[0], now))
  {
    var p := proposals[0];
    assert p in proposals;
    StandingIs(rows, p.recordId, p.dueDate);
    assert RowHolds(Held(rows, KeyIn(p)));
    PutMatches(rows, p, now);
  }

  lemma ReadyForTheRest(planned: seq<PlannedRecord>, rows: seq<Row>, proposals: seq<Proposal>, now: int, next: seq<Row>)
    requires proposals != [] && Ready(planned, rows, proposals)
    requires if proposals[0].confident then MatchesOne(rows, proposals[0], now, next) else next == rows
    ensures Ready(planned, next, proposals[1..])
  {
    var p, rest := proposals[0], proposals[1..];
    forall q | q in rest
      ensures q in proposals && KeyIn(q) != KeyIn(p) && q.transactionId != p.transactionId
    {
      var k :| 0 <= k < |rest| && rest[k] == q;
      assert proposals[k + 1] == q;
    }
  }

  /** The table after a run: every confident proposal has matched its occurrence,
      every other decision stands as it was. */
  ghost predicate RanFrom(rows: seq<Row>, proposals: seq<Proposal>, now: int, after: seq<Row>) {
    && TableHolds(after)
    && MatchedIds(after) == MatchedIds(rows) + AppliedIds(proposals)
    && (forall p :: p in proposals && p.confident ==>
          RowFor(after, p.recordId, p.dueDate) == Some(MatchedTo(Held(rows, KeyIn(p)), p.transactionId, now, Automatically)))
    && (forall recordId, dueDate :: (recordId, dueDate) !in AppliedKeys(proposals) ==>
          RowFor(after, recordId, dueDate) == RowFor(rows, recordId, dueDate))
  }

  lemma AppliedOneMore(p: Proposal, rest: seq<Proposal>)
    ensures AppliedIds([p] + rest) == AppliedIds(rest) + if p.confident then {p.transactionId} else {}
    ensures AppliedKeys([p] + rest) == AppliedKeys(rest) + if p.confident then {KeyIn(p)} else {}
  {
    var all := [p] + rest;
    assert forall q :: q in all <==> q == p || q in rest;
  }

  lemma OtherKeys(p: Proposal, rest: seq<Proposal>)
    requires UsesEachOnce([p] + rest)
    ensures forall q :: q in rest ==> KeyIn(q) != KeyIn(p)
    ensures KeyIn(p) !in AppliedKeys(rest)
  {
    forall q | q in rest ensures KeyIn(q) != KeyIn(p) {
      var k :| 0 <= k < |rest| && rest[k] == q;
      assert ([p] + rest)[0] == p && ([p] + rest)[k + 1] == q;
    }
  }

  lemma RanOneMore(rows: seq<Row>, p: Proposal, rest: seq<Proposal>, now: int, next: seq<Row>, after: seq<Row>)
    requires UsesEachOnce([p] + rest) && p.confident && MatchesOne(rows, p, now, next)
    requires RanFrom(next, rest, now, after)
    ensures RanFrom(rows, [p] + rest, now, after)
  {
    AppliedOneMore(p, rest);
    OtherKeys(p, rest);
    forall q | q in [p] + rest && q.confident
      ensures RowFor(after, q.recordId, q.dueDate) == Some(MatchedTo(Held(rows, KeyIn(q)), q.transactionId, now, Automatically))
    {
      if q in rest {
        assert RowFor(next, q.recordId, q.dueDate) == RowFor(rows, q.recordId, q.dueDate);
        assert Held(next, KeyIn(q)) == Held(rows, KeyIn(q));
      } else {
        assert q == p;
        assert (p.recordId, p.dueDate) !in AppliedKeys(rest);
      }
    }
  }

  lemma {:induction false} ApplyAllRuns(planned: seq<PlannedRecord>, rows: seq<Row>, proposals: seq<Proposal>, now: int)
    requires Ready(planned, rows, proposals)
    ensures RanFrom(rows, proposals, now, ApplyAll(planned, rows, proposals, now))
    ensures AppliedCount(planned, rows, proposals, now) == Count(Confident, proposals)
    decreases |proposals|
  {
    if proposals != [] {
      var next := ApplyProposal(planned, rows, proposals[0], now);
      if proposals[0].confident {
        ApplyOne(planned, rows, proposals, now);
      }
      ReadyForTheRest(planned, rows, proposals, now, next);
      ApplyAllRuns(planned, next, proposals[1..], now);
      assert proposals == [proposals[0]] + proposals[1..];
      AppliedOneMore(proposals[0], proposals[1..]);
      if proposals[0].confident {
        RanOneMore(rows, proposals[0], proposals[1..], now, next, ApplyAll(planned, next, proposals[1..], now));
      }
    }
  }

  // --------------------------------------------- every run keeps the table

  lemma HoldsWithRows(s: Store, rows: seq<Row>)
    requires Holds(s) && TableHolds(rows)
    requires forall row :: row in rows && row !in s.rows ==> exists record :: record in s.planned && record.id == row.recordId
    ensures Holds(s.(rows := rows))
  {
  }

  lemma RecordFound(s: Store, recordId: string, dueDate: int)
    requires OccurrenceFault(s, recordId, dueDate) == Done
    ensures exists record :: record in s.planned && record.id == recordId
  {
    var at := FindRecord(s.planned, recordId).value;
    assert s.planned[at] in s.planned;
  }

  /** A person's change to one row, when the row it leaves is one that may stand. */
  lemma ChangeHolds(s: Store, recordId: string, dueDate: int, row: Row)
    requires Holds(s) && OccurrenceFault(s, recordId, dueDate) == Done
    requires IsFor(row, recordId, dueDate) && RowHolds(row)
    requires row.matchedTransactionId.Some? ==>
               forall other :: other in s.rows && RowKey(other) != RowKey(row) ==> other.matchedTransactionId != row.matchedTransactionId
    ensures Holds(s.(rows := Put(s.rows, row)))
  {
    PutHolds(s.rows, row);
    PutMembers(s.rows, row);
    RecordFound(s, recordId, dueDate);
    HoldsWithRows(s, Put(s.rows, row));
  }

  /** What is known of the row a change starts from. */
  lemma StandingHolds(rows: seq<Row>, recordId: string, dueDate: int)
    requires TableHolds(rows)
    ensures var row := Standing(rows, recordId, dueDate);
      && IsFor(row, recordId, dueDate) && RowHolds(row)
      && (row.matchedTransactionId.Some? ==>
            forall other :: other in rows && RowKey(other) != RowKey(row) ==> other.matchedTransactionId != row.matchedTransactionId)
  {
    StandingIs(rows, recordId, dueDate);
  }

  lemma ApplyMatchHolds(s: Store, recordId: string, dueDate: int, transactionId: string, now: int, known: seq<Candidate>)
    requires Holds(s)
    ensures Holds(ApplyMatchOn(s, recordId, dueDate, transactionId, now, known).0)
  {
    var (after, outcome) := ApplyMatchOn(s, recordId, dueDate, transactionId, now, known);
    if outcome == Done {
      var standing := Standing(s.rows, recordId, dueDate);
      var row := MatchedTo(standing, transactionId, now, ByHand).(rejected := Without(standing.rejected, transactionId));
      StandingHolds(s.rows, recordId, dueDate);
      forall other | other in s.rows && RowKey(other) != RowKey(row) ensures other.matchedTransactionId != row.matchedTransactionId {
        assert !IsFor(other, recordId, dueDate);
      }
      ChangeHolds(s, recordId, dueDate, row);
      var at := FindRecord(s.planned, recordId).value;
      var changed := Learned(s.planned[at], FindCandidate(known, transactionId));
      LearnedHolds(s.(rows := Put(s.rows, row)), at, changed);
    }
  }

  lemma LearnedHolds(s: Store, at: nat, changed: PlannedRecord)
    requires Holds(s) && at < |s.planned|
    requires changed.id == s.planned[at].id && changed.startDate == s.planned[at].startDate
    ensures Holds(s.(planned := s.planned[at := changed]))
  {
    var planned := s.planned[at := changed];
    assert planned[at] in planned;
    forall record | record in planned ensures Dated(record) {
      var i :| 0 <= i < |planned| && planned[i] == record;
      assert s.planned[i] in s.planned;
    }
    forall row | row in s.rows ensures exists record :: record in planned && record.id == row.recordId {
      var was :| was in s.planned && was.id == row.recordId;
      var i :| 0 <= i < |s.planned| && s.planned[i] == was;
      assert planned[i].id == was.id && planned[i] in planned;
    }
  }

  lemma RemoveHolds(s: Store, recordId: string)
    requires Holds(s)
    ensures Holds(RemoveOn(s, recordId).0)
    ensures RemoveOn(s, recordId).1 == Done ==>
              && (forall row :: row in RemoveOn(s, recordId).0.rows <==> row in s.rows && row.recordId != recordId)
              && (forall record :: record in RemoveOn(s, recordId).0.planned <==> record in s.planned && record.id != recordId)
  {
    var stays := (record: PlannedRecord) => record.id != recordId;
    var keeps := (row: Row) => row.recordId != recordId;
    FilteredIds(stays, s.planned);
    FilteredRows(keeps, s.rows);
    forall row | row in s.rows && row.recordId != recordId
      ensures exists record :: record in Filter(stays, s.planned) && record.id == row.recordId
    {
      var record :| record in s.planned && record.id == row.recordId;
      assert record in Filter(stays, s.planned);
    }
  }

  lemma {:induction false} FilteredIds(p: PlannedRecord -> bool, planned: seq<PlannedRecord>)
    requires forall i, j :: 0 <= i < j < |planned| ==> planned[i].id != planned[j].id
    ensures forall i, j :: 0 <= i < j < |Filter(p, planned)| ==> Filter(p, planned)[i].id != Filter(p, planned)[j].id
  {
    if planned != [] {
      var rest := planned[1..];
      FilteredIds(p, rest);
      forall k | 0 <= k < |Filter(p, rest)| ensures Filter(p, rest)[k].id != planned[0].id {
        assert Filter(p, rest)[k] in rest;
        var i :| 0 <= i < |rest| && rest[i] == Filter(p, rest)[k];
        assert planned[i + 1] == rest[i];
      }
    }
  }

  lemma {:induction false} FilteredRows(p: Row -> bool, rows: seq<Row>)
    requires OneRowEach(rows)
    ensures OneRowEach(Filter(p, rows))
  {
    if rows != [] {
      var rest := rows[1..];
      FilteredRows(p, rest);
      forall k | 0 <= k < |Filter(p, rest)| ensures RowKey(Filter(p, rest)[k]) != RowKey(rows[0]) {
        assert Filter(p, rest)[k] in rest;
        var i :| 0 <= i < |rest| && rest[i] == Filter(p, rest)[k];
        assert rows[i + 1] == rest[i];
      }
    }
  }

  /** A run keeps the table, applies every confident proposal, and leaves every
      row that was already matched, by hand or by itself, exactly as it was. */
  lemma RunHolds(s: Store, from: int, to: int, today: int, now: int, candidates: seq<Candidate>)
    requires Holds(s) && DistinctCandidates(candidates)
    ensures var r := RunIn(s, from, to, today, now, candidates);
      var proposals := Proposals(MatchInput(s, from, to, today, candidates));
      && Holds(r.store)
      && r.store.planned == s.planned
      && RanFrom(s.rows, proposals, now, r.store.rows)
      && r.applied == Count(Confident, proposals)
      && (forall row :: row in s.rows && row.matchedTransactionId.Some? ==> row in r.store.rows)
  {
    var proposals := Proposals(MatchInput(s, from, to, today, candidates));
    var r := RunIn(s, from, to, today, now, candidates);
    RunIsReady(s, from, to, today, candidates);
    ApplyAllRuns(s.planned, s.rows, proposals, now);
    if r.applied == 0 {
      NoneApplied(s.rows, proposals, now);
    }
    MatchedRowsStay(s.planned, s.rows, proposals, now, r.store.rows);
    RowsAreOwned(s, proposals, now, r.store.rows);
    HoldsWithRows(s, r.store.rows);
  }

  lemma NoneApplied(rows: seq<Row>, proposals: seq<Proposal>, now: int)
    requires TableHolds(rows) && Count(Confident, proposals) == 0
    ensures RanFrom(rows, proposals, now, rows)
  {
    assert forall p :: p in proposals && Confident(p) ==> p in Filter(Confident, proposals);
    assert AppliedIds(proposals) == {} && AppliedKeys(proposals) == {};
  }

  lemma MatchedRowsStay(planned: seq<PlannedRecord>, rows: seq<Row>, proposals: seq<Proposal>, now: int, after: seq<Row>)
    requires Ready(planned, rows, proposals) && RanFrom(rows, proposals, now, after)
    ensures forall row :: row in rows && row.matchedTransactionId.Some? ==> row in after
  {
    forall row | row in rows && row.matchedTransactionId.Some? ensures row in after {
      OneRowOfAKey(rows, row, row.recordId, row.dueDate);
      forall p | p in proposals && p.confident ensures KeyIn(p) != RowKey(row) {
        assert Held(rows, KeyIn(p)).matchedTransactionId.None?;
      }
      assert RowFor(after, row.recordId, row.dueDate) == Some(row);
    }
  }

  lemma RowsAreOwned(s: Store, proposals: seq<Proposal>, now: int, after: seq<Row>)
    requires Holds(s) && Ready(s.planned, s.rows, proposals) && RanFrom(s.rows, proposals, now, after)
    ensures forall row :: row in after && row !in s.rows ==> exists record :: record in s.planned && record.id == row.recordId
  {
    forall row | row in after && row !in s.rows ensures exists record :: record in s.planned && record.id == row.recordId {
      OneRowOfAKey(after, row, row.recordId, row.dueDate);
      var p :| p in proposals && p.confident && KeyIn(p) == RowKey(row);
      var at := FindRecord(s.planned, p.recordId).value;
      assert s.planned[at] in s.planned;
    }
  }

  ghost predicate FromTheLedger(operation: Operation) {
    operation.Run? ==> DistinctCandidates(operation.candidates)
  }

  lemma PerformHolds(s: Store, operation: Operation)
    requires Holds(s) && FromTheLedger(operation)
    ensures Holds(Perform(s, operation))
  {
    match operation
    case Run(today, now, candidates) =>
      RunHolds(s, EarliestOf(s.planned, today), Horizon(today), today, now, candidates);
    case ApplyMatch(recordId, dueDate, transactionId, at, known) =>
      ApplyMatchHolds(s, recordId, dueDate, transactionId, at, known);
    case RejectMatch(recordId, dueDate, transactionId) =>
      StandingHolds(s.rows, recordId, dueDate);
      if OccurrenceFault(s, recordId, dueDate) == Done {
        ChangeHolds(s, recordId, dueDate, RejectedRow(Standing(s.rows, recordId, dueDate), transactionId));
      }
    case Unmatch(recordId, dueDate) =>
      StandingHolds(s.rows, recordId, dueDate);
      if OccurrenceFault(s, recordId, dueDate) == Done {
        ChangeHolds(s, recordId, dueDate, Unmatched(Standing(s.rows, recordId, dueDate)));
      }
    case Reschedule(recordId, dueDate, to) =>
      StandingHolds(s.rows, recordId, dueDate);
      if OccurrenceFault(s, recordId, dueDate) == Done {
        ChangeHolds(s, recordId, dueDate, Standing(s.rows, recordId, dueDate).(rescheduledTo := if to == dueDate then None else Some(to)));
      }
    case Dismiss(recordId, dueDate, dismissed) =>
      StandingHolds(s.rows, recordId, dueDate);
      if OccurrenceFault(s, recordId, dueDate) == Done {
        ChangeHolds(s, recordId, dueDate, Standing(s.rows, recordId, dueDate).(dismissed := dismissed));
      }
    case Remove(recordId) => RemoveHolds(s, recordId);
  }

  /** Whatever is done, in whatever order: one row an occurrence, one occurrence
      a transaction, no match that was refused, and a match that says who, when
      and what or nothing. */
  lemma {:induction false} EverySequenceHolds(s: Store, operations: seq<Operation>)
    requires Holds(s) && forall operation :: operation in operations ==> FromTheLedger(operation)
    ensures Holds(PerformAll(s, operations))
    decreases |operations|
  {
    if operations != [] {
      PerformHolds(s, operations[0]);
      EverySequenceHolds(Perform(s, operations[0]), operations[1..]);
    }
  }

  // -------------------------------------------------------- running again

  /** An occurrence as it reads once the keys given have been matched. */
  function Reread(rows: seq<Row>, keys: set<OccurrenceKey>, one: Occurrence): Occurrence {
    var row := RowFor(rows, one.recordId, one.dueDate);
    if KeyOf(one) in keys && row.Some? then
      one.(state := Matched, matchedTransactionId := row.value.matchedTransactionId, matchProvenance := row.value.matchProvenance)
    else one
  }

  lemma RereadTaken(record: PlannedRecord, date: int, today: int, rows: seq<Row>, after: seq<Row>, keys: set<OccurrenceKey>,
                    transactionId: string, now: int)
    requires (record.id, date) in keys
    requires Unsettled(OccurrenceOn(record, RowFor(rows, record.id, date), date, today))
    requires RowFor(after, record.id, date) == Some(MatchedTo(Held(rows, (record.id, date)), transactionId, now, Automatically))
    ensures OccurrenceOn(record, RowFor(after, record.id, date), date, today)
            == Reread(after, keys, OccurrenceOn(record, RowFor(rows, record.id, date), date, today))
  {
  }

  /** What a run did to one occurrence: nothing, or it reads as matched now. */
  lemma RereadOne(s: Store, from: int, to: int, today: int, now: int, candidates: seq<Candidate>, after: seq<Row>,
                  record: PlannedRecord, date: int)
    requires Holds(s) && DistinctCandidates(candidates)
    requires RanFrom(s.rows, Proposals(MatchInput(s, from, to, today, candidates)), now, after)
    requires record in s.planned
    ensures var keys := AppliedKeys(Proposals(MatchInput(s, from, to, today, candidates)));
      OccurrenceOn(record, RowFor(after, record.id, date), date, today)
      == Reread(after, keys, OccurrenceOn(record, RowFor(s.rows, record.id, date), date, today))
  {
    var input := MatchInput(s, from, to, today, candidates);
    var proposals := Proposals(input);
    if (record.id, date) in AppliedKeys(proposals) {
      var p :| p in proposals && p.confident && KeyIn(p) == (record.id, date);
      var one := ProposedOne(s, from, to, today, candidates, p);
      GivenComesFrom(s, from, to, today, candidates, one, record);
      RereadTaken(record, date, today, s.rows, after, AppliedKeys(proposals), p.transactionId, now);
    }
  }

  lemma ProposedOne(s: Store, from: int, to: int, today: int, candidates: seq<Candidate>, p: Proposal) returns (one: Occurrence)
    requires Holds(s) && DistinctCandidates(candidates)
    requires p in Proposals(MatchInput(s, from, to, today, candidates))
    ensures one in MatchInput(s, from, to, today, candidates).occurrences && KeyOf(one) == KeyIn(p)
  {
    var input := MatchInput(s, from, to, today, candidates);
    MatchInputIsWellFormed(s, from, to, today, candidates);
    ProposalsAreSound(input);
    var o, candidate :| o in input.occurrences && IsProposalOf(input, Tally(input), o, candidate, p);
    one := o;
  }

  lemma GivenComesFrom(s: Store, from: int, to: int, today: int, candidates: seq<Candidate>, one: Occurrence, record: PlannedRecord)
    requires Holds(s) && record in s.planned && record.id == one.recordId
    requires one in MatchInput(s, from, to, today, candidates).occurrences
    ensures Unsettled(one) && one == OccurrenceOn(record, RowFor(s.rows, record.id, one.dueDate), one.dueDate, today)
  {
    OccurrencesAreWhatIsPlanned(s.planned, s.rows, from, to, today);
    assert IsPlanned(s.planned, s.rows, from, to, today, one);
    var other :| other in s.planned && other.id == one.recordId
      && one == OccurrenceOn(other, RowFor(s.rows, other.id, one.dueDate), one.dueDate, today);
    var i :| 0 <= i < |s.planned| && s.planned[i] == record;
    var j :| 0 <= j < |s.planned| && s.planned[j] == other;
  }

  lemma {:induction false} RereadAll(planned: seq<PlannedRecord>, rows: seq<Row>, after: seq<Row>, keys: set<OccurrenceKey>,
                                     from: int, to: int, today: int)
    requires forall record, date :: record in planned ==>
               OccurrenceOn(record, RowFor(after, record.id, date), date, today)
               == Reread(after, keys, OccurrenceOn(record, RowFor(rows, record.id, date), date, today))
    ensures AllOccurrences(planned, after, from, to, today)
            == Map(one => Reread(after, keys, one), AllOccurrences(planned, rows, from, to, today))
  {
    var f := (one: Occurrence) => Reread(after, keys, one);
    if planned != [] {
      var n := |planned| - 1;
      var record, dates := planned[n], Dates(planned[n], from, to);
      RereadAll(planned[..n], rows, after, keys, from, to, today);
      OccurrencesAtEach(record, rows, dates, today);
      OccurrencesAtEach(record, after, dates, today);
      assert OccurrencesOf(record, after, from, to, today) == Map(f, OccurrencesOf(record, rows, from, to, today));
    }
  }

  lemma {:induction false} FilterReread(after: seq<Row>, keys: set<OccurrenceKey>, s: seq<Occurrence>)
    requires forall one :: one in s && KeyOf(one) in keys ==> RowFor(after, one.recordId, one.dueDate).Some?
    ensures Filter(Unsettled, Map(one => Reread(after, keys, one), s))
            == Filter(one => KeyOf(one) !in keys, Filter(Unsettled, s))
  {
    var f := (one: Occurrence) => Reread(after, keys, one);
    if s != [] {
      var rest := s[1..];
      assert s == [s[0]] + rest;
      FilterReread(after, keys, rest);
      MapCons(f, s[0], rest);
      assert Map(f, s)[1..] == Map(f, rest);
      if Unsettled(s[0]) {
        assert ([s[0]] + Filter(Unsettled, rest))[1..] == Filter(Unsettled, rest);
      }
    }
  }

  lemma SettledAfter(planned: seq<PlannedRecord>, rows: seq<Row>, after: seq<Row>, keys: set<OccurrenceKey>,
                     from: int, to: int, today: int)
    requires forall record, date :: record in planned ==>
               OccurrenceOn(record, RowFor(after, record.id, date), date, today)
               == Reread(after, keys, OccurrenceOn(record, RowFor(rows, record.id, date), date, today))
    requires forall recordId, dueDate :: (recordId, dueDate) in keys ==> RowFor(after, recordId, dueDate).Some?
    ensures Filter(Unsettled, Occurrences(planned, after, from, to, today))
            == Filter(one => KeyOf(one) !in keys, Filter(Unsettled, Occurrences(planned, rows, from, to, today)))
  {
    var f := (one: Occurrence) => Reread(after, keys, one);
    var all := AllOccurrences(planned, rows, from, to, today);
    RereadAll(planned, rows, after, keys, from, to, today);
    SortMap(Soonest, f, all);
    FilterReread(after, keys, Sort(Soonest, all));
  }

  lemma OccurrencesAfterRun(s: Store, from: int, to: int, today: int, now: int, candidates: seq<Candidate>, after: seq<Row>)
    requires Holds(s) && DistinctCandidates(candidates)
    requires RanFrom(s.rows, Proposals(MatchInput(s, from, to, today, candidates)), now, after)
    ensures var keys := AppliedKeys(Proposals(MatchInput(s, from, to, today, candidates)));
      Filter(Unsettled, Occurrences(s.planned, after, from, to, today))
      == Filter(one => KeyOf(one) !in keys, Filter(Unsettled, Occurrences(s.planned, s.rows, from, to, today)))
  {
    var keys := AppliedKeys(Proposals(MatchInput(s, from, to, today, candidates)));
    forall record, date | record in s.planned
      ensures OccurrenceOn(record, RowFor(after, record.id, date), date, today)
              == Reread(after, keys, OccurrenceOn(record, RowFor(s.rows, record.id, date), date, today))
    {
      RereadOne(s, from, to, today, now, candidates, after, record, date);
    }
    SettledAfter(s.planned, s.rows, after, keys, from, to, today);
  }

  lemma AfterRunIsApplied(s: Store, from: int, to: int, today: int, now: int, candidates: seq<Candidate>, after: seq<Row>)
    requires Holds(s) && DistinctCandidates(candidates)
    requires RanFrom(s.rows, Proposals(MatchInput(s, from, to, today, candidates)), now, after)
    ensures AfterApplying(MatchInput(s, from, to, today, candidates), MatchInput(s.(rows := after), from, to, today, candidates))
  {
    var input, again := MatchInput(s, from, to, today, candidates), MatchInput(s.(rows := after), from, to, today, candidates);
    OccurrencesAfterRun(s, from, to, today, now, candidates, after);
    forall one | one in again.occurrences ensures Refused(again, one) == Refused(input, one) {
      RefusedInIsRejected(s.rows, one.recordId, one.dueDate);
      RefusedInIsRejected(after, one.recordId, one.dueDate);
    }
  }

  /** Running the matcher again on unchanged data applies nothing, changes
      nothing, and offers exactly what the first run left waiting. */
  lemma RunningAgain(s: Store, from: int, to: int, today: int, now: int, later: int, candidates: seq<Candidate>)
    requires Holds(s) && DistinctCandidates(candidates)
    ensures var first := RunIn(s, from, to, today, now, candidates);
      RunIn(first.store, from, to, today, later, candidates) == Matches(first.store, 0, first.waiting)
  {
    var input := MatchInput(s, from, to, today, candidates);
    var first := RunIn(s, from, to, today, now, candidates);
    RunHolds(s, from, to, today, now, candidates);
    AfterRunIsApplied(s, from, to, today, now, candidates, first.store.rows);
    assert first.store == s.(rows := first.store.rows);
    var again := MatchInput(first.store, from, to, today, candidates);
    MatchInputIsWellFormed(s, from, to, today, candidates);
    MatchingAgain(input, again);
    RunHolds(first.store, from, to, today, later, candidates);
    NoneConfident(Proposals(again));
  }

  lemma {:induction false} NoneConfident(proposals: seq<Proposal>)
    requires forall p :: p in proposals ==> !p.confident
    ensures Count(Confident, proposals) == 0 && Filter(Waiting, proposals) == proposals
  {
    if proposals != [] {
      NoneConfident(proposals[1..]);
    }
  }

  lemma RunningTwiceIsRunningOnce(s: Store, today: int, now: int, later: int, candidates: seq<Candidate>)
    requires Holds(s) && DistinctCandidates(candidates)
    ensures var first := RunOn(s, today, now, candidates);
      RunOn(first.store, today, later, candidates) == Matches(first.store, 0, first.waiting)
  {
    RunningAgain(s, EarliestOf(s.planned, today), Horizon(today), today, now, later, candidates);
  }

  // ----------------------------------------------------- a refusal stands

  ghost predicate RefusedFor(s: Store, recordId: string, dueDate: int, transactionId: string) {
    var row := RowFor(s.rows, recordId, dueDate);
    row.Some? && transactionId in row.value.rejected
  }

  /** The only two things that take a refusal back. */
  predicate TakesBack(operation: Operation, recordId: string, dueDate: int, transactionId: string) {
    match operation
    case ApplyMatch(r, d, t, _, _) => r == recordId && d == dueDate && t == transactionId
    case Remove(r) => r == recordId
    case _ => false
  }

  lemma RejectingRefuses(s: Store, recordId: string, dueDate: int, transactionId: string)
    requires Holds(s) && OccurrenceFault(s, recordId, dueDate) == Done
    ensures var after := RejectMatchOn(s, recordId, dueDate, transactionId).0;
      && RefusedFor(after, recordId, dueDate, transactionId)
      && Held(after.rows, (recordId, dueDate)).matchedTransactionId != Some(transactionId)
  {
    var standing := Standing(s.rows, recordId, dueDate);
    StandingHolds(s.rows, recordId, dueDate);
    RejectedRowRefuses(standing, transactionId);
    PutLookup(s.rows, RejectedRow(standing, transactionId), recordId, dueDate);
  }

  lemma RejectedRowRefuses(standing: Row, transactionId: string)
    ensures var row := RejectedRow(standing, transactionId);
      && transactionId in row.rejected && RowKey(row) == RowKey(standing)
      && row.matchedTransactionId != Some(transactionId)
      && (forall id :: id in row.rejected <==> id in standing.rejected || id == transactionId)
  {
  }

  lemma PutKeepsRefusal(s: Store, recordId: string, dueDate: int, transactionId: string, row: Row)
    requires Holds(s) && RefusedFor(s, recordId, dueDate, transactionId)
    requires IsFor(row, recordId, dueDate) ==> transactionId in row.rejected
    ensures RefusedFor(s.(rows := Put(s.rows, row)), recordId, dueDate, transactionId)
  {
    PutLookup(s.rows, row, recordId, dueDate);
  }

  /** The refusals a change of one row starts from. */
  lemma StandingRefusals(s: Store, r: string, d: int, recordId: string, dueDate: int, transactionId: string)
    requires Holds(s) && RefusedFor(s, recordId, dueDate, transactionId)
    ensures (r, d) == (recordId, dueDate) ==> transactionId in Standing(s.rows, r, d).rejected
    ensures IsFor(Standing(s.rows, r, d), r, d)
  {
    StandingIs(s.rows, r, d);
  }

  lemma AddingKeepsRefusal(s: Store, r: string, d: int, row: Row, recordId: string, dueDate: int, transactionId: string)
    requires Holds(s) && RefusedFor(s, recordId, dueDate, transactionId)
    requires IsFor(row, r, d) && Standing(s.rows, r, d).rejected <= row.rejected
    ensures RefusedFor(s.(rows := Put(s.rows, row)), recordId, dueDate, transactionId)
  {
    StandingRefusals(s, r, d, recordId, dueDate, transactionId);
    PutKeepsRefusal(s, recordId, dueDate, transactionId, row);
  }

  lemma ApplyMatchKeepsRefusal(s: Store, r: string, d: int, t: string, at: int, known: seq<Candidate>,
                               recordId: string, dueDate: int, transactionId: string)
    requires Holds(s) && RefusedFor(s, recordId, dueDate, transactionId)
    requires (r, d, t) != (recordId, dueDate, transactionId)
    ensures RefusedFor(ApplyMatchOn(s, r, d, t, at, known).0, recordId, dueDate, transactionId)
  {
    var standing := Standing(s.rows, r, d);
    StandingRefusals(s, r, d, recordId, dueDate, transactionId);
    PutKeepsRefusal(s, recordId, dueDate, transactionId, MatchedTo(standing, t, at, ByHand).(rejected := Without(standing.rejected, t)));
  }

  lemma RefusalSurvives(s: Store, operation: Operation, recordId: string, dueDate: int, transactionId: string)
    requires Holds(s) && FromTheLedger(operation) && RefusedFor(s, recordId, dueDate, transactionId)
    requires !TakesBack(operation, recordId, dueDate, transactionId)
    ensures RefusedFor(Perform(s, operation), recordId, dueDate, transactionId)
  {
    if operation.Run? {
      var from, to := EarliestOf(s.planned, operation.today), Horizon(operation.today);
      RunHolds(s, from, to, operation.today, operation.now, operation.candidates);
      RunKeepsRefusal(s, Proposals(MatchInput(s, from, to, operation.today, operation.candidates)), operation.now,
                      Perform(s, operation).rows, recordId, dueDate, transactionId);
    } else if operation.ApplyMatch? {
      ApplyMatchKeepsRefusal(s, operation.recordId, operation.dueDate, operation.transactionId, operation.at, operation.known,
                             recordId, dueDate, transactionId);
    } else if operation.Remove? {
      RemoveHolds(s, operation.recordId);
      var row, after := RowFor(s.rows, recordId, dueDate).value, RemoveOn(s, operation.recordId).0.rows;
      if RemoveOn(s, operation.recordId).1 == Done {
        assert row in after;
        OneRowOfAKey(after, row, recordId, dueDate);
      }
    } else if operation.RejectMatch? {
      RejectKeepsRefusal(s, operation.recordId, operation.dueDate, operation.transactionId, recordId, dueDate, transactionId);
    } else if operation.Unmatch? {
      UnmatchKeepsRefusal(s, operation.recordId, operation.dueDate, recordId, dueDate, transactionId);
    } else if operation.Reschedule? {
      MovingKeepsRefusal(s, operation.recordId, operation.dueDate, operation.to, false, recordId, dueDate, transactionId);
    } else {
      MovingKeepsRefusal(s, operation.recordId, operation.dueDate, 0, operation.dismissed, recordId, dueDate, transactionId);
    }
  }

  lemma RejectKeepsRefusal(s: Store, r: string, d: int, t: string, recordId: string, dueDate: int, transactionId: string)
    requires Holds(s) && RefusedFor(s, recordId, dueDate, transactionId)
    ensures RefusedFor(RejectMatchOn(s, r, d, t).0, recordId, dueDate, transactionId)
  {
    StandingIs(s.rows, r, d);
    AddingKeepsRefusal(s, r, d, RejectedRow(Standing(s.rows, r, d), t), recordId, dueDate, transactionId);
  }

  lemma UnmatchKeepsRefusal(s: Store, r: string, d: int, recordId: string, dueDate: int, transactionId: string)
    requires Holds(s) && RefusedFor(s, recordId, dueDate, transactionId)
    ensures RefusedFor(UnmatchOn(s, r, d).0, recordId, dueDate, transactionId)
  {
    StandingIs(s.rows, r, d);
    AddingKeepsRefusal(s, r, d, Unmatched(Standing(s.rows, r, d)), recordId, dueDate, transactionId);
  }

  lemma MovingKeepsRefusal(s: Store, r: string, d: int, to: int, dismissed: bool, recordId: string, dueDate: int, transactionId: string)
    requires Holds(s) && RefusedFor(s, recordId, dueDate, transactionId)
    ensures RefusedFor(RescheduleOn(s, r, d, to).0, recordId, dueDate, transactionId)
    ensures RefusedFor(DismissOn(s, r, d, dismissed).0, recordId, dueDate, transactionId)
  {
    var standing := Standing(s.rows, r, d);
    StandingIs(s.rows, r, d);
    AddingKeepsRefusal(s, r, d, standing.(rescheduledTo := if to == d then None else Some(to)), recordId, dueDate, transactionId);
    AddingKeepsRefusal(s, r, d, standing.(dismissed := dismissed), recordId, dueDate, transactionId);
  }

  lemma RunKeepsRefusal(s: Store, proposals: seq<Proposal>, now: int, after: seq<Row>, recordId: string, dueDate: int, transactionId: string)
    requires RanFrom(s.rows, proposals, now, after) && RefusedFor(s, recordId, dueDate, transactionId)
    ensures RefusedFor(s.(rows := after), recordId, dueDate, transactionId)
  {
    if (recordId, dueDate) in AppliedKeys(proposals) {
      var p :| p in proposals && p.confident && KeyIn(p) == (recordId, dueDate);
      assert RowFor(after, recordId, dueDate) == Some(MatchedTo(Held(s.rows, KeyIn(p)), p.transactionId, now, Automatically));
    }
  }

  /** A pair a person has refused is never matched or offered again, through any
      sequence of operations, until that person matches the same pair or the
      record is removed. */
  lemma {:induction false} RefusalStands(s: Store, operations: seq<Operation>, recordId: string, dueDate: int, transactionId: string)
    requires Holds(s) && RefusedFor(s, recordId, dueDate, transactionId)
    requires forall operation :: operation in operations ==>
               FromTheLedger(operation) && !TakesBack(operation, recordId, dueDate, transactionId)
    ensures var after := PerformAll(s, operations);
      && RefusedFor(after, recordId, dueDate, transactionId)
      && (forall row :: row in after.rows && IsFor(row, recordId, dueDate) ==> row.matchedTransactionId != Some(transactionId))
    decreases |operations|
  {
    if operations == [] {
      forall row | row in s.rows && IsFor(row, recordId, dueDate) ensures row.matchedTransactionId != Some(transactionId) {
        OneRowOfAKey(s.rows, row, recordId, dueDate);
      }
    } else {
      assert operations[0] in operations;
      PerformHolds(s, operations[0]);
      RefusalSurvives(s, operations[0], recordId, dueDate, transactionId);
      RefusalStands(Perform(s, operations[0]), operations[1..], recordId, dueDate, transactionId);
    }
  }

  lemma RefusedIsNotOffered(s: Store, from: int, to: int, today: int, candidates: seq<Candidate>,
                            recordId: string, dueDate: int, transactionId: string)
    requires Holds(s) && DistinctCandidates(candidates) && RefusedFor(s, recordId, dueDate, transactionId)
    ensures forall p :: p in Proposals(MatchInput(s, from, to, today, candidates)) ==>
              !((p.recordId, p.dueDate) == (recordId, dueDate) && p.transactionId == transactionId)
  {
    var input := MatchInput(s, from, to, today, candidates);
    MatchInputIsWellFormed(s, from, to, today, candidates);
    ProposalsAreSound(input);
    RefusedInIsRejected(s.rows, recordId, dueDate);
    forall p | p in Proposals(input) && (p.recordId, p.dueDate) == (recordId, dueDate) ensures p.transactionId != transactionId {
      var one, candidate :| one in input.occurrences && IsProposalOf(input, Tally(input), one, candidate, p);
    }
  }

  /** Undoing a match leaves the occurrence unmatched, whoever made it, and gives
      the transaction back. Its row is as it was before the match exactly when it
      was unmatched and had not refused the transaction; and what the match taught
      the record is not undone, so the records are as they were exactly when there
      was nothing to learn. */
  lemma UnmatchUndoesApply(s: Store, recordId: string, dueDate: int, transactionId: string, now: int, known: seq<Candidate>)
    requires Holds(s) && OccurrenceFault(s, recordId, dueDate) == Done
    requires !TakenElsewhere(s.rows, recordId, dueDate, transactionId)
    ensures var key := (recordId, dueDate);
      var matched := ApplyMatchOn(s, recordId, dueDate, transactionId, now, known).0;
      var (undone, outcome) := UnmatchOn(matched, recordId, dueDate);
      var record := s.planned[FindRecord(s.planned, recordId).value];
      && Held(matched.rows, key).matchedTransactionId == Some(transactionId)
      && outcome == Done && Held(undone.rows, key).matchedTransactionId.None?
      && (forall r, d :: (r, d) != key ==> Held(undone.rows, (r, d)) == Held(s.rows, (r, d)))
      && (Held(undone.rows, key) == Held(s.rows, key)
          <==> Held(s.rows, key).matchedTransactionId.None? && transactionId !in Held(s.rows, key).rejected)
      && (undone.planned == s.planned <==> Learned(record, FindCandidate(known, transactionId)) == record)
  {
    var row, matched := MatchThenUnmatch(s, recordId, dueDate, transactionId, now, known);
    var standing := Standing(s.rows, recordId, dueDate);
    StandingHolds(s.rows, recordId, dueDate);
    StandingIs(s.rows, recordId, dueDate);
    PutLookup(s.rows, row, recordId, dueDate);
    UndoneIs(standing, transactionId, now);
    forall r, d ensures Held(UnmatchOn(matched, recordId, dueDate).0.rows, (r, d))
                        == if (r, d) == (recordId, dueDate) then Unmatched(row) else Held(s.rows, (r, d)) {
      PutTwice(s.rows, row, Unmatched(row), recordId, dueDate, (r, d));
    }
  }

  lemma MatchThenUnmatch(s: Store, recordId: string, dueDate: int, transactionId: string, now: int, known: seq<Candidate>)
    returns (row: Row, matched: Store)
    requires Holds(s) && OccurrenceFault(s, recordId, dueDate) == Done
    requires !TakenElsewhere(s.rows, recordId, dueDate, transactionId)
    ensures matched == ApplyMatchOn(s, recordId, dueDate, transactionId, now, known).0
    ensures var at, standing := FindRecord(s.planned, recordId).value, Standing(s.rows, recordId, dueDate);
      && row == MatchedTo(standing, transactionId, now, ByHand).(rejected := Without(standing.rejected, transactionId))
      && IsFor(row, recordId, dueDate)
      && matched.rows == Put(s.rows, row)
      && matched.planned == s.planned[at := Learned(s.planned[at], FindCandidate(known, transactionId))]
    ensures UnmatchOn(matched, recordId, dueDate) == (matched.(rows := Put(matched.rows, Unmatched(row))), Done)
  {
    matched := ApplyMatchOn(s, recordId, dueDate, transactionId, now, known).0;
    var standing := Standing(s.rows, recordId, dueDate);
    row := MatchedTo(standing, transactionId, now, ByHand).(rejected := Without(standing.rejected, transactionId));
    ApplyMatchHolds(s, recordId, dueDate, transactionId, now, known);
    StillOnDate(s, recordId, dueDate, FindCandidate(known, transactionId));
    StandingHolds(s.rows, recordId, dueDate);
    PutLookup(s.rows, row, recordId, dueDate);
    StandingIs(matched.rows, recordId, dueDate);
  }

  lemma UndoneIs(standing: Row, transactionId: string, now: int)
    requires RowHolds(standing)
    ensures var row := MatchedTo(standing, transactionId, now, ByHand).(rejected := Without(standing.rejected, transactionId));
      Unmatched(row) == standing <==> standing.matchedTransactionId.None? && transactionId !in standing.rejected
  {
    if transactionId !in standing.rejected {
      WithoutAbsent(standing.rejected, transactionId);
    }
  }

  lemma PutTwice(rows: seq<Row>, row: Row, back: Row, recordId: string, dueDate: int, key: OccurrenceKey)
    requires OneRowEach(rows) && IsFor(row, recordId, dueDate) && IsFor(back, recordId, dueDate)
    ensures Held(Put(Put(rows, row), back), key) == if key == (recordId, dueDate) then back else Held(rows, key)
  {
    PutLookup(rows, row, key.0, key.1);
    PutLookup(Put(rows, row), back, key.0, key.1);
  }

  lemma {:induction false} SameRhythm(a: PlannedRecord, b: PlannedRecord, index: nat, first: int, last: int)
    requires b == a.(counterpartyKey := b.counterpartyKey, mandateId := b.mandateId)
    ensures DatesFrom(b, index, first, last) == DatesFrom(a, index, first, last)
    decreases MAX_OCCURRENCES - index
  {
    if index < MAX_OCCURRENCES {
      SameRhythm(a, b, index + 1, first, last);
      assert RhythmDate(b, index) == RhythmDate(a, index);
    }
  }

  lemma SameDates(a: PlannedRecord, b: PlannedRecord, from: int, to: int)
    requires b == a.(counterpartyKey := b.counterpartyKey, mandateId := b.mandateId)
    ensures Dates(b, from, to) == Dates(a, from, to)
  {
    forall first, last ensures DatesFrom(b, 0, first, last) == DatesFrom(a, 0, first, last) {
      SameRhythm(a, b, 0, first, last);
    }
  }

  /** What a match teaches does not move the record's dates. */
  lemma StillOnDate(s: Store, recordId: string, dueDate: int, from: Option<Candidate>)
    requires Holds(s) && OccurrenceFault(s, recordId, dueDate) == Done
    ensures var at := FindRecord(s.planned, recordId).value;
      OccurrenceFault(s.(planned := s.planned[at := Learned(s.planned[at], from)]), recordId, dueDate) == Done
  {
    var at := FindRecord(s.planned, recordId).value;
    var record := s.planned[at];
    LearnedTeaches(record, from);
    LearnedHolds(s, at, Learned(record, from));
    FoundIs(s.planned[at := Learned(record, from)], at);
    SameDates(record, Learned(record, from), dueDate, dueDate);
  }

  lemma {:induction false} WithoutAbsent(rejected: seq<string>, transactionId: string)
    requires transactionId !in rejected
    ensures Without(rejected, transactionId) == rejected
  {
    if rejected != [] {
      WithoutAbsent(rejected[1..], transactionId);
    }
  }

  // --------------------------------------- what a person's change comes to

  /** The occurrence a person's operation is about. */
  function About(operation: Operation): Option<OccurrenceKey> {
    match operation
    case ApplyMatch(recordId, dueDate, _, _, _) => Some((recordId, dueDate))
    case RejectMatch(recordId, dueDate, _) => Some((recordId, dueDate))
    case Unmatch(recordId, dueDate) => Some((recordId, dueDate))
    case Reschedule(recordId, dueDate, _) => Some((recordId, dueDate))
    case Dismiss(recordId, dueDate, _) => Some((recordId, dueDate))
    case _ => None
  }

  lemma PutElsewhere(rows: seq<Row>, row: Row, recordId: string, dueDate: int, key: OccurrenceKey)
    requires OneRowEach(rows) && IsFor(row, recordId, dueDate)
    ensures Held(Put(rows, row), key) == if key == (recordId, dueDate) then row else Held(rows, key)
  {
    PutLookup(rows, row, key.0, key.1);
  }

  lemma MatchLeavesOthers(s: Store, recordId: string, dueDate: int, transactionId: string, at: int, known: seq<Candidate>, key: OccurrenceKey)
    requires Holds(s) && key != (recordId, dueDate)
    ensures Held(ApplyMatchOn(s, recordId, dueDate, transactionId, at, known).0.rows, key) == Held(s.rows, key)
  {
    var standing := Standing(s.rows, recordId, dueDate);
    StandingHolds(s.rows, recordId, dueDate);
    PutElsewhere(s.rows, MatchedTo(standing, transactionId, at, ByHand).(rejected := Without(standing.rejected, transactionId)),
                 recordId, dueDate, key);
  }

  /** A decision about one occurrence leaves the decision about every other. */
  lemma OthersAreLeftAlone(s: Store, operation: Operation, key: OccurrenceKey)
    requires Holds(s) && About(operation).Some? && About(operation) != Some(key)
    ensures Held(Perform(s, operation).rows, key) == Held(s.rows, key)
  {
    match operation
    case ApplyMatch(recordId, dueDate, transactionId, at, known) =>
      MatchLeavesOthers(s, recordId, dueDate, transactionId, at, known, key);
    case RejectMatch(recordId, dueDate, transactionId) => RejectLeavesOthers(s, recordId, dueDate, transactionId, key);
    case Unmatch(recordId, dueDate) => UnmatchLeavesOthers(s, recordId, dueDate, key);
    case Reschedule(recordId, dueDate, to) => MovingLeavesOthers(s, recordId, dueDate, to, key);
    case Dismiss(recordId, dueDate, dismissed) => DismissingLeavesOthers(s, recordId, dueDate, dismissed, key);
  }

  lemma RejectLeavesOthers(s: Store, recordId: string, dueDate: int, transactionId: string, key: OccurrenceKey)
    requires Holds(s) && key != (recordId, dueDate)
    ensures Held(RejectMatchOn(s, recordId, dueDate, transactionId).0.rows, key) == Held(s.rows, key)
  {
    StandingHolds(s.rows, recordId, dueDate);
    PutElsewhere(s.rows, RejectedRow(Standing(s.rows, recordId, dueDate), transactionId), recordId, dueDate, key);
  }

  lemma UnmatchLeavesOthers(s: Store, recordId: string, dueDate: int, key: OccurrenceKey)
    requires Holds(s) && key != (recordId, dueDate)
    ensures Held(UnmatchOn(s, recordId, dueDate).0.rows, key) == Held(s.rows, key)
  {
    StandingHolds(s.rows, recordId, dueDate);
    PutElsewhere(s.rows, Unmatched(Standing(s.rows, recordId, dueDate)), recordId, dueDate, key);
  }

  lemma MovingLeavesOthers(s: Store, recordId: string, dueDate: int, to: int, key: OccurrenceKey)
    requires Holds(s) && key != (recordId, dueDate)
    ensures Held(RescheduleOn(s, recordId, dueDate, to).0.rows, key) == Held(s.rows, key)
  {
    var standing := Standing(s.rows, recordId, dueDate);
    StandingHolds(s.rows, recordId, dueDate);
    PutElsewhere(s.rows, standing.(rescheduledTo := if to == dueDate then None else Some(to)), recordId, dueDate, key);
  }

  lemma DismissingLeavesOthers(s: Store, recordId: string, dueDate: int, dismissed: bool, key: OccurrenceKey)
    requires Holds(s) && key != (recordId, dueDate)
    ensures Held(DismissOn(s, recordId, dueDate, dismissed).0.rows, key) == Held(s.rows, key)
  {
    var standing := Standing(s.rows, recordId, dueDate);
    StandingHolds(s.rows, recordId, dueDate);
    PutElsewhere(s.rows, standing.(dismissed := dismissed), recordId, dueDate, key);
  }

  /** How the occurrence reads in the plan after a change to its row. */
  lemma ReadsAs(s: Store, record: PlannedRecord, dueDate: int, row: Row, today: int)
    requires Holds(s) && IsFor(row, record.id, dueDate)
    ensures OccurrenceOn(record, RowFor(Put(s.rows, row), record.id, dueDate), dueDate, today)
            == OccurrenceOn(record, Some(row), dueDate, today)
  {
    PutLookup(s.rows, row, record.id, dueDate);
  }

  /** Moved, an occurrence is expected on the day it was moved to, its own day
      included; moved there and back it is as it was exactly if it had not been
      moved before. */
  lemma ReschedulingMoves(s: Store, record: PlannedRecord, dueDate: int, to: int, today: int)
    requires Holds(s) && record in s.planned && OccurrenceFault(s, record.id, dueDate) == Done
    ensures var after := RescheduleOn(s, record.id, dueDate, to).0;
      && OccurrenceOn(record, RowFor(after.rows, record.id, dueDate), dueDate, today).effectiveDate == to
      && (Held(RescheduleOn(after, record.id, dueDate, dueDate).0.rows, (record.id, dueDate)) == Held(s.rows, (record.id, dueDate))
          <==> Held(s.rows, (record.id, dueDate)).rescheduledTo.None?)
  {
    var standing := Standing(s.rows, record.id, dueDate);
    var row := standing.(rescheduledTo := if to == dueDate then None else Some(to));
    StandingHolds(s.rows, record.id, dueDate);
    StandingIs(s.rows, record.id, dueDate);
    ReadsAs(s, record, dueDate, row, today);
    ThereAndBack(s.rows, row, row.(rescheduledTo := None), (record.id, dueDate));
  }

  lemma ThereAndBack(rows: seq<Row>, row: Row, back: Row, key: OccurrenceKey)
    requires OneRowEach(rows) && IsFor(row, key.0, key.1) && IsFor(back, key.0, key.1)
    ensures OneRowEach(Put(rows, row)) && Standing(Put(rows, row), key.0, key.1) == row
    ensures Held(Put(Put(rows, row), back), key) == back
  {
    PutLookup(rows, row, key.0, key.1);
    StandingIs(Put(rows, row), key.0, key.1);
    PutLookup(Put(rows, row), back, key.0, key.1);
  }

  /** Dismissed, an occurrence reads as struck, matched or moved or not; the strike
      taken back it is as it was exactly if it had not been struck before. */
  lemma DismissingStrikes(s: Store, record: PlannedRecord, dueDate: int, today: int)
    requires Holds(s) && record in s.planned && OccurrenceFault(s, record.id, dueDate) == Done
    ensures var after := DismissOn(s, record.id, dueDate, true).0;
      && OccurrenceOn(record, RowFor(after.rows, record.id, dueDate), dueDate, today).state.Struck?
      && (Held(DismissOn(after, record.id, dueDate, false).0.rows, (record.id, dueDate)) == Held(s.rows, (record.id, dueDate))
          <==> !Held(s.rows, (record.id, dueDate)).dismissed)
  {
    var standing := Standing(s.rows, record.id, dueDate);
    var row := standing.(dismissed := true);
    StandingHolds(s.rows, record.id, dueDate);
    StandingIs(s.rows, record.id, dueDate);
    ReadsAs(s, record, dueDate, row, today);
    ThereAndBack(s.rows, row, row.(dismissed := false), (record.id, dueDate));
  }

  ghost predicate Teaches(was: PlannedRecord, now: PlannedRecord, found: Option<Candidate>) {
    && now.(counterpartyKey := was.counterpartyKey, mandateId := was.mandateId) == was
    && (was.counterpartyKey.Some? || found.None? ==> now == was)
    && (was.counterpartyKey.None? && found.Some? ==>
          && now.counterpartyKey == (if IsGiven(found.value.counterpartyKey) then found.value.counterpartyKey else None)
          && now.mandateId == if was.mandateId.Some? || !IsGiven(found.value.mandateId) then was.mandateId else found.value.mandateId)
  }

  lemma LearnedTeaches(was: PlannedRecord, found: Option<Candidate>)
    ensures Teaches(was, Learned(was, found), found)
  {
  }

  lemma FoundIs(planned: seq<PlannedRecord>, i: nat)
    requires i < |planned| && forall i, j :: 0 <= i < j < |planned| ==> planned[i].id != planned[j].id
    ensures FindRecord(planned, planned[i].id) == Some(i)
  {
    var at := FindRecord(planned, planned[i].id);
    assert planned[i] in planned;
  }

  /** A person's match teaches a record without a counterparty whose it is, and
      changes nothing else of it and nothing of any other record. */
  lemma MatchingTeaches(s: Store, recordId: string, dueDate: int, transactionId: string, now: int, known: seq<Candidate>, i: nat)
    requires Holds(s) && i < |s.planned|
    ensures var (after, outcome) := ApplyMatchOn(s, recordId, dueDate, transactionId, now, known);
      && |after.planned| == |s.planned|
      && if outcome == Done && s.planned[i].id == recordId
         then Teaches(s.planned[i], after.planned[i], FindCandidate(known, transactionId))
         else after.planned[i] == s.planned[i]
  {
    FoundIs(s.planned, i);
    LearnedTeaches(s.planned[i], FindCandidate(known, transactionId));
  }
}
