/** Requests that read the store, await, and write back what they had read
    (ayq-plan.ts, ayq-camt-import.ts, ayq-rules.ts, ayq-bulk.ts): what happens when
    others write in between. What they write back is the whole store: the plan and
    its decisions, the stated figures, the aliases, rules and names. The steps are
    the stretches between two awaits, as in `Gate`, which lets such requests share. */
module Overlap {
  import opened Lists
  import opened Recurrence
  import opened Matching
  import opened MatchingLaws
  import opened Decisions
  import opened DecisionLaws
  import opened SeriesDetection
  import Aliases
  import Anchors

  type Task = nat
  type Figure = Anchors.Anchor
  type Reading = Anchors.Reading
  type Alias = Aliases.Alias
  type Book = Aliases.Book
  type AliasEdit = Aliases.Operation

  /** What awaits between reading the store and writing it: a run looks up its
      candidates, a person's match what it may learn, a withdrawal the history.
      Filing is an import's first part, applying the rules or the classification,
      and filing one counterparty or many transactions: it decides categories and
      provenance only, but writes back all of the store it had read. */
  datatype Request =
    | Running(today: int, now: int, candidates: seq<Candidate>)
    | Taking(recordId: string, dueDate: int, transactionId: string, at: int, known: seq<Candidate>)
    | Withdrawing(series: seq<Series>)
    | Filing(writes: bool)

  datatype Whole = Whole(plan: Store, anchors: seq<Figure>, book: Book)

  datatype Pending = Pending(read: Whole, request: Request)

  datatype World = World(store: Whole, pending: map<Task, Pending>)

  /** All but `Read` and `Write` read and write in one stretch. `Save` is a record
      typed, edited or offered, `StateFigure` a balance its owner states, and
      `StateFigures` the second part of an import. */
  datatype Step =
    | Do(operation: Operation)
    | SetState(recordId: string, state: PlanState, today: int)
    | Save(record: PlannedRecord)
    | StateFigure(anchor: Figure)
    | StateFigures(accountId: string, stated: seq<Reading>, readAt: int)
    | Edit(edit: AliasEdit)
    | Read(task: Task, request: Request)
    | Write(task: Task)

  /** What a request makes of the plan it had read, if it writes at all. */
  function Made(read: Store, request: Request): Option<Store> {
    match request
    case Running(today, now, candidates) =>
      var run := RunOn(read, today, now, candidates);
      if run.applied > 0 then Some(run.store) else None
    case Taking(recordId, dueDate, transactionId, at, known) =>
      var (after, outcome) := ApplyMatchOn(read, recordId, dueDate, transactionId, at, known);
      if outcome == Done then Some(after) else None
    case Withdrawing(series) =>
      var judged := AllJudged(read.planned, series);
      if judged != read.planned then Some(read.(planned := judged)) else None
    case Filing(writes) => if writes then Some(read) else None
  }

  /** What it writes over the store: what it made of the plan, and the rest as it
      had read it. */
  function Written(pending: Pending): Option<Whole> {
    var made := Made(pending.read.plan, pending.request);
    if made.None? then None else Some(pending.read.(plan := made.value))
  }

  /** Confirmed, a record is a person's, and keeps the day it first was. */
  function Stated(record: PlannedRecord, state: PlanState, today: int): PlannedRecord {
    var now := record.(state := state);
    if !state.Confirmed? then now
    else now.(provenance := Provenance.Manual, confirmedAt := if now.confirmedAt.Some? then now.confirmedAt else Some(today))
  }

  function SetStateOn(s: Store, recordId: string, state: PlanState, today: int): Store {
    var at := FindRecord(s.planned, recordId);
    if at.None? then s
    else s.(planned := s.planned[at.value := Stated(s.planned[at.value], state, today)])
  }

  function SaveOn(s: Store, record: PlannedRecord): Store {
    var at := FindRecord(s.planned, record.id);
    s.(planned := if at.None? then s.planned + [record] else s.planned[at.value := record])
  }

  /** A person's match awaits only when there may be something to learn. */
  predicate InOneStretch(s: Store, operation: Operation) {
    match operation
    case Run(_, _, _) => false
    case ApplyMatch(recordId, _, _, _, _) =>
      var at := FindRecord(s.planned, recordId);
      at.None? || s.planned[at.value].counterpartyKey.Some? || ApplyMatchOn(s, recordId, operation.dueDate, operation.transactionId, operation.at, operation.known).1 != Done
    case _ => true
  }

  predicate Possible(w: World, step: Step) {
    match step
    case Do(operation) => InOneStretch(w.store.plan, operation)
    case Read(task, _) => task !in w.pending
    case Write(task) => task in w.pending
    case _ => true
  }

  /** What a step that reads and writes in one stretch makes of the store. */
  function Decided(store: Whole, step: Step): Whole {
    match step
    case Do(operation) => store.(plan := Perform(store.plan, operation))
    case SetState(recordId, state, today) => store.(plan := SetStateOn(store.plan, recordId, state, today))
    case Save(record) => store.(plan := SaveOn(store.plan, record))
    case StateFigure(anchor) => store.(anchors := store.anchors + [anchor])
    case StateFigures(accountId, stated, readAt) =>
      store.(anchors := Anchors.WithStated(store.anchors, accountId, stated, readAt))
    case Edit(edit) => store.(book := Aliases.Perform(store.book, edit))
    case _ => store
  }

  function Next(w: World, step: Step): World
    requires Possible(w, step)
  {
    match step
    case Read(task, request) => w.(pending := w.pending[task := Pending(w.store, request)])
    case Write(task) => World(Written(w.pending[task]).GetOr(w.store), w.pending - {task})
    case _ => w.(store := Decided(w.store, step))
  }

  ghost predicate Runs(w: World, steps: seq<Step>, after: World)
    decreases |steps|
  {
    if steps == [] then after == w
    else Possible(w, steps[0]) && Runs(Next(w, steps[0]), steps[1..], after)
  }

  ghost predicate IsFromTheLedger(request: Request) {
    request.Running? ==> DistinctCandidates(request.candidates)
  }

  /** Candidates have distinct ids, and a saved record starts on a real day. */
  ghost predicate IsGiven(step: Step) {
    && (step.Read? ==> IsFromTheLedger(step.request))
    && (step.Save? ==> Dated(step.record))
  }

  // -------------------------------------------------- what always holds

  /** What is stored is sound, and so is all that may yet be written over it. */
  ghost predicate IsSound(store: Whole) {
    Holds(store.plan) && Aliases.Flat(store.book.aliases) && Aliases.OneRuleEach(store.book.rules)
  }

  ghost predicate Sound(w: World) {
    IsSound(w.store) && forall task :: task in w.pending ==> IsSound(w.pending[task].read) && IsFromTheLedger(w.pending[task].request)
  }

  lemma RecordsChanged(s: Store, planned: seq<PlannedRecord>)
    requires Holds(s) && |planned| == |s.planned|
    requires forall i :: 0 <= i < |planned| ==> planned[i].id == s.planned[i].id && planned[i].startDate == s.planned[i].startDate
    ensures Holds(s.(planned := planned))
  {
    forall record | record in planned ensures Dated(record) {
      var i :| 0 <= i < |planned| && planned[i] == record;
      assert s.planned[i] in s.planned;
    }
    forall row | row in s.rows ensures exists record :: record in planned && record.id == row.recordId {
      var was :| was in s.planned && was.id == row.recordId;
      var i :| 0 <= i < |s.planned| && s.planned[i] == was;
      assert planned[i] in planned;
    }
  }

  lemma MadeHolds(read: Store, request: Request)
    requires Holds(read) && IsFromTheLedger(request)
    ensures Made(read, request).Some? ==> Holds(Made(read, request).value)
  {
    match request
    case Running(today, now, candidates) =>
      RunHolds(read, EarliestOf(read.planned, today), Horizon(today), today, now, candidates);
    case Taking(recordId, dueDate, transactionId, at, known) => ApplyMatchHolds(read, recordId, dueDate, transactionId, at, known);
    case Withdrawing(series) => RecordsChanged(read, AllJudged(read.planned, series));
    case Filing(_) =>
  }

  lemma SavingHolds(s: Store, record: PlannedRecord)
    requires Holds(s) && Dated(record)
    ensures Holds(SaveOn(s, record))
  {
    var at := FindRecord(s.planned, record.id);
    if at.None? {
      NotFoundIsNew(s, record);
    } else {
      SavedOver(s, at.value, record);
    }
  }

  lemma NotFoundIsNew(s: Store, record: PlannedRecord)
    requires Holds(s) && Dated(record) && FindRecord(s.planned, record.id).None?
    ensures Holds(s.(planned := s.planned + [record]))
  {
    var planned := s.planned + [record];
    forall i, j | 0 <= i < j < |planned| ensures planned[i].id != planned[j].id {
      assert planned[i] in s.planned;
    }
    forall row | row in s.rows ensures exists one :: one in planned && one.id == row.recordId {
      var was :| was in s.planned && was.id == row.recordId;
      assert was in planned;
    }
  }

  lemma SavedOver(s: Store, at: nat, record: PlannedRecord)
    requires Holds(s) && Dated(record) && at < |s.planned| && s.planned[at].id == record.id
    ensures Holds(s.(planned := s.planned[at := record]))
  {
    var planned := s.planned[at := record];
    forall row | row in s.rows ensures exists one :: one in planned && one.id == row.recordId {
      var was :| was in s.planned && was.id == row.recordId;
      var i :| 0 <= i < |s.planned| && s.planned[i] == was;
      assert planned[i] in planned;
    }
  }

  lemma DecidedIsSound(store: Whole, step: Step)
    requires IsSound(store) && IsGiven(step) && (step.Do? ==> !step.operation.Run?)
    ensures IsSound(Decided(store, step))
  {
    match step
    case Do(operation) => PerformHolds(store.plan, operation);
    case SetState(recordId, state, today) =>
      RecordsChanged(store.plan, SetStateOn(store.plan, recordId, state, today).planned);
    case Save(record) => SavingHolds(store.plan, record);
    case Edit(edit) => Aliases.PerformKeepsOrder(store.book, edit);
    case _ =>
  }

  lemma NextIsSound(w: World, step: Step)
    requires Sound(w) && Possible(w, step) && IsGiven(step)
    ensures Sound(Next(w, step))
  {
    if step.Write? {
      MadeHolds(w.pending[step.task].read.plan, w.pending[step.task].request);
    } else {
      DecidedIsSound(w.store, step);
    }
  }

  /** Over every interleaving the store stays sound: one row an occurrence, one
      match a transaction, match, moment and provenance together; aliases that
      lead to no alias, and one rule a counterparty. */
  lemma {:induction false} EveryInterleavingHolds(w: World, steps: seq<Step>, after: World)
    requires Sound(w) && Runs(w, steps, after)
    requires forall step :: step in steps ==> IsGiven(step)
    ensures Sound(after)
    decreases |steps|
  {
    if steps != [] {
      assert steps[0] in steps;
      NextIsSound(w, steps[0]);
      EveryInterleavingHolds(Next(w, steps[0]), steps[1..], after);
    }
  }

  // --------------------------------------------- a request that is not disturbed

  /** The operation a request is when nothing comes between. */
  function AtOnce(s: Store, request: Request): Store {
    match request
    case Running(today, now, candidates) => RunOn(s, today, now, candidates).store
    case Taking(recordId, dueDate, transactionId, at, known) => ApplyMatchOn(s, recordId, dueDate, transactionId, at, known).0
    case Withdrawing(series) => s.(planned := AllJudged(s.planned, series))
    case Filing(_) => s
  }

  /** Undisturbed, a request is one step of `Decisions`, or of `SeriesDetection`,
      and filing decides nothing. */
  lemma UndisturbedIsAtOnce(w: World, task: Task)
    requires task in w.pending && w.pending[task].read == w.store
    ensures Next(w, Write(task)).store == w.store.(plan := AtOnce(w.store.plan, w.pending[task].request))
  {
    MadeIsAtOnce(w.store.plan, w.pending[task].request);
  }

  lemma MadeIsAtOnce(s: Store, request: Request)
    ensures Made(s, request).GetOr(s) == AtOnce(s, request)
  {
    match request
    case Running(today, now, candidates) => NothingAppliedIsNothing(s, today, now, candidates);
    case Taking(recordId, dueDate, transactionId, at, known) => NotDoneIsNothing(s, recordId, dueDate, transactionId, at, known);
    case Withdrawing(_) =>
    case Filing(_) =>
  }

  lemma NothingAppliedIsNothing(s: Store, today: int, now: int, candidates: seq<Candidate>)
    ensures RunOn(s, today, now, candidates).applied == 0 ==> RunOn(s, today, now, candidates).store == s
  {
  }

  lemma NotDoneIsNothing(s: Store, recordId: string, dueDate: int, transactionId: string, at: int, known: seq<Candidate>)
    ensures var (after, outcome) := ApplyMatchOn(s, recordId, dueDate, transactionId, at, known); outcome != Done ==> after == s
  {
  }

  // ------------------------------------------------- what a late write leaves

  function Takes(request: Request, recordId: string, dueDate: int, transactionId: string): bool {
    request.Taking? && request.recordId == recordId && request.dueDate == dueDate && request.transactionId == transactionId
  }

  lemma MadeRefuses(read: Store, request: Request, recordId: string, dueDate: int, transactionId: string)
    requires Holds(read) && IsFromTheLedger(request) && Made(read, request).Some?
    ensures RefusedFor(Made(read, request).value, recordId, dueDate, transactionId)
            <==> RefusedFor(read, recordId, dueDate, transactionId) && !Takes(request, recordId, dueDate, transactionId)
  {
    match request
    case Running(today, now, candidates) =>
      var from, to := EarliestOf(read.planned, today), Horizon(today);
      RunHolds(read, from, to, today, now, candidates);
      RunRefuses(read, Proposals(MatchInput(read, from, to, today, candidates)), now, RunOn(read, today, now, candidates).store.rows,
                 recordId, dueDate, transactionId);
    case Taking(r, d, t, at, known) => TakingRefuses(read, r, d, t, at, known, recordId, dueDate, transactionId);
    case Withdrawing(_) =>
    case Filing(_) =>
  }

  lemma RunRefuses(s: Store, proposals: seq<Proposal>, now: int, after: seq<Row>, recordId: string, dueDate: int, transactionId: string)
    requires RanFrom(s.rows, proposals, now, after)
    ensures RefusedFor(s.(rows := after), recordId, dueDate, transactionId) <==> RefusedFor(s, recordId, dueDate, transactionId)
  {
    if (recordId, dueDate) in AppliedKeys(proposals) {
      var p :| p in proposals && p.confident && KeyIn(p) == (recordId, dueDate);
      assert RowFor(after, recordId, dueDate) == Some(MatchedTo(Held(s.rows, KeyIn(p)), p.transactionId, now, Automatically));
    }
  }

  lemma TakingRefuses(s: Store, r: string, d: int, t: string, at: int, known: seq<Candidate>, recordId: string, dueDate: int, transactionId: string)
    requires Holds(s) && ApplyMatchOn(s, r, d, t, at, known).1 == Done
    ensures RefusedFor(ApplyMatchOn(s, r, d, t, at, known).0, recordId, dueDate, transactionId)
            <==> RefusedFor(s, recordId, dueDate, transactionId) && !((r, d, t) == (recordId, dueDate, transactionId))
  {
    var standing := Standing(s.rows, r, d);
    var row := MatchedTo(standing, t, at, ByHand).(rejected := Without(standing.rejected, t));
    StandingHolds(s.rows, r, d);
    StandingIs(s.rows, r, d);
    PutLookup(s.rows, row, recordId, dueDate);
  }

  /** A refusal survives a request that writes late exactly when the request
      writes nothing, or had read the refusal and does not take it back. */
  lemma ARefusalSurvives(w: World, task: Task, recordId: string, dueDate: int, transactionId: string)
    requires Sound(w) && task in w.pending && RefusedFor(w.store.plan, recordId, dueDate, transactionId)
    ensures var pending := w.pending[task];
      RefusedFor(Next(w, Write(task)).store.plan, recordId, dueDate, transactionId)
      <==> Made(pending.read.plan, pending.request).None?
           || (RefusedFor(pending.read.plan, recordId, dueDate, transactionId) && !Takes(pending.request, recordId, dueDate, transactionId))
  {
    var pending := w.pending[task];
    if Made(pending.read.plan, pending.request).Some? {
      MadeRefuses(pending.read.plan, pending.request, recordId, dueDate, transactionId);
    }
  }

  /** Any other decision of a person about an occurrence survives a late run
      exactly when the run writes nothing, or had read it and matches another. */
  lemma ADecisionSurvivesARun(w: World, task: Task, read: Whole, today: int, now: int, candidates: seq<Candidate>, key: OccurrenceKey)
    requires Holds(read.plan) && DistinctCandidates(candidates)
    requires task in w.pending && w.pending[task] == Pending(read, Running(today, now, candidates))
    requires Held(w.store.plan.rows, key).matchProvenance != Some(Automatically)
    ensures var plan := read.plan;
      var applied := AppliedKeys(Proposals(MatchInput(plan, EarliestOf(plan.planned, today), Horizon(today), today, candidates)));
      Held(Next(w, Write(task)).store.plan.rows, key) == Held(w.store.plan.rows, key)
      <==> RunOn(plan, today, now, candidates).applied == 0
           || (key !in applied && Held(plan.rows, key) == Held(w.store.plan.rows, key))
  {
    var plan := read.plan;
    WhatARunDecides(plan, EarliestOf(plan.planned, today), Horizon(today), today, now, candidates, key);
    ARunWrites(w, task, read, today, now, candidates);
  }

  lemma ARunWrites(w: World, task: Task, read: Whole, today: int, now: int, candidates: seq<Candidate>)
    requires task in w.pending && w.pending[task] == Pending(read, Running(today, now, candidates))
    ensures var run := RunOn(read.plan, today, now, candidates);
      Next(w, Write(task)).store == if run.applied > 0 then read.(plan := run.store) else w.store
  {
  }

  lemma WhatARunDecides(read: Store, from: int, to: int, today: int, now: int, candidates: seq<Candidate>, key: OccurrenceKey)
    requires Holds(read) && DistinctCandidates(candidates)
    ensures var held := Held(RunIn(read, from, to, today, now, candidates).store.rows, key);
      if key in AppliedKeys(Proposals(MatchInput(read, from, to, today, candidates)))
      then held.matchProvenance == Some(Automatically) else held == Held(read.rows, key)
  {
    RunHolds(read, from, to, today, now, candidates);
    WhatRanDecides(read.rows, Proposals(MatchInput(read, from, to, today, candidates)), now,
                   RunIn(read, from, to, today, now, candidates).store.rows, key);
  }

  lemma WhatRanDecides(rows: seq<Row>, proposals: seq<Proposal>, now: int, after: seq<Row>, key: OccurrenceKey)
    requires RanFrom(rows, proposals, now, after)
    ensures if key in AppliedKeys(proposals) then Held(after, key).matchProvenance == Some(Automatically)
            else Held(after, key) == Held(rows, key)
  {
    if key in AppliedKeys(proposals) {
      var p :| p in proposals && p.confident && KeyIn(p) == key;
      assert RowFor(after, key.0, key.1) == Some(MatchedTo(Held(rows, key), p.transactionId, now, Automatically));
    }
  }

  /** And a decision about another occurrence survives a late match of one
      exactly when the match was refused, or had read that decision. */
  lemma ADecisionSurvivesAMatch(w: World, task: Task, read: Whole, recordId: string, dueDate: int, transactionId: string,
                                at: int, known: seq<Candidate>, key: OccurrenceKey)
    requires Holds(read.plan) && key != (recordId, dueDate)
    requires task in w.pending && w.pending[task] == Pending(read, Taking(recordId, dueDate, transactionId, at, known))
    ensures Held(Next(w, Write(task)).store.plan.rows, key) == Held(w.store.plan.rows, key)
            <==> ApplyMatchOn(read.plan, recordId, dueDate, transactionId, at, known).1 != Done
                 || Held(read.plan.rows, key) == Held(w.store.plan.rows, key)
  {
    MatchLeavesOthers(read.plan, recordId, dueDate, transactionId, at, known, key);
    AMatchWrites(w, task, read, recordId, dueDate, transactionId, at, known);
  }

  lemma AMatchWrites(w: World, task: Task, read: Whole, recordId: string, dueDate: int, transactionId: string, at: int, known: seq<Candidate>)
    requires task in w.pending && w.pending[task] == Pending(read, Taking(recordId, dueDate, transactionId, at, known))
    ensures var (after, outcome) := ApplyMatchOn(read.plan, recordId, dueDate, transactionId, at, known);
      Next(w, Write(task)).store == if outcome == Done then read.(plan := after) else w.store
  {
  }

  /** A record a person has confirmed, typed or dismissed survives a late
      withdrawal exactly when nothing is withdrawn, or it had been read so. */
  lemma ARecordSurvivesAWithdrawal(w: World, task: Task, record: PlannedRecord)
    requires task in w.pending && w.pending[task].request.Withdrawing?
    requires record in w.store.plan.planned && !IsOffer(record) && !record.state.Retired?
    ensures var Pending(read, Withdrawing(series)) := w.pending[task];
      record in Next(w, Write(task)).store.plan.planned
      <==> AllJudged(read.plan.planned, series) == read.plan.planned || record in read.plan.planned
  {
    var Pending(read, Withdrawing(series)) := w.pending[task];
    var planned := read.plan.planned;
    var judged := AllJudged(planned, series);
    if record in judged {
      var i :| 0 <= i < |judged| && judged[i] == record;
      assert planned[i] in planned;
    }
    if record in planned {
      var i :| 0 <= i < |planned| && planned[i] == record;
      assert judged[i] in judged;
    }
  }

  /** Whatever was decided survives filing that ends late exactly when there was
      nothing to file, or the decision had been read. */
  lemma ADecisionSurvivesFiling(w: World, task: Task, writes: bool, key: OccurrenceKey, record: PlannedRecord)
    requires task in w.pending && w.pending[task].request == Filing(writes)
    ensures var now, read, after := w.store.plan, w.pending[task].read.plan, Next(w, Write(task)).store.plan;
      && (Held(after.rows, key) == Held(now.rows, key) <==> !writes || Held(read.rows, key) == Held(now.rows, key))
      && (record in now.planned ==> (record in after.planned <==> !writes || record in read.planned))
  {
    var pending := w.pending[task];
    assert Made(pending.read.plan, pending.request) == if writes then Some(pending.read.plan) else None;
  }

  // ------------------------------------------------------ whole interleavings

  /** No request writes over a refusal it had not read, or takes it back late. */
  ghost predicate NothingWritesOver(w: World, steps: seq<Step>, recordId: string, dueDate: int, transactionId: string)
    decreases |steps|
  {
    steps == []
    || (Possible(w, steps[0])
        && (steps[0].Write? ==>
              var pending := w.pending[steps[0].task];
              || Made(pending.read.plan, pending.request).None?
              || (RefusedFor(pending.read.plan, recordId, dueDate, transactionId) && !Takes(pending.request, recordId, dueDate, transactionId)))
        && NothingWritesOver(Next(w, steps[0]), steps[1..], recordId, dueDate, transactionId))
  }

  /** Refused from here on, after every step. */
  ghost predicate StaysRefused(w: World, steps: seq<Step>, recordId: string, dueDate: int, transactionId: string)
    decreases |steps|
  {
    && RefusedFor(w.store.plan, recordId, dueDate, transactionId)
    && (steps == [] || (Possible(w, steps[0]) && StaysRefused(Next(w, steps[0]), steps[1..], recordId, dueDate, transactionId)))
  }

  /** Over every interleaving in which nobody takes it back in one stretch, a
      refusal stands throughout exactly when nothing writes over it. */
  lemma {:induction false} RefusalStandsUnlessWrittenOver(w: World, steps: seq<Step>, after: World,
                                                         recordId: string, dueDate: int, transactionId: string)
    requires Sound(w) && Runs(w, steps, after) && RefusedFor(w.store.plan, recordId, dueDate, transactionId)
    requires forall step :: step in steps ==>
               IsGiven(step) && (step.Do? ==> !TakesBack(step.operation, recordId, dueDate, transactionId))
    ensures StaysRefused(w, steps, recordId, dueDate, transactionId) <==> NothingWritesOver(w, steps, recordId, dueDate, transactionId)
    decreases |steps|
  {
    if steps != [] {
      assert steps[0] in steps;
      NextIsSound(w, steps[0]);
      OneStepRefuses(w, steps[0], recordId, dueDate, transactionId);
      if RefusedFor(Next(w, steps[0]).store.plan, recordId, dueDate, transactionId) {
        RefusalStandsUnlessWrittenOver(Next(w, steps[0]), steps[1..], after, recordId, dueDate, transactionId);
      }
    }
  }

  lemma OneStepRefuses(w: World, step: Step, recordId: string, dueDate: int, transactionId: string)
    requires Sound(w) && Possible(w, step) && IsGiven(step) && RefusedFor(w.store.plan, recordId, dueDate, transactionId)
    requires step.Do? ==> !TakesBack(step.operation, recordId, dueDate, transactionId)
    ensures RefusedFor(Next(w, step).store.plan, recordId, dueDate, transactionId)
            <==> (step.Write? ==>
                    var pending := w.pending[step.task];
                    || Made(pending.read.plan, pending.request).None?
                    || (RefusedFor(pending.read.plan, recordId, dueDate, transactionId) && !Takes(pending.request, recordId, dueDate, transactionId)))
  {
    match step
    case Do(operation) => RefusalSurvives(w.store.plan, operation, recordId, dueDate, transactionId);
    case Write(task) => ARefusalSurvives(w, task, recordId, dueDate, transactionId);
    case _ =>
  }

  // -------------------------------------- what is no request's to decide

  /** One fact about the store, and the steps that never undo it. */
  ghost predicate Leaves(fact: Whole -> bool, step: Step) {
    forall store: Whole :: fact(store) ==> fact(Decided(store, step))
  }

  /** No request writes back a store of which the fact was not so. */
  ghost predicate NoneWritesWithout(fact: Whole -> bool, w: World, steps: seq<Step>)
    decreases |steps|
  {
    steps == []
    || (Possible(w, steps[0])
        && (steps[0].Write? ==>
              var written := Written(w.pending[steps[0].task]); written.None? || fact(written.value))
        && NoneWritesWithout(fact, Next(w, steps[0]), steps[1..]))
  }

  ghost predicate StaysSo(fact: Whole -> bool, w: World, steps: seq<Step>)
    decreases |steps|
  {
    && fact(w.store)
    && (steps == [] || (Possible(w, steps[0]) && StaysSo(fact, Next(w, steps[0]), steps[1..])))
  }

  lemma {:induction false} StandsUnlessWrittenOver(fact: Whole -> bool, w: World, steps: seq<Step>, after: World)
    requires Runs(w, steps, after) && fact(w.store)
    requires forall step :: step in steps ==> Leaves(fact, step)
    ensures StaysSo(fact, w, steps) <==> NoneWritesWithout(fact, w, steps)
    decreases |steps|
  {
    if steps != [] {
      assert steps[0] in steps;
      if !steps[0].Read? && !steps[0].Write? {
        assert Next(w, steps[0]).store == Decided(w.store, steps[0]);
      }
      if fact(Next(w, steps[0]).store) {
        StandsUnlessWrittenOver(fact, Next(w, steps[0]), steps[1..], after);
      }
    }
  }

  function BeginsWith(history: seq<Figure>): Whole -> bool {
    (store: Whole) => history <= store.anchors
  }

  lemma HistoryIsLeft(history: seq<Figure>, step: Step)
    ensures Leaves(BeginsWith(history), step)
  {
    forall store: Whole | history <= store.anchors ensures history <= Decided(store, step).anchors {
      if step.StateFigures? {
        Anchors.StatementsOnlyAdd(store.anchors, step.accountId, step.stated, step.readAt);
      }
    }
  }

  /** Stated figures are kept, in order and unaltered, over every interleaving,
      exactly as long as no request writes back a store it had read before they
      were stated. */
  lemma HistoryStandsUnlessWrittenOver(w: World, steps: seq<Step>, after: World, history: seq<Figure>)
    requires Runs(w, steps, after) && history <= w.store.anchors
    ensures StaysSo(BeginsWith(history), w, steps) <==> NoneWritesWithout(BeginsWith(history), w, steps)
  {
    forall step | step in steps ensures Leaves(BeginsWith(history), step) {
      HistoryIsLeft(history, step);
    }
    StandsUnlessWrittenOver(BeginsWith(history), w, steps, after);
  }

  /** One figure survives a request that writes late exactly when the request
      writes nothing, or had read the figure. */
  lemma AFigureSurvives(w: World, task: Task, figure: Figure)
    requires task in w.pending && figure in w.store.anchors
    ensures var pending := w.pending[task];
      figure in Next(w, Write(task)).store.anchors
      <==> Made(pending.read.plan, pending.request).None? || figure in pending.read.anchors
  {
  }

  function Calls(alias: Alias): Whole -> bool {
    (store: Whole) => alias in store.book.aliases
  }

  /** And an alias stands over every interleaving in which none is remembered or
      forgotten that would change it, exactly as long as no request writes back a
      store it had read without it. */
  lemma AnAliasStandsUnlessWrittenOver(w: World, steps: seq<Step>, after: World, alias: Alias)
    requires Runs(w, steps, after) && alias in w.store.book.aliases
    requires forall step :: step in steps ==> (step.Edit? ==> Aliases.Spares(step.edit, alias))
    ensures StaysSo(Calls(alias), w, steps) <==> NoneWritesWithout(Calls(alias), w, steps)
  {
    forall step | step in steps ensures Leaves(Calls(alias), step) {
      forall store: Whole | alias in store.book.aliases ensures alias in Decided(store, step).book.aliases {
        if step.Edit? {
          Aliases.SparedStays(store.book, step.edit, alias);
        }
      }
    }
    StandsUnlessWrittenOver(Calls(alias), w, steps, after);
  }

  /** Stated by a step. */
  ghost predicate States(step: Step, figure: Figure) {
    match step
    case StateFigure(anchor) => figure == anchor
    case StateFigures(accountId, stated, readAt) =>
      exists reading :: reading in stated && figure == Anchors.BankAnchor(accountId, reading, readAt)
    case _ => false
  }

  ghost predicate IsKnown(w: World, figure: Figure) {
    figure in w.store.anchors || exists task :: task in w.pending && figure in w.pending[task].read.anchors
  }

  /** Whatever is lost, nothing is rewritten: over every interleaving, each figure
      is one that was there or had been read, or that a step states. */
  lemma {:induction false} EveryFigureWasStated(w: World, steps: seq<Step>, after: World, figure: Figure)
    requires Runs(w, steps, after) && figure in after.store.anchors
    ensures IsKnown(w, figure) || exists step :: step in steps && States(step, figure)
    decreases |steps|
  {
    if steps != [] {
      var next := Next(w, steps[0]);
      EveryFigureWasStated(next, steps[1..], after, figure);
      if IsKnown(next, figure) {
        NewlyKnownIsStated(w, steps[0], figure);
        assert steps[0] in steps;
      }
    }
  }

  lemma NewlyKnownIsStated(w: World, step: Step, figure: Figure)
    requires Possible(w, step) && IsKnown(Next(w, step), figure)
    ensures IsKnown(w, figure) || States(step, figure)
  {
    if step.StateFigures? && figure in Next(w, step).store.anchors {
      StatedFigures(w.store.anchors, step.accountId, step.stated, step.readAt, figure);
    }
  }

  lemma {:induction false} StatedFigures(anchors: seq<Figure>, accountId: string, stated: seq<Reading>, readAt: int,
                                         figure: Figure)
    requires figure in Anchors.WithStated(anchors, accountId, stated, readAt)
    ensures figure in anchors || exists reading :: reading in stated && figure == Anchors.BankAnchor(accountId, reading, readAt)
    decreases |stated|
  {
    if stated != [] {
      var one := Anchors.BankAnchor(accountId, stated[0], readAt);
      var more := if Anchors.Already(anchors, accountId, stated[0]) then anchors else anchors + [one];
      assert stated[0] in stated;
      StatedFigures(more, accountId, stated[1..], readAt, figure);
    }
  }

  // ------------------------------------------------------- where it fails

  lemma ProposedFallsOnItsDate(s: Store, from: int, to: int, today: int, candidates: seq<Candidate>, p: Proposal)
    requires Holds(s) && DistinctCandidates(candidates) && p in Proposals(MatchInput(s, from, to, today, candidates))
    ensures OccurrenceFault(s, p.recordId, p.dueDate) == Done
  {
    var one := ProposedOne(s, from, to, today, candidates, p);
    OccurrencesAreWhatIsPlanned(s.planned, s.rows, from, to, today);
    assert IsPlanned(s.planned, s.rows, from, to, today, one);
    var record :| record in s.planned && FallsOn(record, one.dueDate) && record.id == one.recordId;
    DatesAreWhereItFalls(record, from, to);
    OccurrenceInAnyWindow(record, one.dueDate, from, to);
    var i :| 0 <= i < |s.planned| && s.planned[i] == record;
    FoundIs(s.planned, i);
  }

  /** A person refuses a pair while a run that is about to apply it awaits its
      candidates: the refusal is lost, and the pair is matched. */
  lemma ARefusedPairIsMatched(s: Whole, today: int, now: int, candidates: seq<Candidate>, p: Proposal) returns (steps: seq<Step>, after: World)
    requires Holds(s.plan) && DistinctCandidates(candidates) && p.confident
    requires p in Proposals(MatchInput(s.plan, EarliestOf(s.plan.planned, today), Horizon(today), today, candidates))
    ensures steps == [Read(0, Running(today, now, candidates)), Do(RejectMatch(p.recordId, p.dueDate, p.transactionId)), Write(0)]
    ensures Runs(World(s, map[]), steps, after)
    ensures RefusedFor(RejectMatchOn(s.plan, p.recordId, p.dueDate, p.transactionId).0, p.recordId, p.dueDate, p.transactionId)
    ensures !RefusedFor(after.store.plan, p.recordId, p.dueDate, p.transactionId)
    ensures Held(after.store.plan.rows, KeyIn(p)).matchedTransactionId == Some(p.transactionId)
  {
    WhatRefusingLoses(s.plan, EarliestOf(s.plan.planned, today), Horizon(today), today, now, candidates, p);
    var reject := Do(RejectMatch(p.recordId, p.dueDate, p.transactionId));
    var between := World(Decided(s, reject), map[0 := Pending(s, Running(today, now, candidates))]);
    after := ReadDecideWrite(s, Running(today, now, candidates), reject, between);
    ARunWrites(between, 0, s, today, now, candidates);
    steps := [Read(0, Running(today, now, candidates)), reject, Write(0)];
  }

  /** A request reads, something is decided, the request writes. */
  lemma ReadDecideWrite(s: Whole, request: Request, step: Step, between: World) returns (after: World)
    requires !step.Read? && !step.Write? && Possible(World(s, map[]), step)
    requires between == World(Decided(s, step), map[0 := Pending(s, request)])
    ensures Runs(World(s, map[]), [Read(0, request), step, Write(0)], after) && after == Next(between, Write(0))
  {
    var steps := [Read(0, request), step, Write(0)];
    var w := World(s, map[]);
    after := Next(between, Write(0));
    assert Next(w, steps[0]) == World(s, map[0 := Pending(s, request)]);
    assert Next(Next(w, steps[0]), steps[1]) == between;
    ThreeSteps(w, steps);
  }

  lemma WhatRefusingLoses(s: Store, from: int, to: int, today: int, now: int, candidates: seq<Candidate>, p: Proposal)
    requires Holds(s) && DistinctCandidates(candidates) && p.confident
    requires p in Proposals(MatchInput(s, from, to, today, candidates))
    ensures RefusedFor(RejectMatchOn(s, p.recordId, p.dueDate, p.transactionId).0, p.recordId, p.dueDate, p.transactionId)
    ensures var run := RunIn(s, from, to, today, now, candidates);
      && run.applied > 0 && !RefusedFor(run.store, p.recordId, p.dueDate, p.transactionId)
      && Held(run.store.rows, KeyIn(p)).matchedTransactionId == Some(p.transactionId)
  {
    ProposedFallsOnItsDate(s, from, to, today, candidates, p);
    RejectingRefuses(s, p.recordId, p.dueDate, p.transactionId);
    ConfidentIsApplied(s, from, to, today, now, candidates, p);
  }

  /** Anything that takes one stretch is undone if it falls between the reading
      and the writing of filing that has something to write, an import's above
      all: the store is then what it was before it. */
  lemma FilingUndoesAStep(s: Whole, step: Step) returns (steps: seq<Step>, after: World)
    requires !step.Read? && !step.Write? && Possible(World(s, map[]), step)
    ensures steps == [Read(0, Filing(true)), step, Write(0)]
    ensures Runs(World(s, map[]), steps, after) && after.store == s
  {
    steps := [Read(0, Filing(true)), step, Write(0)];
    var between := World(Decided(s, step), map[0 := Pending(s, Filing(true))]);
    after := ReadDecideWrite(s, Filing(true), step, between);
  }

  /** So a refusal made while an import awaits does not stand, */
  lemma AnImportLosesARefusal(s: Whole, recordId: string, dueDate: int, transactionId: string) returns (steps: seq<Step>, after: World)
    requires Holds(s.plan) && OccurrenceFault(s.plan, recordId, dueDate) == Done && !RefusedFor(s.plan, recordId, dueDate, transactionId)
    ensures steps == [Read(0, Filing(true)), Do(RejectMatch(recordId, dueDate, transactionId)), Write(0)]
    ensures Runs(World(s, map[]), steps, after)
    ensures RefusedFor(RejectMatchOn(s.plan, recordId, dueDate, transactionId).0, recordId, dueDate, transactionId)
    ensures !RefusedFor(after.store.plan, recordId, dueDate, transactionId)
  {
    RejectingRefuses(s.plan, recordId, dueDate, transactionId);
    steps, after := FilingUndoesAStep(s, Do(RejectMatch(recordId, dueDate, transactionId)));
  }

  /** and a balance stated meanwhile is gone from the history. */
  lemma AnImportLosesAFigure(s: Whole, figure: Figure) returns (steps: seq<Step>, after: World)
    requires figure !in s.anchors
    ensures steps == [Read(0, Filing(true)), StateFigure(figure), Write(0)]
    ensures Runs(World(s, map[]), steps, after)
    ensures figure in Decided(s, StateFigure(figure)).anchors && figure !in after.store.anchors
  {
    steps, after := FilingUndoesAStep(s, StateFigure(figure));
  }

  lemma ThreeSteps(w: World, steps: seq<Step>)
    requires |steps| == 3 && Possible(w, steps[0])
    requires Possible(Next(w, steps[0]), steps[1]) && Possible(Next(Next(w, steps[0]), steps[1]), steps[2])
    ensures Runs(w, steps, Next(Next(Next(w, steps[0]), steps[1]), steps[2]))
  {
    assert steps[1..][0] == steps[1] && steps[1..][1..] == [steps[2]];
    assert Runs(Next(Next(w, steps[0]), steps[1]), [steps[2]], Next(Next(Next(w, steps[0]), steps[1]), steps[2])) by {
      assert [steps[2]][1..] == [];
    }
  }

  lemma ConfidentIsApplied(s: Store, from: int, to: int, today: int, now: int, candidates: seq<Candidate>, p: Proposal)
    requires Holds(s) && DistinctCandidates(candidates) && p.confident
    requires p in Proposals(MatchInput(s, from, to, today, candidates))
    ensures var run := RunIn(s, from, to, today, now, candidates);
      && run.applied > 0 && !RefusedFor(run.store, p.recordId, p.dueDate, p.transactionId)
      && Held(run.store.rows, KeyIn(p)).matchedTransactionId == Some(p.transactionId)
  {
    var proposals := Proposals(MatchInput(s, from, to, today, candidates));
    RunIsReady(s, from, to, today, candidates);
    RunHolds(s, from, to, today, now, candidates);
    SomeApply(proposals, p);
    RunRefuses(s, proposals, now, RunIn(s, from, to, today, now, candidates).store.rows, p.recordId, p.dueDate, p.transactionId);
  }

  lemma {:induction false} SomeApply(proposals: seq<Proposal>, p: Proposal)
    requires p in proposals && p.confident
    ensures Count(Confident, proposals) > 0
  {
    if proposals[0] != p {
      assert p in proposals[1..];
      SomeApply(proposals[1..], p);
    }
  }
}
